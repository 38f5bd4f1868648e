/** The imperative allocator: `compute_live_intervals`, `get_registers_mapping`, `needs_leq_k_registers`
    of compiler/src/lowering/reg_alloc.py and `MLMI_to_LLMI` of compiler/src/lowering/lowering.py,
    proved to follow the allocation relation. */
module Allocator {
  import opened Options
  import opened IR
  import opened RegAlloc
  import opened Lowering

  /** A `defaultdict(lambda: set())`. */
  type Buckets = map<int, set<nat>>

  function Get(b: Buckets, i: int): set<nat> {
    if i in b then b[i] else {}
  }

  function Put(b: Buckets, i: int, m: nat): (r: Buckets)
    ensures forall x :: Get(r, x) == if x == i then Get(b, i) + {m} else Get(b, x)
  {
    b[i := Get(b, i) + {m}]
  }

  /** `mem_inputs` in operand order. */
  function MemList(i: Instr): (r: seq<nat>)
    ensures forall m :: m in r <==> i.Reads(m)
  {
    (if i.src1.Loc? then [i.src1.m] else []) + (if i.src2.Loc? then [i.src2.m] else [])
    + (if i.src3.Loc? then [i.src3.m] else [])
  }

  ghost predicate ReadFrom(instrs: seq<Instr>, j: nat, m: nat) {
    exists i :: j <= i < |instrs| && instrs[i].Reads(m)
  }

  lemma LastReadWhen(instrs: seq<Instr>, j: nat, m: nat)
    requires j < |instrs| && instrs[j].Reads(m)
    ensures LastRead(instrs, m) == j <==> !ReadFrom(instrs, j + 1, m)
  {
  }

  method ComputeLiveIntervals(instrs: seq<Instr>, inputs: seq<nat>, outputs: seq<nat>)
    returns (births: Buckets, deaths: Buckets)
    ensures forall i :: 0 <= i < |instrs| ==> Get(births, i) == {instrs[i].dst} && Get(deaths, i) == Deaths(instrs, i)
  {
    births, deaths := map[], map[];
    for i := 0 to |inputs|
      invariant forall x :: x in births ==> x == -1
    {
      births := Put(births, -1, inputs[i]);
    }
    for i := 0 to |outputs|
      invariant forall x :: x in deaths ==> x == |instrs| + 1
    {
      deaths := Put(deaths, |instrs| + 1, outputs[i]);
    }
    for i := 0 to |instrs|
      invariant forall x :: 0 <= x < |instrs| ==> Get(births, x) == if x < i then {instrs[x].dst} else {}
    {
      births := Put(births, i, instrs[i].dst);
      assert Get(births, i) == {instrs[i].dst};
    }
    var dead: set<nat> := {};
    for j := |instrs| downto 0
      invariant forall m :: m in dead <==> ReadFrom(instrs, j, m)
      invariant forall x :: 0 <= x < |instrs| ==> Get(deaths, x) == if x < j then {} else Deaths(instrs, x)
    {
      deaths, dead := KillAt(instrs, j, deaths, dead);
    }
  }

  /** One step of the backward pass: what instruction `j` reads and nothing later does, dies there. */
  method KillAt(instrs: seq<Instr>, j: nat, deaths0: Buckets, dead0: set<nat>) returns (deaths: Buckets, dead: set<nat>)
    requires j < |instrs| && Get(deaths0, j) == {} && forall m :: m in dead0 <==> ReadFrom(instrs, j + 1, m)
    ensures forall m :: m in dead <==> ReadFrom(instrs, j, m)
    ensures Get(deaths, j) == Deaths(instrs, j) && forall x :: x != j ==> Get(deaths, x) == Get(deaths0, x)
  {
    var ms := MemList(instrs[j]);
    deaths, dead := deaths0, dead0;
    for k := 0 to |ms|
      invariant forall m :: m in dead <==> m in dead0 || m in ms[..k]
      invariant forall m :: m in Get(deaths, j) <==> m in ms[..k] && m !in dead0
      invariant forall x :: x != j ==> Get(deaths, x) == Get(deaths0, x)
    {
      var m := ms[k];
      if m !in dead {
        deaths := Put(deaths, j, m);
        dead := dead + {m};
      }
    }
    forall m ensures m in Get(deaths, j) <==> m in Deaths(instrs, j) {
      if instrs[j].Reads(m) { LastReadWhen(instrs, j, m); }
    }
    forall m ensures m in dead <==> ReadFrom(instrs, j, m) {
      if instrs[j].Reads(m) { assert ReadFrom(instrs, j, m); }
    }
  }

  /** `MLS.get_used` */
  method GetUsed(instrs: seq<Instr>) returns (used: set<nat>)
    ensures forall m :: m in used <==> Used(instrs, m)
  {
    var defs: set<nat> := {};
    for i := 0 to |instrs|
      invariant forall m :: m in defs <==> Defines(instrs, m, i)
    {
      defs := defs + {instrs[i].dst};
    }
    var readSet: set<nat> := {};
    for i := 0 to |instrs|
      invariant forall m :: m in readSet <==> exists j :: 0 <= j < i && instrs[j].Reads(m)
    {
      readSet := readSet + MemInputs(instrs[i]);
    }
    used := readSet - defs;
    forall m ensures m in readSet <==> LastRead(instrs, m) >= 0 {
      if LastRead(instrs, m) >= 0 {
        assert instrs[LastRead(instrs, m)].Reads(m);
      }
    }
  }

  /** The two loops that place used inputs and outputs. */
  method PlaceInputsAndOutputs(p: Problem, ghost u: nat) returns (regs: map<nat, nat>, firstFree: nat)
    requires Regular(p, u)
    ensures p.lout <= p.k && IsInitialMapping(p, regs) && firstFree == u
  {
    hide *;
    var used := GetUsed(p.instrs);
    regs := map[];
    Sizes(p, u);
    NothingPlaced(p);
    for i := 0 to |p.inputs|
      invariant regs == InputMapping(p, i)
    {
      var m := p.inputs[i];
      PlaceOne(p, i);
      if m in used && m !in regs {
        regs := regs[m := i];
      }
    }
    UsedCount(p, u);
    firstFree := |regs|;
    var firstOutput := p.k - p.lout;
    ghost var before := regs;
    AssignNone(before, firstOutput);
    for i := 0 to |p.outputs|
      invariant regs == Assign(before, p.outputs[..i], firstOutput)
    {
      AssignNext(before, p.outputs, firstOutput, i);
      regs := regs[p.outputs[i] := firstOutput + i];
    }
    assert p.outputs[..|p.outputs|] == p.outputs;
    InitialMappingFits(p, u);
    InitialMappingIs(p, before, regs);
  }

  lemma NothingPlaced(p: Problem)
    ensures InputMapping(p, 0) == map[]
  {
  }

  lemma UsedCount(p: Problem, u: nat)
    requires Regular(p, u)
    ensures |InputMapping(p, |p.inputs|)| == u
  {
    hide InputMapping; hide UsedInputs;
    InputMappingDone(p);
  }

  /** A used input is placed at its first occurrence and not again. */
  lemma PlaceOne(p: Problem, i: nat)
    requires i < |p.inputs|
    ensures var m := p.inputs[i];
      InputMapping(p, i + 1) == if Used(p.instrs, m) && m !in InputMapping(p, i) then InputMapping(p, i)[m := i] else InputMapping(p, i)
  {
    hide Used; hide FirstIndex;
    var m := p.inputs[i];
    assert p.inputs[..i + 1] == p.inputs[..i] + [m];
    assert m in p.inputs;
    if m !in p.inputs[..i] { assert FirstIndex(p.inputs, m) == i by { FirstAt(p.inputs, m, i); } }
  }

  lemma FirstAt(s: seq<nat>, m: nat, i: nat)
    requires i < |s| && s[i] == m && m !in s[..i]
    ensures FirstIndex(s, m) == i
  {
    var k := FirstIndex(s, m);
    assert m in s;
  }

  lemma AssignNone(regs: map<nat, nat>, base: nat)
    ensures Assign(regs, [], base) == regs
  {
  }

  lemma AssignNext(regs: map<nat, nat>, ms: seq<nat>, base: nat, i: nat)
    requires i < |ms|
    ensures Assign(regs, ms[..i + 1], base) == Assign(regs, ms[..i], base)[ms[i] := base + i]
  {
    assert ms[..i + 1][..i] == ms[..i];
  }

  lemma InitialMappingIs(p: Problem, before: map<nat, nat>, regs: map<nat, nat>)
    requires p.lout <= p.k && before == InputMapping(p, |p.inputs|) && regs == Assign(before, p.outputs, p.k - p.lout)
    ensures regs == InitialMapping(p)
  {
  }

  /** `for m in deaths[i]: free_registers.add(mem_to_reg[m])`, in any order. */
  method ReleaseAll(dying: set<nat>, regs: map<nat, nat>, free0: set<nat>) returns (free: set<nat>)
    requires dying <= regs.Keys
    ensures free == free0 + set m | m in dying && m in regs :: regs[m]
  {
    free := free0;
    var todo := dying;
    while todo != {}
      invariant todo <= dying
      invariant free == free0 + set m | m in dying && m !in todo && m in regs :: regs[m]
      decreases |todo|
    {
      var m :| m in todo;
      ghost var before := free;
      todo := todo - {m};
      free := free + {regs[m]};
      assert free == free0 + set m | m in dying && m !in todo && m in regs :: regs[m];
    }
  }

  /** `get_registers_mapping`: returns the mapping that a run of the allocation relation ends with; when the condition on
      inputs holds, it succeeds exactly when there are enough registers, whatever register is popped. */
  method GetRegistersMapping(p: Problem, ghost u: nat) returns (r: Option<map<nat, nat>>, ghost run: seq<State>)
    requires Regular(p, u)
    ensures p.lout <= p.k && (Safe(p, u) ==> (r.Some? <==> Enough(p, u)))
    ensures r.Some? ==> Complete(p, u, run) && r.value == run[|p.instrs|].regs
  {
    hide *;
    Sizes(p, u);
    var regs, firstFree := PlaceInputsAndOutputs(p, u);
    var births, deaths := ComputeLiveIntervals(p.instrs, p.inputs, p.outputs);
    var free := Interval(firstFree, p.k - p.lout);
    StartsInitial(p, u, regs);
    run := [State(regs, free)];
    OneState(p, u, run[0]);
    for i := 0 to |p.instrs|
      invariant IsRun(p, u, run) && |run| == i + 1 && run[i] == State(regs, free)
    {
      RunMapped(p, u, run, i);
      DeathsMapped(p, u, i, run[i]);
      free := ReleaseAll(Get(deaths, i), regs, free);
      ReleasedIs(p, i, run[i], free);
      var m :| m in Get(births, i);
      SingleBirth(p.instrs[i].dst, m);
      if m !in regs {
        if |free| == 0 {
          if Safe(p, u) { NotEnough(p, u, run); }
          return None, run;
        }
        var reg :| reg in free;
        ChooseRegister(p, i, run[i], reg, State(regs[m := reg], free - {reg}));
        free := free - {reg};
        regs := regs[m := reg];
      } else {
        KeepRegister(p, i, run[i]);
      }
      run := SnocRun(p, u, run, State(regs, free));
    }
    if Safe(p, u) {
      MakeWellFormed(p, u);
      CompleteMeansEnough(p, u, run);
    }
    MakeComplete(p, u, run);
    r := Some(regs);
  }

  lemma MakeWellFormed(p: Problem, u: nat)
    requires Regular(p, u) && Safe(p, u)
    ensures WellFormed(p, u)
  {
    hide Regular; hide Safe;
  }

  lemma StartsInitial(p: Problem, u: nat, regs: map<nat, nat>)
    requires p.lout <= p.k && IsInitialMapping(p, regs)
    ensures IsInitial(p, u, State(regs, Interval(u, p.k - p.lout)))
  {
  }

  lemma DeathsMapped(p: Problem, u: nat, i: nat, s: State)
    requires Regular(p, u) && i < |p.instrs| && Mapped(p, i, s.regs)
    ensures Deaths(p.instrs, i) <= s.regs.Keys
  {
    hide *;
    OccupyingMapped(p, i, s);
    DeathsOccupy(p, u, i, s);
  }

  lemma OccupyingMapped(p: Problem, i: nat, s: State)
    ensures Occupying(p, i, s) <= s.regs.Keys
  {
  }

  lemma ReleasedIs(p: Problem, i: nat, s: State, free: set<nat>)
    requires i < |p.instrs| && free == s.free + set m | m in Deaths(p.instrs, i) && m in s.regs :: s.regs[m]
    ensures free == Released(p, i, s)
  {
  }

  lemma SingleBirth(d: nat, m: nat)
    requires m in {d}
    ensures m == d
  {
  }

  lemma NotEnough(p: Problem, u: nat, run: seq<State>)
    requires Regular(p, u) && Safe(p, u) && p.lout <= p.k && IsRun(p, u, run) && 0 < |run| <= |p.instrs|
    requires var i := |run| - 1; p.instrs[i].dst !in run[i].regs && |Released(p, i, run[i])| == 0
    ensures !Enough(p, u)
  {
    hide *;
    var i := |run| - 1;
    MakeWellFormed(p, u);
    StuckExactlyWhenExhausted(p, u, run);
    CanStepWhen(p, i, run[i]);
    if Enough(p, u) { EnoughAt(p, u, i); }
  }

  lemma KeepRegister(p: Problem, i: nat, s: State)
    requires i < |p.instrs| && p.instrs[i].dst in s.regs
    ensures Step(p, i, s, State(s.regs, Released(p, i, s)))
  {
  }

  lemma MakeComplete(p: Problem, u: nat, run: seq<State>)
    requires p.lout <= p.k && IsRun(p, u, run) && |run| == |p.instrs| + 1
    ensures Complete(p, u, run)
  {
  }

  /** `needs_leq_k_registers` */
  method NeedsLeqKRegisters(p: Problem, ghost u: nat) returns (ok: bool)
    requires Regular(p, u)
    ensures p.lout <= p.k && (Safe(p, u) ==> (ok <==> Enough(p, u)))
  {
    var r;
    ghost var run;
    r, run := GetRegistersMapping(p, u);
    ok := r.Some?;
  }

  /** `inputs = mlmi.inputs or [ MemOperand(0) ]` */
  function SomeInput(p: Problem): Problem {
    if p.inputs == [] then p.(inputs := [0]) else p
  }

  /** The cell that stands in for an empty list of inputs is not used. */
  lemma SomeInputRegular(p: Problem, u: nat)
    requires Regular(p, u)
    ensures Regular(SomeInput(p), u) && SomeInput(p).inputs != [] && UsedInputs(SomeInput(p)) == UsedInputs(p)
  {
    var q := SomeInput(p);
    forall m ensures m in UsedInputs(q) <==> m in UsedInputs(p) { if p.inputs == [] { NotUsed(p, u, m); } }
    assert UsedInputs(q) == UsedInputs(p);
    hide UsedInputs; hide Used; hide Defines; hide FirstIndex;
  }

  lemma NotUsed(p: Problem, u: nat, m: nat)
    requires Regular(p, u) && p.inputs == []
    ensures !Used(p.instrs, m)
  {
    var r := LastRead(p.instrs, m);
    if r >= 0 {
      assert p.instrs[r].Reads(m);
      assert Defines(p.instrs, m, r);
    }
  }

  /** `MLMI_to_LLMI`: the lowered sequence and the inputs to load. When the condition on inputs holds, lowering succeeds exactly
      when there are enough registers, and the sequence computes what the multi-instruction computes for every output that is
      not exposed. */
  method LowerMultiInstruction(p: Problem, ghost u: nat) returns (r: Option<(seq<Instr>, seq<nat>)>, ghost run: seq<State>)
    requires Regular(p, u)
    ensures p.lout <= p.k && (Safe(p, u) ==> (r.Some? <==> Enough(p, u)))
    ensures r.Some? ==> |r.value.0| == |p.instrs| && r.value.1 == SomeInput(p).inputs
    ensures r.Some? ==> Regular(SomeInput(p), u) && Complete(SomeInput(p), u, run) && r.value.0 == LowerAll(run[|p.instrs|].regs, p.instrs)
    ensures r.Some? && Safe(p, u) ==> forall ops: Ops, env: Env, file: Env, b, x ::
              Loaded(p, env, file) && 0 <= x < |p.outputs| && 0 <= b < |p.instrs|
              && p.instrs[b].dst == p.outputs[x] && !Exposed(p, p.outputs[x]) ==>
              Run(ops, r.value.0, file)(p.k - p.lout + x) == Run(ops, p.instrs, env)(p.outputs[x])
  {
    hide *;
    Sizes(p, u);
    var q := SomeInput(p);
    SomeInputRegular(p, u);
    SameProblem(p, u, q);
    var m;
    m, run := GetRegistersMapping(q, u);
    if m.None? {
      return None, run;
    }
    var code := [];
    for i := 0 to |p.instrs|
      invariant code == LowerAll(m.value, p.instrs)[..i]
    {
      code := code + [LowerInstr(m.value, p.instrs[i])];
    }
    assert code == LowerAll(m.value, p.instrs);
    forall ops: Ops, env: Env, file: Env, b: nat, x: nat |
        Safe(p, u) && Loaded(p, env, file) && x < |p.outputs| && b < |p.instrs|
        && p.instrs[b].dst == p.outputs[x] && !Exposed(p, p.outputs[x])
      ensures Run(ops, code, file)(p.k - p.lout + x) == Run(ops, p.instrs, env)(p.outputs[x])
    {
      MakeWellFormed(q, u);
      SameLoaded(p, q, env, file);
      LoweredOutput(ops, q, u, run, env, file, b, x, code);
    }
    r := Some((code, q.inputs));
  }

  lemma SameProblem(p: Problem, u: nat, q: Problem)
    requires q == SomeInput(p) && p.lout <= p.k && UsedInputs(q) == UsedInputs(p)
    ensures q.instrs == p.instrs && q.outputs == p.outputs && q.k == p.k && q.lout == p.lout
    ensures (Enough(q, u) <==> Enough(p, u)) && (Safe(q, u) <==> Safe(p, u)) && forall o :: Exposed(q, o) <==> Exposed(p, o)
  {
    SameFreed(p, u, q);
    hide Freed; hide LastRead; hide UsedInputs;
    forall i: nat | i <= |p.instrs| ensures FreeCount(q, u, i) == FreeCount(p, u, i) { SameCount(p, u, q, i); }
  }

  lemma SameFreed(p: Problem, u: nat, q: Problem)
    requires q == SomeInput(p) && UsedInputs(q) == UsedInputs(p)
    ensures q.instrs == p.instrs && Unpacked(q, u) == Unpacked(p, u) && forall i :: 0 <= i < |p.instrs| ==> Freed(q, u, i) == Freed(p, u, i)
  {
    assert Unpacked(q, u) == Unpacked(p, u) by {
      hide Used;
      forall m ensures m in Unpacked(q, u) <==> m in Unpacked(p, u) { if p.inputs == [] { assert m !in UsedInputs(p); } }
    }
    hide Unpacked; hide LastRead; hide UsedInputs;
  }

  lemma {:induction false} SameCount(p: Problem, u: nat, q: Problem, i: nat)
    requires q == SomeInput(p) && p.lout <= p.k && i <= |p.instrs| && q.instrs == p.instrs && forall j :: 0 <= j < |p.instrs| ==> Freed(q, u, j) == Freed(p, u, j)
    ensures FreeCount(q, u, i) == FreeCount(p, u, i)
  {
    hide Freed;
    if i > 0 { SameCount(p, u, q, i - 1); }
  }

  lemma SameLoaded(p: Problem, q: Problem, env: Env, file: Env)
    requires q == SomeInput(p) && UsedInputs(q) == UsedInputs(p) && Loaded(p, env, file)
    ensures Loaded(q, env, file)
  {
    hide FirstIndex; hide Used;
  }

  lemma LoweredOutput(ops: Ops, p: Problem, u: nat, run: seq<State>, env: Env, file: Env, b: nat, x: nat, code: seq<Instr>)
    requires WellFormed(p, u) && Complete(p, u, run) && Loaded(p, env, file)
    requires code == LowerAll(run[|p.instrs|].regs, p.instrs)
    requires x < |p.outputs| && b < |p.instrs| && p.instrs[b].dst == p.outputs[x] && !Exposed(p, p.outputs[x])
    ensures Run(ops, code, file)(p.k - p.lout + x) == Run(ops, p.instrs, env)(p.outputs[x])
  {
    hide *;
    Parts(p, u);
    Sizes(p, u);
    CompleteParts(p, u, run);
    OutputAgrees(ops, p, u, run, env, file, b, x, |p.instrs|);
    assert p.instrs[..|p.instrs|] == p.instrs;
    assert code[..|p.instrs|] == code;
    AtEnd(ops, p, run[|p.instrs|].regs, env, file, x);
  }

  lemma AtEnd(ops: Ops, p: Problem, regs: map<nat, nat>, env: Env, file: Env, x: nat)
    requires p.lout <= p.k
    ensures MemAt(ops, p, |p.instrs|, env) == Run(ops, p.instrs[..|p.instrs|], env)
    ensures RegAt(ops, p, regs, |p.instrs|, file) == Run(ops, LowerAll(regs, p.instrs)[..|p.instrs|], file)
    ensures FirstOutput(p) + x == p.k - p.lout + x
  {
  }
}
