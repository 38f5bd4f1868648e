/** Linear-scan register allocation: `LinearScanAllocator` of compiler/src/lowering/reg_alloc.py.
    The Python allocator pops an arbitrary free register; here an allocation is a run of a relation
    that allows every choice, results hold for all runs, and the imperative allocator follows one. */
module RegAlloc {
  import opened IR

  datatype Problem = Problem(instrs: seq<Instr>, inputs: seq<nat>, outputs: seq<nat>, k: nat, lout: nat)

  // ----- live intervals -----

  /** The last instruction that reads `m`, or -1. */
  function LastRead(instrs: seq<Instr>, m: nat): (r: int)
    ensures -1 <= r < |instrs|
    ensures r >= 0 ==> instrs[r].Reads(m)
    ensures forall i :: r < i < |instrs| ==> !instrs[i].Reads(m)
  {
    if instrs == [] then -1
    else if instrs[|instrs| - 1].Reads(m) then |instrs| - 1
    else LastRead(instrs[..|instrs| - 1], m)
  }

  /** `deaths[i]`: what is read last by instruction `i`. */
  function Deaths(instrs: seq<Instr>, i: nat): (r: set<nat>)
    requires i < |instrs|
    ensures forall m :: m in r <==> LastRead(instrs, m) == i
  {
    set m | m in MemInputs(instrs[i]) && LastRead(instrs, m) == i
  }

  ghost predicate Defines(instrs: seq<Instr>, m: nat, before: nat)
    requires before <= |instrs|
  {
    exists j :: 0 <= j < before && instrs[j].dst == m
  }

  /** `get_used`: read but not defined by the sequence. */
  ghost predicate Used(instrs: seq<Instr>, m: nat) {
    LastRead(instrs, m) >= 0 && !Defines(instrs, m, |instrs|)
  }

  /** The inputs that the sequence uses; the others, and repetitions, only fill the list. */
  ghost function UsedInputs(p: Problem): (r: set<nat>)
    ensures forall m :: m in r <==> m in p.inputs && Used(p.instrs, m)
  {
    set m | m in p.inputs && Used(p.instrs, m)
  }

  function FirstIndex(s: seq<nat>, m: nat): (r: nat)
    ensures m in s ==> r < |s| && s[r] == m
    ensures forall i :: 0 <= i < r && i < |s| ==> s[i] != m
  {
    if s == [] || s[0] == m then 0 else FirstIndex(s[1..], m) + 1
  }

  /** The used inputs placed at or after register `u`, the first one that is handed out: `first_free_register` is the
      number of used inputs, not one past the highest index. */
  ghost function Unpacked(p: Problem, u: nat): (r: set<nat>)
    ensures forall m :: m in r <==> m in UsedInputs(p) && FirstIndex(p.inputs, m) >= u
  {
    set m | m in UsedInputs(p) && FirstIndex(p.inputs, m) >= u
  }

  /** No register is handed out before the last read of such an input. */
  ghost predicate Safe(p: Problem, u: nat) {
    forall m, j :: m in Unpacked(p, u) && 0 <= j < LastRead(p.instrs, m) ==> p.instrs[j].dst in p.outputs
  }

  /** The rest of what the allocator needs: single assignment, reads of used inputs or of earlier definitions only, distinct
      outputs that the sequence defines, and room for the inputs below the output registers. `u` is the number of used
      inputs. */
  ghost predicate Regular(p: Problem, u: nat) {
    && u == |UsedInputs(p)|
    && (forall i, j :: 0 <= i < j < |p.instrs| ==> p.instrs[i].dst != p.instrs[j].dst)
    && (forall i, m :: 0 <= i < |p.instrs| && p.instrs[i].Reads(m) ==> Defines(p.instrs, m, i) || m in UsedInputs(p))
    && (forall i, j :: 0 <= i < j < |p.outputs| ==> p.outputs[i] != p.outputs[j])
    && (forall i :: 0 <= i < |p.outputs| ==> Defines(p.instrs, p.outputs[i], |p.instrs|))
    && |p.outputs| <= p.lout && p.lout + u <= p.k && (forall m :: m in UsedInputs(p) ==> FirstIndex(p.inputs, m) < p.k - p.lout)
  }

  ghost predicate WellFormed(p: Problem, u: nat) {
    Regular(p, u) && Safe(p, u)
  }

  // ----- allocation as a relation -----

  datatype State = State(regs: map<nat, nat>, free: set<nat>)

  function Interval(lo: nat, hi: nat): (s: set<nat>)
    ensures forall x :: x in s <==> lo <= x < hi
    ensures |s| == if lo <= hi then hi - lo else 0
    decreases hi
  {
    if hi <= lo then {} else Interval(lo, hi - 1) + {hi - 1}
  }

  function FirstOutput(p: Problem): nat
    requires p.lout <= p.k
  {
    p.k - p.lout
  }

  /** The mapping before the scan: used inputs first, outputs in the last registers. */
  ghost predicate IsInitialMapping(p: Problem, regs: map<nat, nat>)
    requires p.lout <= p.k
  {
    && (forall m :: m in UsedInputs(p) ==> m in regs && regs[m] == FirstIndex(p.inputs, m))
    && (forall i :: 0 <= i < |p.outputs| ==> p.outputs[i] in regs && regs[p.outputs[i]] == FirstOutput(p) + i)
    && (forall m :: m in regs ==> m in UsedInputs(p) || m in p.outputs)
  }

  ghost predicate IsInitial(p: Problem, u: nat, s: State)
    requires p.lout <= p.k
  {
    IsInitialMapping(p, s.regs) && s.free == Interval(u, FirstOutput(p))
  }

  /** The free registers after the deaths of instruction `i`. */
  ghost function Released(p: Problem, i: nat, s: State): set<nat>
    requires i < |p.instrs|
  {
    s.free + set m | m in Deaths(p.instrs, i) && m in s.regs :: s.regs[m]
  }

  /** One iteration of the scan, with an arbitrary choice of a free register. */
  ghost predicate Step(p: Problem, i: nat, s: State, t: State)
    requires i < |p.instrs|
  {
    var d := p.instrs[i].dst;
    var free := Released(p, i, s);
    if d in s.regs then t == State(s.regs, free)
    else exists r :: r in free && t == State(s.regs[d := r], free - {r})
  }

  ghost predicate IsRun(p: Problem, u: nat, run: seq<State>)
    requires p.lout <= p.k
  {
    && 0 < |run| <= |p.instrs| + 1
    && IsInitial(p, u, run[0])
    && forall i :: 0 <= i < |run| - 1 ==> Step(p, i, run[i], run[i + 1])
  }

  /** The variables that occupy their registers when instruction `i` is reached. */
  ghost function Occupying(p: Problem, i: nat, s: State): (r: set<nat>)
    ensures forall m :: m in r <==> m in s.regs && (LastRead(p.instrs, m) == -1 || LastRead(p.instrs, m) >= i)
  {
    set m | m in s.regs && (LastRead(p.instrs, m) == -1 || LastRead(p.instrs, m) >= i)
  }

  /** Distinct registers for the members of `occ`. */
  ghost predicate Apart(regs: map<nat, nat>, occ: set<nat>) {
    && (forall m :: m in occ ==> m in regs)
    && (forall m, w :: m in occ && w in occ && m != w ==> regs[m] != regs[w])
  }

  /** Distinct registers for the members of `occ`, none of them free. */
  ghost predicate Separate(regs: map<nat, nat>, free: set<nat>, occ: set<nat>) {
    Apart(regs, occ) && forall m :: m in occ ==> regs[m] !in free
  }

  ghost predicate Mapped(p: Problem, i: nat, regs: map<nat, nat>)
    requires i <= |p.instrs|
  {
    forall m :: m in regs <==> m in UsedInputs(p) || m in p.outputs || Defines(p.instrs, m, i)
  }

  /** What becomes free at `i` and was not free before. */
  ghost function Freed(p: Problem, u: nat, i: nat): set<nat>
    requires i < |p.instrs|
  {
    Deaths(p.instrs, i) - Unpacked(p, u)
  }

  /** How many registers are free when instruction `i` is reached, whatever was chosen before. */
  ghost function FreeCount(p: Problem, u: nat, i: nat): int
    requires p.lout <= p.k && i <= |p.instrs|
  {
    if i == 0 then FirstOutput(p) - u
    else FreeCount(p, u, i - 1) + |Freed(p, u, i - 1)| - if p.instrs[i - 1].dst in p.outputs then 0 else 1
  }

  /** Enough registers: no instruction that needs a new register finds none free. */
  ghost predicate Enough(p: Problem, u: nat)
    requires p.lout <= p.k
  {
    forall i :: 0 <= i < |p.instrs| && p.instrs[i].dst !in p.outputs ==>
      FreeCount(p, u, i) + |Freed(p, u, i)| > 0
  }

  /** The unpacked inputs that are still to be read stand in registers that count as free. */
  ghost predicate Pending(p: Problem, u: nat, i: nat, s: State) {
    forall m :: m in Unpacked(p, u) && m in Occupying(p, i, s) ==> s.regs[m] in s.free
  }

  ghost predicate Invariant(p: Problem, u: nat, i: nat, s: State)
    requires i <= |p.instrs| && p.lout <= p.k
  {
    && Mapped(p, i, s.regs) && Apart(s.regs, Occupying(p, i, s)) && Pending(p, u, i, s)
    && Separate(s.regs, s.free, Occupying(p, i, s) - Unpacked(p, u)) && |s.free| == FreeCount(p, u, i)
  }

  lemma UsedNotOutputs(p: Problem, u: nat, m: nat)
    requires Regular(p, u) && m in UsedInputs(p)
    ensures m !in p.outputs
  {
  }

  lemma FirstIndexInjective(s: seq<nat>, m: nat, w: nat)
    requires m in s && w in s && m != w
    ensures FirstIndex(s, m) != FirstIndex(s, w)
  {
  }

  /** Where the initial mapping puts a variable. */
  lemma InitialPlace(p: Problem, u: nat, s: State, m: nat)
    requires Regular(p, u) && IsInitial(p, u, s) && m in s.regs
    ensures m in UsedInputs(p) <==> m !in p.outputs
    ensures m !in p.outputs ==> m in p.inputs && s.regs[m] == FirstIndex(p.inputs, m) < FirstOutput(p)
    ensures m in p.outputs ==> FirstOutput(p) <= s.regs[m] < p.k && s.regs[m] - FirstOutput(p) < |p.outputs| && p.outputs[s.regs[m] - FirstOutput(p)] == m
    ensures s.regs[m] in s.free <==> m in Unpacked(p, u)
  {
    hide UsedInputs; hide FirstIndex; hide Defines;
    if m in UsedInputs(p) { UsedNotOutputs(p, u, m); }
    if m in p.outputs { var i :| 0 <= i < |p.outputs| && p.outputs[i] == m; }
  }

  lemma InitialInvariant(p: Problem, u: nat, s: State)
    requires WellFormed(p, u) && IsInitial(p, u, s)
    ensures Invariant(p, u, 0, s)
  {
    hide Mapped; hide Regular; hide Safe; hide IsInitialMapping; hide LastRead; hide UsedInputs; hide FirstIndex; hide Unpacked;
    InitialMapped(p, u, s);
    var occ := Occupying(p, 0, s);
    forall m, w | m in occ && w in occ && m != w ensures s.regs[m] != s.regs[w] { InitialApart(p, u, s, m, w); }
    forall m | m in occ ensures s.regs[m] in s.free <==> m in Unpacked(p, u) { InitialPlace(p, u, s, m); }
  }

  lemma InitialApart(p: Problem, u: nat, s: State, m: nat, w: nat)
    requires Regular(p, u) && IsInitial(p, u, s) && m in s.regs && w in s.regs && m != w
    ensures s.regs[m] != s.regs[w]
  {
    hide *;
    Sizes(p, u);
    InitialPlace(p, u, s, m);
    InitialPlace(p, u, s, w);
    if m in p.inputs && w in p.inputs { FirstIndexInjective(p.inputs, m, w); }
  }

  lemma InitialMapped(p: Problem, u: nat, s: State)
    requires Regular(p, u) && IsInitial(p, u, s)
    ensures p.lout <= p.k && p.lout + u <= p.k && Mapped(p, 0, s.regs)
  {
  }

  lemma DefinesNext(p: Problem, m: nat, i: nat)
    requires i < |p.instrs|
    ensures Defines(p.instrs, m, i + 1) <==> Defines(p.instrs, m, i) || m == p.instrs[i].dst
  {
    if m == p.instrs[i].dst { assert p.instrs[i].dst == m; }
  }

  /** The destination of instruction `i` is read only later. */
  lemma ReadAfterDefinition(p: Problem, u: nat, i: nat)
    requires Regular(p, u) && i < |p.instrs|
    ensures LastRead(p.instrs, p.instrs[i].dst) == -1 || LastRead(p.instrs, p.instrs[i].dst) > i
    ensures p.instrs[i].dst !in UsedInputs(p)
    ensures !Defines(p.instrs, p.instrs[i].dst, i)
  {
    var d, r := p.instrs[i].dst, LastRead(p.instrs, p.instrs[i].dst);
    assert Defines(p.instrs, d, |p.instrs|) by { assert p.instrs[i].dst == d; }
    if r >= 0 {
      assert p.instrs[r].Reads(d) && d !in UsedInputs(p);
      assert Defines(p.instrs, d, r);
      var j :| 0 <= j < r && p.instrs[j].dst == d;
    }
  }

  /** What dies at `i` is mapped and occupies its register until then. */
  lemma DeathsOccupy(p: Problem, u: nat, i: nat, s: State)
    requires Regular(p, u) && i < |p.instrs| && Mapped(p, i, s.regs)
    ensures Deaths(p.instrs, i) <= Occupying(p, i, s)
    ensures Occupying(p, i + 1, s) == Occupying(p, i, s) - Deaths(p.instrs, i)
  {
    hide UsedInputs;
    forall m | m in Deaths(p.instrs, i) ensures m in s.regs {
      assert p.instrs[i].Reads(m);
    }
  }

  lemma {:induction false} ImageCard(d: set<nat>, f: map<nat, nat>)
    requires d <= f.Keys && forall m, w :: m in d && w in d && m != w ==> f[m] != f[w]
    ensures |set m | m in d :: f[m]| == |d|
    decreases |d|
  {
    if d != {} {
      var a :| a in d;
      ImageCard(d - {a}, f);
      assert (set m | m in d :: f[m]) == (set m | m in d - {a} :: f[m]) + {f[a]};
    }
  }

  lemma ReleaseSeparate(regs: map<nat, nat>, free: set<nat>, occ: set<nat>, d: set<nat>)
    requires Separate(regs, free, occ) && d <= occ
    ensures var free' := free + set m | m in d && m in regs :: regs[m];
            Separate(regs, free', occ - d) && |free'| == |free| + |d|
  {
    var img := set m | m in d :: regs[m];
    ImageCard(d, regs);
    assert (set m | m in d && m in regs :: regs[m]) == img;
    assert free !! img;
  }

  lemma ReleasedCard(p: Problem, u: nat, i: nat, s: State)
    requires Regular(p, u) && i < |p.instrs| && Invariant(p, u, i, s)
    ensures |Released(p, i, s)| == FreeCount(p, u, i) + |Freed(p, u, i)|
    ensures Separate(s.regs, Released(p, i, s), Occupying(p, i + 1, s) - Unpacked(p, u))
  {
    hide *;
    Sizes(p, u);
    InvariantParts(p, u, i, s);
    DeathsOccupy(p, u, i, s);
    ReleasedIsFreed(p, u, i, s);
    var occ, d := Occupying(p, i, s) - Unpacked(p, u), Freed(p, u, i);
    FreedIs(p, u, i);
    ReleaseSeparate(s.regs, s.free, occ, d);
    assert Occupying(p, i + 1, s) - Unpacked(p, u) == occ - d;
  }

  lemma FreedIs(p: Problem, u: nat, i: nat)
    requires i < |p.instrs|
    ensures Freed(p, u, i) == Deaths(p.instrs, i) - Unpacked(p, u)
  {
  }

  /** The registers of unpacked inputs are released without effect. */
  lemma ReleasedIsFreed(p: Problem, u: nat, i: nat, s: State)
    requires i < |p.instrs| && Pending(p, u, i, s) && Deaths(p.instrs, i) <= Occupying(p, i, s)
    ensures Released(p, i, s) == s.free + set m | m in Freed(p, u, i) && m in s.regs :: s.regs[m]
  {
    hide Unpacked; hide LastRead; hide Deaths;
  }

  lemma AllocateSeparate(regs: map<nat, nat>, free: set<nat>, occ: set<nat>, d: nat, r: nat)
    requires Separate(regs, free, occ) && r in free && d !in regs
    ensures Separate(regs[d := r], free - {r}, occ + {d})
  {
  }

  lemma StepMapped(p: Problem, u: nat, i: nat, s: State, t: State)
    requires Regular(p, u) && i < |p.instrs| && Mapped(p, i, s.regs) && Step(p, i, s, t)
    ensures Mapped(p, i + 1, t.regs)
    ensures p.instrs[i].dst in s.regs <==> p.instrs[i].dst in p.outputs
  {
    ReadAfterDefinition(p, u, i);
    forall m ensures Defines(p.instrs, m, i + 1) <==> Defines(p.instrs, m, i) || m == p.instrs[i].dst { DefinesNext(p, m, i); }
    hide Released;
    hide Regular;
    hide Defines;
    hide UsedInputs;
  }

  /** The free registers after the step, and those that nothing shares. */
  lemma StepSeparate(p: Problem, u: nat, i: nat, s: State, t: State)
    requires Regular(p, u) && i < |p.instrs| && Invariant(p, u, i, s) && Step(p, i, s, t)
    ensures Separate(t.regs, t.free, Occupying(p, i + 1, t) - Unpacked(p, u)) && |t.free| == FreeCount(p, u, i + 1)
  {
    hide *;
    Sizes(p, u);
    InvariantParts(p, u, i, s);
    var d, free, occ := p.instrs[i].dst, Released(p, i, s), Occupying(p, i + 1, s) - Unpacked(p, u);
    ReleasedCard(p, u, i, s);
    StepMapped(p, u, i, s, t);
    OccupyingNext(p, u, i, s, t);
    var r := StepChoice(p, i, s, t);
    FreeCountNext(p, u, i);
    if d !in s.regs {
      ReadAfterDefinition(p, u, i);
      UnpackedIs(p, u, d);
      AllocateSeparate(s.regs, free, occ, d, r);
      assert Occupying(p, i + 1, t) - Unpacked(p, u) == occ + {d};
    }
  }

  lemma UnpackedIs(p: Problem, u: nat, m: nat)
    ensures m in Unpacked(p, u) <==> m in UsedInputs(p) && FirstIndex(p.inputs, m) >= u
  {
  }

  lemma FreeCountNext(p: Problem, u: nat, i: nat)
    requires p.lout <= p.k && i < |p.instrs|
    ensures FreeCount(p, u, i + 1) == FreeCount(p, u, i) + |Freed(p, u, i)| - if p.instrs[i].dst in p.outputs then 0 else 1
  {
    hide Freed;
  }

  lemma InvariantParts(p: Problem, u: nat, i: nat, s: State)
    requires i <= |p.instrs| && p.lout <= p.k
    ensures Invariant(p, u, i, s) <==>
      && Mapped(p, i, s.regs) && Apart(s.regs, Occupying(p, i, s)) && Pending(p, u, i, s)
      && Separate(s.regs, s.free, Occupying(p, i, s) - Unpacked(p, u)) && |s.free| == FreeCount(p, u, i)
    ensures Separate(s.regs, s.free, Occupying(p, i, s) - Unpacked(p, u)) ==> Apart(s.regs, Occupying(p, i, s) - Unpacked(p, u))
  {
    hide Mapped; hide Apart; hide Pending; hide Occupying; hide FreeCount; hide Unpacked;
  }

  lemma ApartLess(regs: map<nat, nat>, occ: set<nat>, less: set<nat>)
    requires Apart(regs, occ) && less <= occ
    ensures Apart(regs, less)
  {
  }

  /** Without a new register the unpacked inputs stay as they are. */
  lemma StillPending(p: Problem, u: nat, i: nat, s: State, t: State)
    requires i < |p.instrs| && Pending(p, u, i, s) && Step(p, i, s, t) && p.instrs[i].dst in s.regs && Occupying(p, i + 1, s) <= Occupying(p, i, s)
    ensures Pending(p, u, i + 1, t)
  {
    hide Unpacked; hide LastRead;
    forall m | m in Unpacked(p, u) && m in Occupying(p, i + 1, t) ensures t.regs[m] in t.free { assert m in Occupying(p, i + 1, s); }
  }

  /** When a register is handed out, the unpacked inputs have been read. */
  lemma UnpackedDone(p: Problem, u: nat, i: nat, s: State)
    requires Safe(p, u) && i < |p.instrs| && p.instrs[i].dst !in p.outputs
    ensures Occupying(p, i + 1, s) !! Unpacked(p, u)
  {
    forall m | m in Unpacked(p, u) ensures m !in Occupying(p, i + 1, s) { assert LastRead(p.instrs, m) <= i; }
  }

  lemma StepInvariant(p: Problem, u: nat, i: nat, s: State, t: State)
    requires WellFormed(p, u) && i < |p.instrs| && Invariant(p, u, i, s) && Step(p, i, s, t)
    ensures Invariant(p, u, i + 1, t)
    ensures forall m :: m in s.regs ==> m in t.regs && t.regs[m] == s.regs[m]
  {
    hide *;
    Parts(p, u);
    Sizes(p, u);
    InvariantParts(p, u, i, s);
    InvariantParts(p, u, i + 1, t);
    StepMapped(p, u, i, s, t);
    StepSeparate(p, u, i, s, t);
    DeathsOccupy(p, u, i, s);
    OccupyingNext(p, u, i, s, t);
    var r := StepChoice(p, i, s, t);
    if p.instrs[i].dst in s.regs {
      ApartLess(s.regs, Occupying(p, i, s), Occupying(p, i + 1, t));
      StillPending(p, u, i, s, t);
    } else {
      UnpackedDone(p, u, i, t);
      assert Occupying(p, i + 1, t) - Unpacked(p, u) == Occupying(p, i + 1, t);
      NonePending(p, u, i + 1, t);
    }
  }

  lemma NonePending(p: Problem, u: nat, i: nat, s: State)
    requires Occupying(p, i, s) !! Unpacked(p, u)
    ensures Pending(p, u, i, s)
  {
    hide Unpacked; hide Occupying;
  }

  lemma Parts(p: Problem, u: nat)
    requires WellFormed(p, u)
    ensures Regular(p, u) && Safe(p, u)
  {
    hide Regular; hide Safe;
  }

  lemma StepChoice(p: Problem, i: nat, s: State, t: State) returns (r: nat)
    requires i < |p.instrs| && Step(p, i, s, t)
    ensures p.instrs[i].dst in s.regs ==> t == State(s.regs, Released(p, i, s))
    ensures p.instrs[i].dst !in s.regs ==>
              r in Released(p, i, s) && t == State(s.regs[p.instrs[i].dst := r], Released(p, i, s) - {r})
  {
    hide Released;
    if p.instrs[i].dst !in s.regs {
      r :| r in Released(p, i, s) && t == State(s.regs[p.instrs[i].dst := r], Released(p, i, s) - {r});
    } else {
      r := 0;
    }
  }

  lemma OccupyingNext(p: Problem, u: nat, i: nat, s: State, t: State)
    requires Regular(p, u) && i < |p.instrs| && Step(p, i, s, t)
    ensures p.instrs[i].dst in s.regs ==> Occupying(p, i + 1, t) == Occupying(p, i + 1, s)
    ensures p.instrs[i].dst !in s.regs ==> Occupying(p, i + 1, t) == Occupying(p, i + 1, s) + {p.instrs[i].dst}
  {
    ReadAfterDefinition(p, u, i);
    hide Regular;
    hide Released;
    hide LastRead;
    assert t.regs.Keys == s.regs.Keys + {p.instrs[i].dst};
  }

  lemma {:induction false} RunInvariant(p: Problem, u: nat, run: seq<State>, i: nat)
    requires WellFormed(p, u) && IsRun(p, u, run) && i < |run|
    ensures Invariant(p, u, i, run[i])
  {
    hide *;
    Parts(p, u);
    Sizes(p, u);
    RunLength(p, u, run);
    if i == 0 {
      InitialInvariant(p, u, run[0]);
    } else {
      RunInvariant(p, u, run, i - 1);
      RunStepAt(p, u, run, i - 1);
      StepInvariant(p, u, i - 1, run[i - 1], run[i]);
    }
  }

  /** Which variables have a register does not depend on the condition on inputs. */
  lemma {:induction false} RunMapped(p: Problem, u: nat, run: seq<State>, i: nat)
    requires Regular(p, u) && p.lout <= p.k && IsRun(p, u, run) && i < |run|
    ensures 0 < |run| <= |p.instrs| + 1 && Mapped(p, i, run[i].regs)
  {
    hide *;
    RunLength(p, u, run);
    if i == 0 {
      InitialMapped(p, u, run[0]);
    } else {
      RunMapped(p, u, run, i - 1);
      RunStepAt(p, u, run, i - 1);
      StepMapped(p, u, i - 1, run[i - 1], run[i]);
    }
  }

  lemma RunStepAt(p: Problem, u: nat, run: seq<State>, i: nat)
    requires p.lout <= p.k && IsRun(p, u, run) && i + 1 < |run|
    ensures Step(p, i, run[i], run[i + 1]) && IsRun(p, u, run[..i + 1])
  {
    hide Step;
    hide IsInitial;
    var prefix := run[..i + 1];
    forall j | 0 <= j < |prefix| - 1 ensures Step(p, j, prefix[j], prefix[j + 1]) {
      assert Step(p, j, run[j], run[j + 1]);
    }
  }

  lemma Sizes(p: Problem, u: nat)
    requires Regular(p, u)
    ensures p.lout <= p.k && p.lout + u <= p.k && |p.outputs| <= p.lout
  {
  }

  lemma RunLength(p: Problem, u: nat, run: seq<State>)
    requires p.lout <= p.k && IsRun(p, u, run)
    ensures 0 < |run| <= |p.instrs| + 1 && IsInitial(p, u, run[0])
  {
  }

  /** Two variables that occupy registers in a state of a run occupy different ones to the end. */
  lemma DistinctToTheEnd(p: Problem, u: nat, run: seq<State>, i: nat, m: nat, w: nat)
    requires WellFormed(p, u) && IsRun(p, u, run) && |run| == |p.instrs| + 1 && i <= |p.instrs|
    requires m in Occupying(p, i, run[i]) && w in Occupying(p, i, run[i]) && m != w
    ensures var regs := run[|p.instrs|].regs;
            m in regs && w in regs && regs[m] != regs[w]
  {
    hide *;
    Parts(p, u);
    Sizes(p, u);
    RunInvariant(p, u, run, i);
    SeparateAt(p, u, i, run[i], m, w);
    RegsPersist(p, u, run, i, |p.instrs|, m);
    RegsPersist(p, u, run, i, |p.instrs|, w);
  }

  lemma SeparateAt(p: Problem, u: nat, i: nat, s: State, m: nat, w: nat)
    requires i <= |p.instrs| && p.lout <= p.k && Invariant(p, u, i, s)
    requires m in Occupying(p, i, s) && w in Occupying(p, i, s) && m != w
    ensures m in s.regs && w in s.regs && s.regs[m] != s.regs[w]
  {
  }

  lemma MappedAt(p: Problem, u: nat, i: nat, s: State, m: nat)
    requires i <= |p.instrs| && p.lout <= p.k && Invariant(p, u, i, s)
    ensures m in s.regs <==> m in UsedInputs(p) || m in p.outputs || Defines(p.instrs, m, i)
  {
  }

  // ----- success does not depend on the choices -----

  ghost predicate CanStep(p: Problem, i: nat, s: State)
    requires i < |p.instrs|
  {
    exists t :: Step(p, i, s, t)
  }

  /** A run gets stuck exactly when the count of free registers, which no choice influences, is exhausted. */
  lemma StuckExactlyWhenExhausted(p: Problem, u: nat, run: seq<State>)
    requires WellFormed(p, u) && IsRun(p, u, run) && |run| <= |p.instrs|
    ensures var i := |run| - 1;
            CanStep(p, i, run[i]) <==> p.instrs[i].dst in p.outputs || FreeCount(p, u, i) + |Freed(p, u, i)| > 0
  {
    hide *;
    Parts(p, u);
    Sizes(p, u);
    RunLength(p, u, run);
    var i := |run| - 1;
    RunInvariant(p, u, run, i);
    ReleasedCard(p, u, i, run[i]);
    ReadAfterDefinition(p, u, i);
    MappedAt(p, u, i, run[i], p.instrs[i].dst);
    CanStepWhen(p, i, run[i]);
  }

  lemma CanStepWhen(p: Problem, i: nat, s: State)
    requires i < |p.instrs|
    ensures CanStep(p, i, s) <==> p.instrs[i].dst in s.regs || |Released(p, i, s)| > 0
  {
    var d, free := p.instrs[i].dst, Released(p, i, s);
    hide Released;
    if d in s.regs {
      assert Step(p, i, s, State(s.regs, free));
    } else if |free| > 0 {
      var r :| r in free;
      assert Step(p, i, s, State(s.regs[d := r], free - {r}));
    }
  }

  lemma {:induction false} ExtendRun(p: Problem, u: nat, run: seq<State>) returns (full: seq<State>)
    requires WellFormed(p, u) && IsRun(p, u, run) && Enough(p, u)
    ensures IsRun(p, u, full) && |full| == |p.instrs| + 1 && run <= full
    decreases |p.instrs| + 1 - |run|
  {
    hide *;
    Parts(p, u);
    Sizes(p, u);
    RunLength(p, u, run);
    if |run| == |p.instrs| + 1 {
      full := run;
    } else {
      var i := |run| - 1;
      StuckExactlyWhenExhausted(p, u, run);
      EnoughAt(p, u, i);
      var t := SomeStep(p, i, run[i]);
      full := ExtendRun(p, u, SnocRun(p, u, run, t));
    }
  }

  lemma EnoughAt(p: Problem, u: nat, i: nat)
    requires p.lout <= p.k && Enough(p, u) && i < |p.instrs|
    ensures p.instrs[i].dst in p.outputs || FreeCount(p, u, i) + |Freed(p, u, i)| > 0
  {
    hide FreeCount; hide Freed;
  }

  lemma SomeStep(p: Problem, i: nat, s: State) returns (t: State)
    requires i < |p.instrs| && CanStep(p, i, s)
    ensures Step(p, i, s, t)
  {
    hide Step;
    t :| Step(p, i, s, t);
  }

  ghost function SnocRun(p: Problem, u: nat, run: seq<State>, t: State): (r: seq<State>)
    requires p.lout <= p.k && IsRun(p, u, run) && |run| <= |p.instrs| && Step(p, |run| - 1, run[|run| - 1], t)
    ensures IsRun(p, u, r) && |r| == |run| + 1 && run <= r && r[|run|] == t
  {
    run + [t]
  }

  /** No complete run exists when some instruction finds the registers exhausted. */
  lemma CompleteMeansEnough(p: Problem, u: nat, run: seq<State>)
    requires WellFormed(p, u) && IsRun(p, u, run) && |run| == |p.instrs| + 1
    ensures Enough(p, u)
  {
    forall i: nat | i < |p.instrs| && p.instrs[i].dst !in p.outputs
      ensures FreeCount(p, u, i) + |Freed(p, u, i)| > 0
    {
      FreeAtStep(p, u, run, i);
    }
  }

  lemma FreeAtStep(p: Problem, u: nat, run: seq<State>, i: nat)
    requires WellFormed(p, u) && IsRun(p, u, run) && |run| == |p.instrs| + 1
    requires i < |p.instrs| && p.instrs[i].dst !in p.outputs
    ensures FreeCount(p, u, i) + |Freed(p, u, i)| > 0
  {
    hide *;
    Parts(p, u);
    Sizes(p, u);
    RunStepAt(p, u, run, i);
    CanStepBy(p, i, run[i], run[i + 1]);
    StuckExactlyWhenExhausted(p, u, run[..i + 1]);
  }

  lemma CanStepBy(p: Problem, i: nat, s: State, t: State)
    requires i < |p.instrs| && Step(p, i, s, t)
    ensures CanStep(p, i, s)
  {
  }

  // ----- what every complete run guarantees -----

  lemma {:induction false} RegsPersist(p: Problem, u: nat, run: seq<State>, i: nat, j: nat, m: nat)
    requires WellFormed(p, u) && IsRun(p, u, run) && i <= j < |run| && m in run[i].regs
    ensures m in run[j].regs && run[j].regs[m] == run[i].regs[m]
    decreases j
  {
    hide *;
    if i < j {
      Parts(p, u);
    Sizes(p, u);
      RunLength(p, u, run);
      RegsPersist(p, u, run, i, j - 1, m);
      RunInvariant(p, u, run, j - 1);
      RunStepAt(p, u, run, j - 1);
      StepInvariant(p, u, j - 1, run[j - 1], run[j]);
    }
  }

  /** The variables whose value exists when instruction `i` starts. */
  ghost predicate Available(p: Problem, i: nat, m: nat)
    requires i <= |p.instrs|
  {
    m in UsedInputs(p) || Defines(p.instrs, m, i)
  }

  /** No instruction overwrites the register of a variable that is still to be read. */
  lemma NoInterference(p: Problem, u: nat, run: seq<State>, i: nat, m: nat)
    requires WellFormed(p, u) && IsRun(p, u, run) && |run| == |p.instrs| + 1 && i < |p.instrs|
    requires Available(p, i, m) && LastRead(p.instrs, m) > i
    ensures var regs := run[|p.instrs|].regs;
            m in regs && p.instrs[i].dst in regs && regs[m] != regs[p.instrs[i].dst]
  {
    hide *;
    Parts(p, u);
    Sizes(p, u);
    var d := p.instrs[i].dst;
    RunInvariant(p, u, run, i + 1);
    ReadAfterDefinition(p, u, i);
    AvailableMapped(p, u, i, m, run[i + 1]);
    DestinationMapped(p, u, i, run[i + 1]);
    DistinctToTheEnd(p, u, run, i + 1, m, d);
  }

  lemma AvailableMapped(p: Problem, u: nat, i: nat, m: nat, s: State)
    requires WellFormed(p, u) && i < |p.instrs| && Available(p, i, m) && Invariant(p, u, i + 1, s)
    ensures m in s.regs && m != p.instrs[i].dst
  {
    hide WellFormed; hide Regular; hide Safe; hide Invariant; hide UsedInputs; hide Defines; hide LastRead;
    Parts(p, u);
    Sizes(p, u);
    DefinesNext(p, m, i);
    ReadAfterDefinition(p, u, i);
    MappedAt(p, u, i + 1, s, m);
  }

  lemma DestinationMapped(p: Problem, u: nat, i: nat, s: State)
    requires WellFormed(p, u) && i < |p.instrs| && Invariant(p, u, i + 1, s)
    ensures p.instrs[i].dst in s.regs && p.instrs[i].dst in Occupying(p, i + 1, s)
  {
    hide WellFormed; hide Regular; hide Safe; hide Invariant; hide UsedInputs; hide Defines; hide LastRead;
    Parts(p, u);
    Sizes(p, u);
    DefinesNext(p, p.instrs[i].dst, i);
    ReadAfterDefinition(p, u, i);
    MappedAt(p, u, i + 1, s, p.instrs[i].dst);
  }

  /** `o`'s register is overwritten after `o` is defined by instruction `b`. */
  ghost predicate Overwritten(p: Problem, regs: map<nat, nat>, b: nat, o: nat) {
    exists j :: b < j < |p.instrs| && o in regs && p.instrs[j].dst in regs && regs[p.instrs[j].dst] == regs[o]
  }

  /** A non-output is defined at or after the last internal read of `o`. */
  ghost predicate Exposed(p: Problem, o: nat) {
    exists j :: 0 <= LastRead(p.instrs, o) <= j < |p.instrs| && p.instrs[j].dst !in p.outputs
  }

  lemma FinalMapping(p: Problem, u: nat, run: seq<State>)
    requires WellFormed(p, u) && IsRun(p, u, run) && |run| == |p.instrs| + 1
    ensures var regs := run[|p.instrs|].regs;
            && (forall m :: m in UsedInputs(p) ==> m in regs && regs[m] == FirstIndex(p.inputs, m))
            && (forall i :: 0 <= i < |p.outputs| ==> p.outputs[i] in regs && regs[p.outputs[i]] == FirstOutput(p) + i)
            && (forall i :: 0 <= i < |p.instrs| ==> p.instrs[i].dst in regs)
  {
    var n := |p.instrs|;
    forall m | m in UsedInputs(p) ensures m in run[n].regs && run[n].regs[m] == FirstIndex(p.inputs, m) {
      RegsPersist(p, u, run, 0, n, m);
    }
    forall i | 0 <= i < |p.outputs|
      ensures p.outputs[i] in run[n].regs && run[n].regs[p.outputs[i]] == FirstOutput(p) + i
    {
      RegsPersist(p, u, run, 0, n, p.outputs[i]);
    }
    RunInvariant(p, u, run, n);
    forall i | 0 <= i < n ensures p.instrs[i].dst in run[n].regs {
      assert Defines(p.instrs, p.instrs[i].dst, n);
    }
  }

  /** An output that is not exposed keeps its register to the end, whatever registers were chosen. */
  lemma UnexposedIsKept(p: Problem, u: nat, run: seq<State>, b: nat, x: nat)
    requires WellFormed(p, u) && IsRun(p, u, run) && |run| == |p.instrs| + 1
    requires x < |p.outputs| && b < |p.instrs| && p.instrs[b].dst == p.outputs[x] && !Exposed(p, p.outputs[x])
    ensures !Overwritten(p, run[|p.instrs|].regs, b, p.outputs[x])
  {
    var o, n := p.outputs[x], |p.instrs|;
    var regs := run[n].regs;
    FinalMapping(p, u, run);
    forall j | b < j < n ensures regs[p.instrs[j].dst] != regs[o] {
      if p.instrs[j].dst in p.outputs {
        OutputsApart(p, u, b, j, x, regs);
      } else {
        assert !(0 <= LastRead(p.instrs, o) <= j);
        NonOutputApart(p, u, run, j, x);
      }
    }
  }

  lemma OutputsApart(p: Problem, u: nat, b: nat, j: nat, x: nat, regs: map<nat, nat>)
    requires WellFormed(p, u) && x < |p.outputs| && b < j < |p.instrs| && p.instrs[b].dst == p.outputs[x]
    requires p.instrs[j].dst in p.outputs
    requires forall i :: 0 <= i < |p.outputs| ==> p.outputs[i] in regs && regs[p.outputs[i]] == FirstOutput(p) + i
    ensures p.instrs[j].dst in regs && regs[p.instrs[j].dst] != regs[p.outputs[x]]
  {
    var y :| 0 <= y < |p.outputs| && p.outputs[y] == p.instrs[j].dst;
    assert p.instrs[b].dst != p.instrs[j].dst;
  }

  lemma NonOutputApart(p: Problem, u: nat, run: seq<State>, j: nat, x: nat)
    requires WellFormed(p, u) && IsRun(p, u, run) && |run| == |p.instrs| + 1 && x < |p.outputs| && j < |p.instrs|
    requires p.instrs[j].dst !in p.outputs && !(0 <= LastRead(p.instrs, p.outputs[x]) <= j)
    ensures var regs := run[|p.instrs|].regs;
            p.outputs[x] in regs && p.instrs[j].dst in regs && regs[p.instrs[j].dst] != regs[p.outputs[x]]
  {
    hide *;
    Parts(p, u);
    Sizes(p, u);
    RunInvariant(p, u, run, j + 1);
    DestinationMapped(p, u, j, run[j + 1]);
    MappedAt(p, u, j + 1, run[j + 1], p.outputs[x]);
    LastReadBound(p.instrs, p.outputs[x]);
    DistinctToTheEnd(p, u, run, j + 1, p.outputs[x], p.instrs[j].dst);
  }

  lemma LastReadBound(instrs: seq<Instr>, m: nat)
    ensures -1 <= LastRead(instrs, m) < |instrs|
  {
  }

  // ----- the condition is exact -----

  /** The two initial loops: `ms[i]` goes to register `base + i`. */
  ghost function Assign(regs: map<nat, nat>, ms: seq<nat>, base: nat): (r: map<nat, nat>) {
    if ms == [] then regs else Assign(regs, ms[..|ms| - 1], base)[ms[|ms| - 1] := base + |ms| - 1]
  }

  lemma {:induction false} AssignFacts(regs: map<nat, nat>, ms: seq<nat>, base: nat)
    requires forall i, j :: 0 <= i < j < |ms| ==> ms[i] != ms[j]
    ensures forall i :: 0 <= i < |ms| ==> ms[i] in Assign(regs, ms, base) && Assign(regs, ms, base)[ms[i]] == base + i
    ensures forall m :: m in Assign(regs, ms, base) <==> m in regs || m in ms
    ensures forall m :: m in regs && m !in ms ==> Assign(regs, ms, base)[m] == regs[m]
  {
    if ms != [] {
      var k := |ms| - 1;
      AssignFacts(regs, ms[..k], base);
      assert ms == ms[..k] + [ms[k]];
    }
  }

  /** `mem_to_reg` after the loop over the first `i` inputs. */
  ghost function InputMapping(p: Problem, i: nat): (r: map<nat, nat>)
    requires i <= |p.inputs|
    ensures forall m :: m in r <==> m in p.inputs[..i] && Used(p.instrs, m)
    ensures forall m :: m in r ==> r[m] == FirstIndex(p.inputs, m)
  {
    map m | m in p.inputs[..i] && Used(p.instrs, m) :: FirstIndex(p.inputs, m)
  }

  ghost function InitialMapping(p: Problem): map<nat, nat>
    requires p.lout <= p.k
  {
    Assign(InputMapping(p, |p.inputs|), p.outputs, FirstOutput(p))
  }

  lemma InputMappingDone(p: Problem)
    ensures forall m :: m in InputMapping(p, |p.inputs|) <==> m in UsedInputs(p)
    ensures forall m :: m in UsedInputs(p) ==> InputMapping(p, |p.inputs|)[m] == FirstIndex(p.inputs, m)
    ensures |InputMapping(p, |p.inputs|)| == |UsedInputs(p)|
  {
    assert p.inputs[..|p.inputs|] == p.inputs;
    assert InputMapping(p, |p.inputs|).Keys == UsedInputs(p);
  }

  lemma OutputsDistinct(p: Problem, u: nat)
    requires Regular(p, u)
    ensures forall i, j :: 0 <= i < j < |p.outputs| ==> p.outputs[i] != p.outputs[j]
  {
  }

  lemma InitialMappingFits(p: Problem, u: nat)
    requires Regular(p, u)
    ensures p.lout <= p.k && IsInitialMapping(p, InitialMapping(p))
  {
    hide Regular; hide Assign; hide UsedInputs; hide FirstIndex; hide Used; hide InputMapping;
    forall m | m in UsedInputs(p) ensures m !in p.outputs { UsedNotOutputs(p, u, m); }
    InputMappingDone(p);
    OutputsDistinct(p, u);
    Sizes(p, u);
    AssignFacts(InputMapping(p, |p.inputs|), p.outputs, FirstOutput(p));
  }

  lemma InitialExists(p: Problem, u: nat) returns (s: State)
    requires Regular(p, u)
    ensures p.lout <= p.k && IsInitial(p, u, s)
  {
    InitialMappingFits(p, u);
    s := State(InitialMapping(p), Interval(u, FirstOutput(p)));
  }

  ghost predicate FirstNonOutput(p: Problem, lo: nat, j: nat) {
    && lo <= j < |p.instrs| && p.instrs[j].dst !in p.outputs
    && forall i :: lo <= i < j ==> p.instrs[i].dst in p.outputs
  }

  lemma FindFirstNonOutput(p: Problem, lo: nat, j0: nat) returns (j: nat)
    requires lo <= j0 < |p.instrs| && p.instrs[j0].dst !in p.outputs
    ensures FirstNonOutput(p, lo, j)
  {
    j := lo;
    while p.instrs[j].dst in p.outputs
      invariant lo <= j <= j0 && forall i :: lo <= i < j ==> p.instrs[i].dst in p.outputs
      decreases j0 - j
    {
      j := j + 1;
    }
  }

  /** Between the last read of `o` and the next non-output, the register of `o` stays free. */
  lemma {:induction false} StaysFree(p: Problem, u: nat, run: seq<State>, o: nat, j: nat, i: nat)
    requires WellFormed(p, u) && IsRun(p, u, run) && o in p.outputs
    requires 0 <= LastRead(p.instrs, o) <= i < |run| && i <= j && FirstNonOutput(p, LastRead(p.instrs, o), j)
    ensures o in run[i].regs && run[i].regs[o] in Released(p, i, run[i])
  {
    hide *;
    Parts(p, u);
    Sizes(p, u);
    RunLength(p, u, run);
    FirstNonOutputAt(p, LastRead(p.instrs, o), j, i);
    RunInvariant(p, u, run, i);
    MappedAt(p, u, i, run[i], o);
    if LastRead(p.instrs, o) < i {
      StaysFree(p, u, run, o, j, i - 1);
      RunStepAt(p, u, run, i - 1);
      FirstNonOutputAt(p, LastRead(p.instrs, o), j, i - 1);
      RunInvariant(p, u, run, i - 1);
      MappedAt(p, u, i - 1, run[i - 1], p.instrs[i - 1].dst);
      StillReleased(p, i - 1, run[i - 1], run[i], run[i - 1].regs[o]);
    } else {
      ReleasedNow(p, i, run[i], o);
    }
  }

  lemma FirstNonOutputAt(p: Problem, lo: nat, j: nat, i: nat)
    requires FirstNonOutput(p, lo, j) && lo <= i <= j
    ensures i < |p.instrs| && (i < j ==> p.instrs[i].dst in p.outputs) && (i == j ==> p.instrs[i].dst !in p.outputs)
  {
  }

  lemma StillReleased(p: Problem, i: nat, s: State, t: State, r: nat)
    requires i + 1 < |p.instrs| && Step(p, i, s, t) && p.instrs[i].dst in s.regs && r in Released(p, i, s)
    ensures r in Released(p, i + 1, t) && t.regs == s.regs
  {
  }

  lemma ReleasedNow(p: Problem, i: nat, s: State, o: nat)
    requires i < |p.instrs| && o in s.regs && LastRead(p.instrs, o) == i
    ensures s.regs[o] in Released(p, i, s)
  {
    assert o in Deaths(p.instrs, i);
  }

  /** Conversely, an exposed output can lose its register: some sequence of choices overwrites it. */
  lemma ExposedCanBeOverwritten(p: Problem, u: nat, b: nat, x: nat) returns (run: seq<State>)
    requires WellFormed(p, u) && Enough(p, u)
    requires x < |p.outputs| && b < |p.instrs| && p.instrs[b].dst == p.outputs[x] && Exposed(p, p.outputs[x])
    ensures IsRun(p, u, run) && |run| == |p.instrs| + 1
    ensures Overwritten(p, run[|p.instrs|].regs, b, p.outputs[x])
  {
    hide *;
    var o, n := p.outputs[x], |p.instrs|;
    var j := ExposedBy(p, o);
    Parts(p, u);
    ReadAfterDefinition(p, u, b);
    FirstNonOutputAt(p, LastRead(p.instrs, o), j, j);
    Parts(p, u);
    Sizes(p, u);
    var s := InitialExists(p, u);
    OneState(p, u, s);
    var full := ExtendRun(p, u, [s]);
    var prefix := full[..j + 1];
    PrefixRun(p, u, full, j + 1);
    StaysFree(p, u, prefix, o, j, j);
    RunInvariant(p, u, prefix, j);
    var d := p.instrs[j].dst;
    NonOutputUnmapped(p, u, j, prefix[j]);
    var r := prefix[j].regs[o];
    var t := State(prefix[j].regs[d := r], Released(p, j, prefix[j]) - {r});
    ChooseRegister(p, j, prefix[j], r, t);
    var next := SnocRun(p, u, prefix, t);
    run := ExtendRun(p, u, next);
    RegsPersist(p, u, run, j + 1, n, d);
    RegsPersist(p, u, run, j + 1, n, o);
    WitnessOverwritten(p, run[n].regs, b, o, j);
  }

  lemma ExposedBy(p: Problem, o: nat) returns (j: nat)
    requires Exposed(p, o)
    ensures 0 <= LastRead(p.instrs, o) <= j && FirstNonOutput(p, LastRead(p.instrs, o), j)
  {
    var j0 :| 0 <= LastRead(p.instrs, o) <= j0 < |p.instrs| && p.instrs[j0].dst !in p.outputs;
    j := FindFirstNonOutput(p, LastRead(p.instrs, o), j0);
  }

  lemma OneState(p: Problem, u: nat, s: State)
    requires p.lout <= p.k && IsInitial(p, u, s)
    ensures IsRun(p, u, [s])
  {
  }

  lemma PrefixRun(p: Problem, u: nat, run: seq<State>, k: nat)
    requires WellFormed(p, u) && IsRun(p, u, run) && 0 < k <= |run|
    ensures IsRun(p, u, run[..k])
  {
    if k == |run| { assert run[..k] == run; } else { RunStepAt(p, u, run, k - 1); }
  }

  lemma NonOutputUnmapped(p: Problem, u: nat, j: nat, s: State)
    requires WellFormed(p, u) && j < |p.instrs| && p.instrs[j].dst !in p.outputs && Invariant(p, u, j, s)
    ensures p.instrs[j].dst !in s.regs
  {
    ReadAfterDefinition(p, u, j);
    MappedAt(p, u, j, s, p.instrs[j].dst);
  }

  lemma ChooseRegister(p: Problem, j: nat, s: State, r: nat, t: State)
    requires j < |p.instrs| && p.instrs[j].dst !in s.regs && r in Released(p, j, s)
    requires t == State(s.regs[p.instrs[j].dst := r], Released(p, j, s) - {r})
    ensures Step(p, j, s, t)
  {
  }

  lemma WitnessOverwritten(p: Problem, regs: map<nat, nat>, b: nat, o: nat, j: nat)
    requires b < j < |p.instrs| && o in regs && p.instrs[j].dst in regs && regs[p.instrs[j].dst] == regs[o]
    ensures Overwritten(p, regs, b, o)
  {
  }

  // ----- without the condition on inputs -----

  /** Instruction `i` was given the register of an input that is still to be read. */
  ghost predicate Clash(p: Problem, i: nat, s: State) {
    exists m :: m in UsedInputs(p) && LastRead(p.instrs, m) > i && i < |p.instrs| && m in s.regs && p.instrs[i].dst in s.regs && p.instrs[i].dst != m && s.regs[p.instrs[i].dst] == s.regs[m]
  }

  /** As long as no register has been handed out, the mapping is the initial one and nothing has left the free registers. */
  lemma {:induction false} Untouched(p: Problem, u: nat, j: nat) returns (run: seq<State>)
    requires Regular(p, u) && j <= |p.instrs| && forall i :: 0 <= i < j ==> p.instrs[i].dst in p.outputs
    ensures p.lout <= p.k && IsRun(p, u, run) && |run| == j + 1 && IsInitialMapping(p, run[j].regs) && Interval(u, FirstOutput(p)) <= run[j].free
    decreases j
  {
    hide *;
    Sizes(p, u);
    if j == 0 {
      var s := InitialExists(p, u);
      InitialIs(p, u, s);
      OneState(p, u, s);
      run := [s];
    } else {
      var before := Untouched(p, u, j - 1);
      var s := before[j - 1];
      var t := State(s.regs, Released(p, j - 1, s));
      OutputPlaced(p, s.regs, p.instrs[j - 1].dst);
      KeepStep(p, j - 1, s);
      run := SnocRun(p, u, before, t);
    }
  }

  lemma InitialIs(p: Problem, u: nat, s: State)
    requires p.lout <= p.k && IsInitial(p, u, s)
    ensures IsInitialMapping(p, s.regs) && s.free == Interval(u, FirstOutput(p))
  {
  }

  lemma OutputPlaced(p: Problem, regs: map<nat, nat>, m: nat)
    requires p.lout <= p.k && IsInitialMapping(p, regs) && m in p.outputs
    ensures m in regs
  {
    var i :| 0 <= i < |p.outputs| && p.outputs[i] == m;
  }

  lemma KeepStep(p: Problem, i: nat, s: State)
    requires i < |p.instrs| && p.instrs[i].dst in s.regs
    ensures Step(p, i, s, State(s.regs, Released(p, i, s))) && s.free <= Released(p, i, s)
  {
  }

  /** The run cannot be continued: it has a mapping for every instruction, or finds no register. */
  ghost predicate Ended(p: Problem, u: nat, run: seq<State>)
    requires p.lout <= p.k && IsRun(p, u, run)
  {
    |run| == |p.instrs| + 1 || !CanStep(p, |run| - 1, run[|run| - 1])
  }

  lemma StepPersists(p: Problem, i: nat, s: State, t: State, m: nat)
    requires i < |p.instrs| && Step(p, i, s, t) && m in s.regs
    ensures m in t.regs && t.regs[m] == s.regs[m]
  {
    hide Released;
    var r := StepChoice(p, i, s, t);
  }

  lemma ClashPersists(p: Problem, i: nat, j: nat, s: State, t: State)
    requires j < |p.instrs| && Step(p, j, s, t) && Clash(p, i, s)
    ensures Clash(p, i, t)
  {
    hide Step; hide UsedInputs; hide LastRead;
    var m :| m in UsedInputs(p) && LastRead(p.instrs, m) > i && i < |p.instrs| && m in s.regs && p.instrs[i].dst in s.regs && p.instrs[i].dst != m && s.regs[p.instrs[i].dst] == s.regs[m];
    StepPersists(p, j, s, t, m);
    StepPersists(p, j, s, t, p.instrs[i].dst);
  }

  /** However a run with a clash is continued to its end, the clash stays. */
  lemma {:induction false} ClashToTheEnd(p: Problem, u: nat, i: nat, run: seq<State>) returns (full: seq<State>)
    requires Regular(p, u) && p.lout <= p.k && IsRun(p, u, run) && 0 < |run| && Clash(p, i, run[|run| - 1])
    ensures IsRun(p, u, full) && run <= full && 0 < |full| && Ended(p, u, full) && Clash(p, i, full[|full| - 1])
    decreases |p.instrs| + 1 - |run|
  {
    hide *;
    RunLength(p, u, run);
    var k := |run| - 1;
    if k < |p.instrs| && CanStep(p, k, run[k]) {
      var t := SomeStep(p, k, run[k]);
      ClashPersists(p, i, k, run[k], t);
      full := ClashToTheEnd(p, u, i, SnocRun(p, u, run, t));
    } else {
      full := run;
      MakeEnded(p, u, run);
    }
  }

  lemma MakeEnded(p: Problem, u: nat, run: seq<State>)
    requires p.lout <= p.k && IsRun(p, u, run) && (|run| == |p.instrs| + 1 || (0 < |run| <= |p.instrs| && !CanStep(p, |run| - 1, run[|run| - 1])))
    ensures Ended(p, u, run)
  {
    hide IsRun; hide CanStep;
  }

  /** The condition on the inputs is exact: without it some choice gives the register of an input that is still to be read
      to another variable, and the allocation then fails or ends with a mapping in which the input is lost. */
  lemma UnsafeCanClash(p: Problem, u: nat) returns (run: seq<State>, i: nat)
    requires Regular(p, u) && !Safe(p, u)
    ensures p.lout <= p.k && IsRun(p, u, run) && |run| >= i + 2 && Clash(p, i, run[|run| - 1]) && Ended(p, u, run)
  {
    hide *;
    Sizes(p, u);
    var first;
    first, i := UnsafeStarts(p, u);
    run := ClashToTheEnd(p, u, i, first);
  }

  lemma UnsafeStarts(p: Problem, u: nat) returns (run: seq<State>, i: nat)
    requires Regular(p, u) && !Safe(p, u)
    ensures p.lout <= p.k && IsRun(p, u, run) && |run| == i + 2 && Clash(p, i, run[i + 1])
  {
    var m, j0 :| m in Unpacked(p, u) && 0 <= j0 < LastRead(p.instrs, m) && p.instrs[j0].dst !in p.outputs;
    i := FindFirstNonOutput(p, 0, j0);
    assert FirstNonOutput(p, 0, i);
    hide Unpacked; hide LastRead; hide Safe; hide FirstIndex; hide UsedInputs; hide Interval;
    Sizes(p, u);
    UnpackedIs(p, u, m);
    var before := Untouched(p, u, i);
    var s, d, q := before[i], p.instrs[i].dst, FirstIndex(p.inputs, m);
    RoomFor(p, u, m);
    ReadAfterDefinition(p, u, i);
    hide Regular;
    assert q in Released(p, i, s);
    var t := State(s.regs[d := q], Released(p, i, s) - {q});
    ChooseRegister(p, i, s, q, t);
    run := SnocRun(p, u, before, t);
    assert m in UsedInputs(p) && t.regs[d] == t.regs[m];
  }

  lemma RoomFor(p: Problem, u: nat, m: nat)
    requires Regular(p, u) && m in Unpacked(p, u)
    ensures p.lout <= p.k && FirstIndex(p.inputs, m) in Interval(u, FirstOutput(p))
  {
  }
}
