/** `compute_merged_instrs` of compiler/src/DFG.py: passes over a set of instructions, scheduling those whose
    operands are defined, in any iteration order. */
module MergedInstrs {
  import opened IR
  import opened Dfg

  function InstrSet(s: seq<Instr>): (r: set<Instr>)
    ensures forall i :: i in r <==> i in s
  {
    set i | i in s
  }

  predicate OperandsIn(i: Instr, defined: set<nat>) {
    (i.src1.Loc? ==> i.src1.m in defined) && (i.src2.Loc? ==> i.src2.m in defined) && (i.src3.Loc? ==> i.src3.m in defined)
  }

  lemma OperandsAre(i: Instr, defined: set<nat>)
    ensures OperandsIn(i, defined) <==> forall m :: i.Reads(m) ==> m in defined
  {
    if forall m :: i.Reads(m) ==> m in defined {
      assert i.src1.Loc? ==> i.Reads(i.src1.m);
      assert i.src2.Loc? ==> i.Reads(i.src2.m);
      assert i.src3.Loc? ==> i.Reads(i.src3.m);
    }
  }

  /** `instrs` has been scheduled, `pending` has not; `base` is some order of all of them. */
  ghost predicate Progress(base: seq<Instr>, inputs: set<nat>, instrs: seq<Instr>, defined: set<nat>, pending: set<Instr>) {
    && (forall i :: i in base <==> i in instrs || i in pending)
    && (forall i :: i in pending ==> i !in instrs)
    && (forall m :: m in defined <==> m in inputs || Assigns(instrs, m))
    && SingleAssign(instrs) && Scheduled(instrs, inputs)
  }

  lemma SameDst(base: seq<Instr>, i: Instr, j: Instr)
    requires SingleAssign(base) && i in base && j in base && i.dst == j.dst
    ensures i == j
  {
  }

  lemma ProgressNext(base: seq<Instr>, inputs: set<nat>, instrs: seq<Instr>, defined: set<nat>, pending: set<Instr>, i: Instr)
    requires SingleAssign(base) && Progress(base, inputs, instrs, defined, pending) && i in pending && OperandsIn(i, defined)
    ensures Progress(base, inputs, instrs + [i], defined + {i.dst}, pending - {i})
  {
    hide OperandsIn; hide Instr.Reads;
    var next := instrs + [i];
    OperandsAre(i, defined);
    forall k, l | 0 <= k < l < |next| ensures next[k].dst != next[l].dst {
      if l == |instrs| && next[k].dst == i.dst {
        assert next[k] in instrs && next[k] in base;
        SameDst(base, next[k], i);
      }
    }
    forall m ensures m in defined + {i.dst} <==> m in inputs || Assigns(next, m) { AssignsNext(instrs, i, m); }
    forall k, m | 0 <= k < |next| && next[k].Reads(m) ensures m in inputs || Assigns(next[..k], m) {
      assert next[..|instrs|] == instrs;
      assert k < |instrs| ==> next[..k] == instrs[..k] && next[k] == instrs[k];
    }
  }

  lemma AssignsNext(instrs: seq<Instr>, i: Instr, m: nat)
    ensures Assigns(instrs + [i], m) <==> Assigns(instrs, m) || i.dst == m
  {
    var next := instrs + [i];
    if Assigns(instrs, m) {
      var k :| 0 <= k < |instrs| && instrs[k].dst == m;
      assert next[k].dst == m;
    }
    if i.dst == m { assert next[|instrs|].dst == m; }
    if Assigns(next, m) && i.dst != m {
      var k :| 0 <= k < |next| && next[k].dst == m;
      assert instrs[k].dst == m;
    }
  }

  /** As long as something is pending, something pending has its operands defined. */
  lemma SomeReady(base: seq<Instr>, inputs: set<nat>, instrs: seq<Instr>, defined: set<nat>, pending: set<Instr>) returns (i: Instr)
    requires Scheduled(base, inputs) && Progress(base, inputs, instrs, defined, pending) && pending != {}
    ensures i in pending && OperandsIn(i, defined)
  {
    hide OperandsIn; hide Instr.Reads;
    var k := FirstPending(base, pending);
    i := base[k];
    forall m | i.Reads(m) ensures m in defined {
      if m !in inputs {
        var j :| 0 <= j < k && base[..k][j].dst == m;
        assert base[j] in base && base[j] !in pending;
        assert base[j] in instrs;
        var l :| 0 <= l < |instrs| && instrs[l] == base[j];
        assert Assigns(instrs, m);
      }
    }
    OperandsAre(i, defined);
  }

  lemma {:induction false} FirstPending(base: seq<Instr>, pending: set<Instr>) returns (k: nat)
    requires pending != {} && forall i :: i in pending ==> i in base
    ensures k < |base| && base[k] in pending && forall j :: 0 <= j < k ==> base[j] !in pending
  {
    var x :| x in pending;
    k := 0;
    while base[k] !in pending
      invariant k < |base| && x in base[k..] && forall j :: 0 <= j < k ==> base[j] !in pending
      decreases |base| - k
    {
      assert base[k..] == [base[k]] + base[k + 1..];
      k := k + 1;
    }
  }

  /** One pass over `toSchedule`; whatever had its operands defined at the start is scheduled in it. */
  method Pass(toSchedule: set<Instr>, instrs0: seq<Instr>, defined0: set<nat>, ghost base: seq<Instr>, ghost inputs: set<nat>)
    returns (instrs: seq<Instr>, defined: set<nat>, toRemove: set<Instr>)
    requires SingleAssign(base) && Progress(base, inputs, instrs0, defined0, toSchedule)
    ensures Progress(base, inputs, instrs, defined, toSchedule - toRemove) && toRemove <= toSchedule
    ensures forall i :: i in toSchedule && OperandsIn(i, defined0) ==> i in toRemove
  {
    hide Progress; hide OperandsIn; hide SingleAssign;
    instrs, defined, toRemove := instrs0, defined0, {};
    var rest := toSchedule;
    assert toSchedule - {} == toSchedule;
    while rest != {}
      invariant Progress(base, inputs, instrs, defined, toSchedule - toRemove) && toRemove <= toSchedule && rest <= toSchedule
      invariant rest !! toRemove && defined0 <= defined
      invariant forall i :: i in toSchedule && i !in rest && OperandsIn(i, defined0) ==> i in toRemove
      decreases rest
    {
      var i :| i in rest;
      rest := rest - {i};
      if OperandsIn(i, defined) {
        ProgressNext(base, inputs, instrs, defined, toSchedule - toRemove, i);
        assert toSchedule - toRemove - {i} == toSchedule - (toRemove + {i});
        toRemove := toRemove + {i};
        defined := defined + {i.dst};
        instrs := instrs + [i];
      } else {
        OperandsGrow(i, defined0, defined);
      }
    }
  }

  lemma OperandsGrow(i: Instr, small: set<nat>, large: set<nat>)
    requires small <= large
    ensures OperandsIn(i, small) ==> OperandsIn(i, large)
  {
  }

  lemma StartProgress(base: seq<Instr>, inputs: set<nat>)
    ensures Progress(base, inputs, [], inputs, InstrSet(base))
  {
  }

  lemma EndProgress(base: seq<Instr>, inputs: set<nat>, instrs: seq<Instr>, defined: set<nat>)
    requires SingleAssign(base) && Progress(base, inputs, instrs, defined, {})
    ensures SingleAssign(instrs) && Scheduled(instrs, inputs) && (forall i :: i in instrs <==> i in base) && |instrs| == |base|
  {
    hide Scheduled; hide Assigns;
    DistinctSize(base);
    DistinctSize(instrs);
    assert InstrSet(base) == InstrSet(instrs);
  }

  lemma {:induction false} DistinctSize(s: seq<Instr>)
    requires SingleAssign(s)
    ensures |InstrSet(s)| == |s|
    decreases |s|
  {
    if s != [] {
      var k := |s| - 1;
      DistinctSize(s[..k]);
      assert InstrSet(s) == InstrSet(s[..k]) + {s[k]};
      assert s[k] !in s[..k];
    }
  }

  /** Scheduling always ends, and orders the instructions so that definitions come before uses, provided
      that some order does. */
  method ComputeMergedInstrs(all: seq<Instr>, inputs: set<nat>, ghost base: seq<Instr>) returns (instrs: seq<Instr>)
    requires SingleAssign(base) && Scheduled(base, inputs) && forall i :: i in all <==> i in base
    ensures SingleAssign(instrs) && Scheduled(instrs, inputs) && (forall i :: i in instrs <==> i in all) && |instrs| == |base|
  {
    hide Progress; hide SingleAssign; hide Scheduled; hide OperandsIn;
    var toSchedule := InstrSet(all);
    assert toSchedule == InstrSet(base);
    var defined := inputs;
    instrs := [];
    StartProgress(base, inputs);
    while toSchedule != {}
      invariant Progress(base, inputs, instrs, defined, toSchedule)
      decreases toSchedule
    {
      ghost var i := SomeReady(base, inputs, instrs, defined, toSchedule);
      var toRemove;
      instrs, defined, toRemove := Pass(toSchedule, instrs, defined, base, inputs);
      assert i in toRemove;
      toSchedule := toSchedule - toRemove;
    }
    EndProgress(base, inputs, instrs, defined);
  }
}
