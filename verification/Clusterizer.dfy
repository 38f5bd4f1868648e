/** compiler/src/clusterization/basic_clusterizer.py: the three loops that merge nodes of the dataflow graph.
    Whether a merged sequence fits the registers is an arbitrary test `fits` (`needs_leq_k_registers`). */
module Clusterizer {
  import opened Options
  import opened IR
  import opened Graphs
  import opened Dfg
  import opened DfgSchedule
  import opened MergedInstrs
  import opened DfgMerge
  import opened DataflowGraph

  type Fits = (seq<Instr>, seq<nat>, seq<nat>) -> bool

  // ----- what merging keeps -----

  /** The same program: same inputs and outputs, and the same valuations are models. */
  ghost predicate SameMeaning(g: Graph, h: Graph) {
    && g.progInputs == h.progInputs && g.progOutputs == h.progOutputs && NodesOk(g) && NodesOk(h)
    && forall ops: Ops, val: Env :: Models(ops, g, val) <==> Models(ops, h, val)
  }

  ghost predicate InLimits(g: Graph, lim: Limits) {
    forall n :: n in g.nodes && n in g.mlmi ==> |g.mlmi[n].inputs| <= lim.lin && |g.mlmi[n].instrs| <= lim.s
  }

  ghost predicate OutLimits(g: Graph, lim: Limits) {
    forall n :: n in g.nodes && n in g.mlmi ==> |g.mlmi[n].outputs| <= lim.lout
  }

  /** Every output is read by some node or returned by the program. */
  ghost predicate OutputsNeeded(g: Graph)
    requires NodesOk(g)
  {
    forall n, o :: n in g.nodes && o in g.mlmi[n].outputs ==> o in g.progOutputs || ReadSomewhere(g, o)
  }

  ghost predicate ReadSomewhere(g: Graph, o: nat)
    requires NodesOk(g)
  {
    exists y :: y in g.nodes && o in g.mlmi[y].inputs
  }

  lemma SameMeaningTrans(g: Graph, h: Graph, k: Graph)
    requires SameMeaning(g, h) && SameMeaning(h, k)
    ensures SameMeaning(g, k)
  {
    hide Models; hide NodesOk;
  }

  lemma MergeSame(g: Graph, h: Graph, n1: nat, n2: nat, x: nat, mi: Mlmi)
    requires CanMerge(g, n1, n2, x) && n1 in g.mlmi && n2 in g.mlmi && MergedNode(g, n1, n2, mi) && Merged(g, h, n1, n2, x, mi)
    ensures SameMeaning(g, h)
  {
    hide Models; hide MergedNode; hide NodesOk; hide BackOk; hide FwdOk; hide AvailableOk; hide Assigns; hide Feeds; hide Succ;
    MergeNodesOk(g, h, n1, n2, x, mi);
    forall ops: Ops, val: Env ensures Models(ops, g, val) <==> Models(ops, h, val) {
      MergeModels(ops, g, h, n1, n2, x, mi, val);
    }
  }

  lemma MergeInLimits(g: Graph, h: Graph, n1: nat, n2: nat, x: nat, mi: Mlmi, lim: Limits)
    requires n1 in g.mlmi && n2 in g.mlmi && MergedNode(g, n1, n2, mi) && Merged(g, h, n1, n2, x, mi) && InLimits(g, lim)
    requires |g.mlmi[n1].instrs| + |g.mlmi[n2].instrs| <= lim.s && |mi.inputs| <= lim.lin
    ensures InLimits(h, lim)
  {
    hide Kept; hide SingleAssign; hide Scheduled; hide Assigns; hide Feeds; hide Succ;
  }

  lemma MergeOutLimits(g: Graph, h: Graph, n1: nat, n2: nat, x: nat, mi: Mlmi, lim: Limits)
    requires n1 in g.mlmi && n2 in g.mlmi && Merged(g, h, n1, n2, x, mi) && OutLimits(g, lim) && |mi.outputs| <= lim.lout
    ensures OutLimits(h, lim)
  {
    hide Assigns; hide Feeds; hide Succ;
  }

  // ----- merging with the only successor -----

  lemma TailIsCycle(e: Edges, n: nat, m: nat, p: seq<nat>)
    requires Succ(e, n) == {m} && Joins(e, p, n, m) && |p| >= 3
    ensures Reaches(e, m, m)
  {
    PathTail(e, p);
    assert p[1] in Succ(e, p[0]);
    assert Joins(e, p[1..], m, m);
  }

  /** A node and its only successor are joined by no longer path. */
  lemma SoleSuccessor(e: Edges, n: nat, m: nat)
    requires Acyclic(e) && Succ(e, n) == {m}
    ensures n != m && !LongPath(e, n, m) && !LongPath(e, m, n)
  {
    EdgePath(e, n, m);
    if LongPath(e, n, m) {
      var p :| Joins(e, p, n, m) && |p| >= 3;
      TailIsCycle(e, n, m, p);
    }
    if LongPath(e, m, n) {
      var p :| Joins(e, p, m, n) && |p| >= 3;
      assert Reaches(e, m, n);
      ReachesTrans(e, n, m, n);
    }
  }

  /** After such a merge the outputs are the successor's, and the candidate's own program outputs. */
  lemma OneSuccessorOutputs(g: Graph, n: nat, m: nat, mi: Mlmi, o: nat)
    requires Integral(g) && Acyclic(g.fwd) && OutputsNeeded(g) && n in g.nodes && m in g.nodes && n in g.mlmi && m in g.mlmi
    requires Succ(g.fwd, n) == {m} && MergedNode(g, n, m, mi)
    ensures o in mi.outputs <==> o in g.mlmi[m].outputs || (o in g.mlmi[n].outputs && o in g.progOutputs)
  {
    hide NodeOk; hide SingleAssign; hide Scheduled; hide Acyclic; hide Shares; hide Available; hide BackOk; hide LongPath;
    if o in g.mlmi[m].outputs {
      NoTwoCycle(g.fwd, m, n);
      EdgesIn(g, m, n);
      NotReadBy(g.mlmi[m], g.mlmi[n], o);
      assert Kept(g, m, n, o);
    }
    if o in g.mlmi[n].outputs && o !in g.progOutputs {
      var y :| y in g.nodes && o in g.mlmi[y].inputs;
      EdgesIn(g, n, y);
      ShareBy(g.mlmi[n], g.mlmi[y], o);
      assert y == m;
    }
  }

  /** The candidate's own program outputs. */
  ghost function OwnOutputs(g: Graph, n: nat): (r: set<nat>)
    requires n in g.mlmi
    ensures forall o :: o in r <==> o in g.mlmi[n].outputs && o in g.progOutputs
  {
    set o | o in g.mlmi[n].outputs && o in g.progOutputs
  }

  /** So the merged node is within `l_out` exactly when the successor's outputs and the candidate's own program outputs
      together are. */
  lemma OneSuccessorWithin(g: Graph, n: nat, m: nat, mi: Mlmi, lout: nat)
    requires Integral(g) && Acyclic(g.fwd) && OutputsNeeded(g) && n in g.nodes && m in g.nodes && n in g.mlmi && m in g.mlmi
    requires Succ(g.fwd, n) == {m} && MergedNode(g, n, m, mi) && NoRepeat(mi.outputs)
    ensures |mi.outputs| <= lout <==> |ToSet(g.mlmi[m].outputs)| + |OwnOutputs(g, n)| <= lout
  {
    hide *;
    SoleSuccessor(g.fwd, n, m);
    var a, b := ToSet(g.mlmi[m].outputs), OwnOutputs(g, n);
    forall o ensures o in ToSet(mi.outputs) <==> o in a || o in b { OneSuccessorOutputs(g, n, m, mi, o); }
    forall o | o in a ensures o !in b { OutputsOfTwo(g, n, m, o); }
    DistinctListSize(mi.outputs);
    assert ToSet(mi.outputs) == a + b;
    assert |a + b| == |a| + |b|;
  }

  /** Two nodes have no output in common. */
  lemma OutputsOfTwo(g: Graph, n: nat, m: nat, o: nat)
    requires Integral(g) && n in g.nodes && m in g.nodes && n in g.mlmi && m in g.mlmi && n != m
    ensures o !in g.mlmi[n].outputs || o !in g.mlmi[m].outputs
  {
    hide *;
    IntegralParts(g);
    if o in g.mlmi[n].outputs && o in g.mlmi[m].outputs {
      OutputAssigned(g, n, o);
      OutputAssigned(g, m, o);
    }
  }

  lemma NotReadBy(a: Mlmi, b: Mlmi, v: nat)
    requires !Shares(a, b) && v in a.outputs
    ensures v !in b.inputs
  {
  }

  lemma ShareBy(a: Mlmi, b: Mlmi, v: nat)
    requires v in a.outputs && v in b.inputs
    ensures Shares(a, b)
  {
  }

  /** Merging keeps every output needed. */
  lemma MergeNeeded(g: Graph, h: Graph, n1: nat, n2: nat, x: nat, mi: Mlmi)
    requires CanMerge(g, n1, n2, x) && n1 in g.mlmi && n2 in g.mlmi && MergedNode(g, n1, n2, mi) && Merged(g, h, n1, n2, x, mi)
    requires NodesOk(g) && OutputsNeeded(g) && NodesOk(h)
    ensures OutputsNeeded(h)
  {
    hide NodeOk; hide SingleAssign; hide Scheduled; hide Assigns; hide Feeds; hide BackOk; hide AvailableOk; hide FwdOk; hide Kept; hide Shares; hide MergedNode;
    forall n, o | n in h.nodes && o in h.mlmi[n].outputs && o !in h.progOutputs ensures ReadSomewhere(h, o) {
      if n == x {
        MergedOutputRead(g, h, n1, n2, x, mi, o);
      } else {
        assert ReadSomewhere(g, o);
        OldOutputRead(g, h, n1, n2, x, mi, n, o);
      }
    }
  }

  lemma MergedOutputRead(g: Graph, h: Graph, n1: nat, n2: nat, x: nat, mi: Mlmi, o: nat)
    requires CanMerge(g, n1, n2, x) && n1 in g.mlmi && n2 in g.mlmi && MergedNode(g, n1, n2, mi) && Merged(g, h, n1, n2, x, mi)
    requires NodesOk(g) && OutputsNeeded(g) && NodesOk(h) && o in mi.outputs && o !in g.progOutputs
    ensures ReadSomewhere(h, o)
  {
    hide *;
    MergeParts(g, h, n1, n2, x, mi);
    MergedOutputIs(g, n1, n2, mi, o);
    var y;
    if Kept(g, n1, n2, o) { y := KeptRead(g, n1, n2, o); } else { y := KeptRead(g, n2, n1, o); }
    MakeRead(h, y, o);
  }

  lemma MergeParts(g: Graph, h: Graph, n1: nat, n2: nat, x: nat, mi: Mlmi)
    requires CanMerge(g, n1, n2, x) && n1 in g.mlmi && n2 in g.mlmi && Merged(g, h, n1, n2, x, mi)
    ensures Integral(g) && n1 in g.nodes && n2 in g.nodes && n1 != n2 && x !in g.mlmi
    ensures h.nodes == g.nodes - {n1, n2} + {x} && h.mlmi == g.mlmi[x := mi] && h.progOutputs == g.progOutputs && h.progInputs == g.progInputs
  {
    hide Integral; hide Assigns; hide Feeds; hide Succ;
  }

  lemma MergedOutputIs(g: Graph, n1: nat, n2: nat, mi: Mlmi, o: nat)
    requires n1 in g.mlmi && n2 in g.mlmi && MergedNode(g, n1, n2, mi)
    ensures o in mi.outputs <==> Kept(g, n1, n2, o) || Kept(g, n2, n1, o)
  {
    hide Kept; hide SingleAssign; hide Scheduled;
  }

  /** An output that was kept, and is not the program's, is read by a third node. */
  lemma KeptRead(g: Graph, first: nat, second: nat, o: nat) returns (y: nat)
    requires Integral(g) && OutputsNeeded(g) && first in g.nodes && second in g.nodes && first in g.mlmi && second in g.mlmi
    requires Kept(g, first, second, o) && o !in g.progOutputs
    ensures y in g.nodes && y in g.mlmi && y != first && y != second && o in g.mlmi[y].inputs
  {
    hide NodeOk; hide Shares; hide BackOk; hide AvailableOk;
    NodeUses(g, first, o);
    if o !in g.mlmi[second].inputs {
      y :| y in g.nodes && o in g.mlmi[y].inputs;
    } else {
      y :| y in Succ(g.fwd, first) && y != second && y in g.mlmi && o in g.mlmi[y].inputs;
    }
  }

  lemma MakeRead(g: Graph, y: nat, o: nat)
    requires NodesOk(g) && y in g.nodes && y in g.mlmi && o in g.mlmi[y].inputs
    ensures ReadSomewhere(g, o)
  {
    hide NodeOk;
  }

  lemma OldOutputRead(g: Graph, h: Graph, n1: nat, n2: nat, x: nat, mi: Mlmi, n: nat, o: nat)
    requires CanMerge(g, n1, n2, x) && n1 in g.mlmi && n2 in g.mlmi && MergedNode(g, n1, n2, mi) && Merged(g, h, n1, n2, x, mi)
    requires NodesOk(g) && NodesOk(h) && n in g.nodes && n != n1 && n != n2 && o in g.mlmi[n].outputs && ReadSomewhere(g, o)
    ensures ReadSomewhere(h, o)
  {
    hide NodeOk; hide SingleAssign; hide Scheduled; hide Assigns; hide Feeds; hide AvailableOk; hide FwdOk; hide Kept;
    var y :| y in g.nodes && o in g.mlmi[y].inputs;
    if y == n1 || y == n2 {
      OutputAssigned(g, n, o);
      if o in g.mlmi[n1].outputs { OutputAssigned(g, n1, o); }
      if o in g.mlmi[n2].outputs { OutputAssigned(g, n2, o); }
      assert o in mi.inputs;
      assert x in h.nodes && h.mlmi[x] == mi;
    } else {
      assert y in h.nodes && h.mlmi[y] == g.mlmi[y];
    }
  }

  // ----- scores -----

  lemma {:induction false} SetOfList(r: seq<nat>)
    ensures |ToSet(r)| <= |r|
    decreases |r|
  {
    if r != [] {
      var k := |r| - 1;
      SetOfList(r[..k]);
      assert ToSet(r) == ToSet(r[..k]) + {r[k]};
    }
  }

  lemma SubsetSize(a: set<nat>, b: set<nat>)
    requires a <= b
    ensures |a| <= |b|
  {
    assert b == a + (b - a);
  }

  lemma UnionSize(a: set<nat>, b: set<nat>, r: set<nat>)
    requires r <= a + b
    ensures |r| <= |a| + |b|
  {
    SubsetSize(r, a + b);
    assert a + b == a + (b - a);
    SubsetSize(b - a, b);
  }

  /** The merge respects the limits and creates no cycle. */
  ghost predicate Mergeable(g: Graph, lim: Limits, n1: nat, n2: nat, mls: seq<Instr>) {
    && n1 in g.mlmi && n2 in g.mlmi && IsMerge(g.mlmi[n1], g.mlmi[n2], mls)
    && |g.mlmi[n1].instrs| + |g.mlmi[n2].instrs| <= lim.s && |MergedInputs(g.mlmi[n1], g.mlmi[n2])| <= lim.lin
    && !LongPath(g.fwd, n1, n2) && !LongPath(g.fwd, n2, n1)
  }

  /** The merged node would have at most `l_out` outputs. */
  ghost predicate OutputsFit(g: Graph, lim: Limits, n1: nat, n2: nat) {
    && n1 in g.mlmi && n2 in g.mlmi
    && exists outs: set<nat> :: |outs| <= lim.lout && AllKept(g, n1, n2, outs)
  }

  /** `compute_merged_outputs` as a set. */
  ghost predicate AllKept(g: Graph, n1: nat, n2: nat, outs: set<nat>)
    requires n1 in g.mlmi && n2 in g.mlmi
  {
    forall o :: o in outs <==> Kept(g, n1, n2, o) || Kept(g, n2, n1, o)
  }

  /** The outputs of the merged node. */
  ghost function KeptSet(g: Graph, n1: nat, n2: nat): (r: set<nat>)
    requires n1 in g.mlmi && n2 in g.mlmi
    ensures AllKept(g, n1, n2, r)
  {
    set o | o in g.mlmi[n1].outputs + g.mlmi[n2].outputs && (Kept(g, n1, n2, o) || Kept(g, n2, n1, o))
  }

  /** The number of inputs and outputs that a merge saves. */
  ghost function Saved(g: Graph, n1: nat, n2: nat): int
    requires n1 in g.mlmi && n2 in g.mlmi
  {
    var a, b := g.mlmi[n1], g.mlmi[n2];
    |a.inputs| + |b.inputs| - |MergedInputs(a, b)| + |a.outputs| + |b.outputs| - |KeptSet(g, n1, n2)|
  }

  /** The register test refuses an order of the merged instructions. */
  ghost predicate Refused(g: Graph, fits: Fits, n1: nat, n2: nat, mls: seq<Instr>, ins: seq<nat>, outs: seq<nat>) {
    && n1 in g.mlmi && n2 in g.mlmi && IsMerge(g.mlmi[n1], g.mlmi[n2], mls) && ToSet(ins) == MergedInputs(g.mlmi[n1], g.mlmi[n2])
    && ToSet(outs) == KeptSet(g, n1, n2) && !fits(mls, ins, outs)
  }

  /** The merged node has too many instructions or inputs, or does not fit the registers. */
  ghost predicate TooLarge(g: Graph, lim: Limits, fits: Fits, n1: nat, n2: nat) {
    && n1 in g.mlmi && n2 in g.mlmi
    && (|g.mlmi[n1].instrs| + |g.mlmi[n2].instrs| > lim.s || |MergedInputs(g.mlmi[n1], g.mlmi[n2])| > lim.lin
        || exists mls, ins, outs :: Refused(g, fits, n1, n2, mls, ins, outs))
  }

  /** Why `merge_score` answers -1. */
  ghost predicate Invalid(g: Graph, lim: Limits, fits: Fits, n1: nat, n2: nat) {
    && n1 in g.mlmi && n2 in g.mlmi
    && (TooLarge(g, lim, fits, n1, n2) || |KeptSet(g, n1, n2)| > lim.lout || LongPath(g.fwd, n1, n2) || LongPath(g.fwd, n2, n1))
  }

  lemma WhyTooLarge(g: Graph, lim: Limits, fits: Fits, n1: nat, n2: nat, mls: seq<Instr>, ins: seq<nat>, outs: seq<nat>)
    requires n1 in g.mlmi && n2 in g.mlmi
    requires |g.mlmi[n1].instrs| + |g.mlmi[n2].instrs| > lim.s || |MergedInputs(g.mlmi[n1], g.mlmi[n2])| > lim.lin || Refused(g, fits, n1, n2, mls, ins, outs)
    ensures TooLarge(g, lim, fits, n1, n2) && Invalid(g, lim, fits, n1, n2)
  {
    hide Refused; hide LongPath; hide KeptSet; hide MergedInputs;
  }

  lemma WhyInvalid(g: Graph, lim: Limits, fits: Fits, n1: nat, n2: nat)
    requires n1 in g.mlmi && n2 in g.mlmi && (|KeptSet(g, n1, n2)| > lim.lout || LongPath(g.fwd, n1, n2) || LongPath(g.fwd, n2, n1))
    ensures Invalid(g, lim, fits, n1, n2)
  {
    hide TooLarge; hide LongPath; hide KeptSet;
  }

  lemma KeptSetIs(g: Graph, n1: nat, n2: nat, outs: set<nat>)
    requires n1 in g.mlmi && n2 in g.mlmi && forall o :: o in outs <==> Kept(g, n1, n2, o) || Kept(g, n2, n1, o)
    ensures outs == KeptSet(g, n1, n2)
  {
    hide Kept; hide KeptSet;
    assert AllKept(g, n1, n2, outs) && AllKept(g, n1, n2, KeptSet(g, n1, n2));
  }

  lemma MakeRefused(g: Graph, fits: Fits, n1: nat, n2: nat, mls: seq<Instr>, ins: seq<nat>, outs: seq<nat>, inputs: set<nat>, outputs: set<nat>)
    requires n1 in g.mlmi && n2 in g.mlmi && IsMerge(g.mlmi[n1], g.mlmi[n2], mls) && inputs == MergedInputs(g.mlmi[n1], g.mlmi[n2])
    requires outputs == KeptSet(g, n1, n2) && (forall m :: m in ins <==> m in inputs) && (forall o :: o in outs <==> o in outputs) && !fits(mls, ins, outs)
    ensures Refused(g, fits, n1, n2, mls, ins, outs)
  {
    hide IsMerge; hide KeptSet; hide MergedInputs;
    assert ToSet(ins) == inputs && ToSet(outs) == outputs;
  }

  lemma SavedIs(g: Graph, n1: nat, n2: nat)
    requires n1 in g.mlmi && n2 in g.mlmi
    ensures var a, b := g.mlmi[n1], g.mlmi[n2];
      Saved(g, n1, n2) == |a.inputs| + |b.inputs| - |MergedInputs(a, b)| + |a.outputs| + |b.outputs| - |KeptSet(g, n1, n2)|
  {
    hide KeptSet; hide MergedInputs;
  }

  /** `merge_score`: the number of inputs and outputs saved, or -1 exactly when the merge is not valid. */
  method MergeScore(dfg: Dataflow, lim: Limits, fits: Fits, n1: nat, n2: nat) returns (score: int, mls: seq<Instr>)
    requires dfg.Valid() && dfg.Two(n1, n2)
    ensures score >= -1 && (score == -1 ==> Invalid(dfg.View(), lim, fits, n1, n2))
    ensures score >= 0 ==> Mergeable(dfg.View(), lim, n1, n2, mls) && OutputsFit(dfg.View(), lim, n1, n2) && score == Saved(dfg.View(), n1, n2)
  {
    hide *;
    dfg.ValidParts();
    dfg.ViewIs();
    dfg.TwoParts(n1, n2);
    ghost var g := dfg.View();
    var a, b := dfg.mlmi[n1], dfg.mlmi[n2];
    if |a.instrs| + |b.instrs| > lim.s {
      WhyTooLarge(g, lim, fits, n1, n2, [], [], []);
      return -1, [];
    }
    var inputs := MergedInputs(a, b);
    if |inputs| > lim.lin {
      WhyTooLarge(g, lim, fits, n1, n2, [], [], []);
      return -1, [];
    }
    var kept1 := dfg.KeptOutputs(n1, n2);
    var kept2 := dfg.KeptOutputs(n2, n1);
    var outputs := kept1 + kept2;
    KeptSetIs(g, n1, n2, outputs);
    if |outputs| > lim.lout {
      WhyInvalid(g, lim, fits, n1, n2);
      return -1, [];
    }
    ghost var base := SomeOrder(g, n1, n2);
    mls := ComputeMergedInstrs(a.instrs + b.instrs, inputs, base);
    MakeMerge(a, b, mls);
    var inputList := ListOf(inputs);
    var outputList := ListOf(outputs);
    if !fits(mls, inputList, outputList) {
      MakeRefused(g, fits, n1, n2, mls, inputList, outputList, inputs, outputs);
      WhyTooLarge(g, lim, fits, n1, n2, mls, inputList, outputList);
      return -1, [];
    }
    var ok := CheckDominationForMerge(dfg.forwardEdges, n1, n2);
    if !ok {
      WhyInvalid(g, lim, fits, n1, n2);
      return -1, [];
    }
    SavedIs(g, n1, n2);
    score := |a.inputs| + |b.inputs| - |inputs| + |a.outputs| + |b.outputs| - |outputs|;
    forall o ensures Kept(g, n1, n2, o) ==> o in a.outputs { KeptIsOutput(g, n1, n2, o); }
    forall o ensures Kept(g, n2, n1, o) ==> o in b.outputs { KeptIsOutput(g, n2, n1, o); }
    ScoreSigned(a, b, inputs, outputs);
    MakeMergeable(g, lim, n1, n2, mls);
    MakeOutputsFit(g, lim, n1, n2, outputs);
  }

  lemma ScoreSigned(a: Mlmi, b: Mlmi, inputs: set<nat>, outputs: set<nat>)
    requires inputs == MergedInputs(a, b) && forall o :: o in outputs ==> o in a.outputs || o in b.outputs
    ensures |a.inputs| + |b.inputs| - |inputs| + |a.outputs| + |b.outputs| - |outputs| >= 0
  {
    SetOfList(a.inputs); SetOfList(b.inputs); SetOfList(a.outputs); SetOfList(b.outputs);
    UnionSize(ToSet(a.inputs), ToSet(b.inputs), inputs);
    UnionSize(ToSet(a.outputs), ToSet(b.outputs), outputs);
  }

  lemma MakeMergeable(g: Graph, lim: Limits, n1: nat, n2: nat, mls: seq<Instr>)
    requires n1 in g.mlmi && n2 in g.mlmi && IsMerge(g.mlmi[n1], g.mlmi[n2], mls)
    requires |g.mlmi[n1].instrs| + |g.mlmi[n2].instrs| <= lim.s && |MergedInputs(g.mlmi[n1], g.mlmi[n2])| <= lim.lin
    requires !LongPath(g.fwd, n1, n2) && !LongPath(g.fwd, n2, n1)
    ensures Mergeable(g, lim, n1, n2, mls)
  {
    hide IsMerge; hide LongPath;
  }

  lemma MakeOutputsFit(g: Graph, lim: Limits, n1: nat, n2: nat, outs: set<nat>)
    requires n1 in g.mlmi && n2 in g.mlmi && |outs| <= lim.lout && forall o :: o in outs <==> Kept(g, n1, n2, o) || Kept(g, n2, n1, o)
    ensures OutputsFit(g, lim, n1, n2)
  {
    hide Kept;
    assert AllKept(g, n1, n2, outs);
  }

  // ----- one merge -----

  ghost predicate DistinctOutputs(g: Graph) {
    forall n :: n in g.nodes && n in g.mlmi ==> NoRepeat(g.mlmi[n].outputs)
  }

  /** No new cells. */
  ghost predicate CellsKept(g: Graph, h: Graph)
    requires NodesOk(g) && NodesOk(h)
  {
    (forall k: nat :: Below(g, k) ==> Below(h, k)) && forall cells: set<nat> :: AssignsOnly(g, cells) ==> AssignsOnly(h, cells)
  }

  /** What every merge of the clusterizer keeps. */
  ghost predicate Keeps(g: Graph, h: Graph, lim: Limits) {
    && SameMeaning(g, h) && (InLimits(g, lim) ==> InLimits(h, lim)) && (OutputsNeeded(g) ==> OutputsNeeded(h))
    && CellsKept(g, h) && (DistinctOutputs(g) ==> DistinctOutputs(h))
  }

  lemma KeepsTrans(g: Graph, h: Graph, k: Graph, lim: Limits)
    requires Keeps(g, h, lim) && Keeps(h, k, lim)
    ensures Keeps(g, k, lim)
  {
    hide InLimits; hide OutputsNeeded; hide Models; hide NodesOk; hide Below; hide DistinctOutputs; hide AssignsOnly;
    SameMeaningTrans(g, h, k);
  }

  lemma KeepsSelf(g: Graph, lim: Limits)
    requires NodesOk(g)
    ensures Keeps(g, g, lim)
  {
    hide InLimits; hide OutputsNeeded; hide Models; hide NodesOk; hide Below; hide DistinctOutputs; hide AssignsOnly;
  }

  lemma MergeKeeps(g: Graph, h: Graph, lim: Limits, n1: nat, n2: nat, x: nat, mi: Mlmi)
    requires CanMerge(g, n1, n2, x) && n1 in g.mlmi && n2 in g.mlmi && MergedNode(g, n1, n2, mi) && Merged(g, h, n1, n2, x, mi)
    requires |g.mlmi[n1].instrs| + |g.mlmi[n2].instrs| <= lim.s && |mi.inputs| <= lim.lin && NoRepeat(mi.outputs)
    ensures Keeps(g, h, lim)
  {
    hide *;
    MergeSame(g, h, n1, n2, x, mi);
    SameParts(g, h);
    MergeParts(g, h, n1, n2, x, mi);
    if InLimits(g, lim) { MergeInLimits(g, h, n1, n2, x, mi, lim); }
    if OutputsNeeded(g) { MergeNeeded(g, h, n1, n2, x, mi); }
    forall k: nat | Below(g, k) ensures Below(h, k) { MergeBelow(g, h, n1, n2, x, mi, k); }
    forall cells: set<nat> | AssignsOnly(g, cells) ensures AssignsOnly(h, cells) { MergeAssigns(g, h, n1, n2, x, mi, cells); }
    if DistinctOutputs(g) { MergeDistinct(g, h, n1, n2, x, mi); }
    MakeKeeps(g, h, lim);
  }

  lemma MergeDistinct(g: Graph, h: Graph, n1: nat, n2: nat, x: nat, mi: Mlmi)
    requires h.nodes == g.nodes - {n1, n2} + {x} && h.mlmi == g.mlmi[x := mi] && DistinctOutputs(g) && NoRepeat(mi.outputs)
    ensures DistinctOutputs(h)
  {
    hide NoRepeat;
  }

  lemma MergeAssigns(g: Graph, h: Graph, n1: nat, n2: nat, x: nat, mi: Mlmi, cells: set<nat>)
    requires n1 in g.nodes && n2 in g.nodes && n1 in g.mlmi && n2 in g.mlmi && MergedNode(g, n1, n2, mi) && h.nodes == g.nodes - {n1, n2} + {x} && h.mlmi == g.mlmi[x := mi] && AssignsOnly(g, cells)
    ensures AssignsOnly(h, cells)
  {
    hide Kept; hide SingleAssign; hide Scheduled;
    assert NodeAssigns(g.mlmi[n1], cells) && NodeAssigns(g.mlmi[n2], cells);
    forall i | 0 <= i < |mi.instrs| ensures mi.instrs[i].dst in cells { assert mi.instrs[i] in mi.instrs; }
    forall n | n in h.nodes && n in h.mlmi ensures NodeAssigns(h.mlmi[n], cells) { }
  }

  lemma MergeBelow(g: Graph, h: Graph, n1: nat, n2: nat, x: nat, mi: Mlmi, k: nat)
    requires NodesOk(g) && NodesOk(h) && n1 in g.nodes && n2 in g.nodes && n1 in g.mlmi && n2 in g.mlmi && MergedNode(g, n1, n2, mi) && Merged(g, h, n1, n2, x, mi) && Below(g, k)
    ensures Below(h, k)
  {
    MergedNodeBelow(g, n1, n2, mi, k);
    hide NodeOk; hide MergedNode; hide Feeds; hide Succ;
    forall n | n in h.nodes ensures NodeBelow(h.mlmi[n], k) { if n != x { assert NodeBelow(g.mlmi[n], k); } }
    forall m: nat | Assigns(mi.instrs, m) ensures m < k { var i :| 0 <= i < |mi.instrs| && mi.instrs[i].dst == m; assert InstrBelow(mi.instrs[i], k); }
  }

  lemma MergedNodeBelow(g: Graph, n1: nat, n2: nat, mi: Mlmi, k: nat)
    requires NodesOk(g) && n1 in g.nodes && n2 in g.nodes && n1 in g.mlmi && n2 in g.mlmi && MergedNode(g, n1, n2, mi) && Below(g, k)
    ensures NodeBelow(mi, k)
  {
    hide NodeOk; hide SingleAssign; hide Scheduled; hide InstrBelow;
    assert NodeBelow(g.mlmi[n1], k) && NodeBelow(g.mlmi[n2], k);
    forall i | 0 <= i < |mi.instrs| ensures InstrBelow(mi.instrs[i], k) { assert mi.instrs[i] in mi.instrs; }
  }

  lemma SameParts(g: Graph, h: Graph)
    requires SameMeaning(g, h)
    ensures NodesOk(g) && NodesOk(h)
  {
    hide NodesOk; hide Models;
  }

  lemma MakeKeeps(g: Graph, h: Graph, lim: Limits)
    requires SameMeaning(g, h) && NodesOk(g) && NodesOk(h) && (InLimits(g, lim) ==> InLimits(h, lim)) && (OutputsNeeded(g) ==> OutputsNeeded(h))
    requires (forall k: nat :: Below(g, k) ==> Below(h, k)) && (forall cells: set<nat> :: AssignsOnly(g, cells) ==> AssignsOnly(h, cells)) && (DistinctOutputs(g) ==> DistinctOutputs(h))
    ensures Keeps(g, h, lim)
  {
    hide InLimits; hide OutputsNeeded; hide Models; hide NodesOk; hide Below; hide DistinctOutputs; hide AssignsOnly;
  }

  lemma FewerNodes(g: Graph, h: Graph, n1: nat, n2: nat, x: nat, mi: Mlmi)
    requires n1 in g.mlmi && n2 in g.mlmi && n1 in g.nodes && n2 in g.nodes && n1 != n2 && Merged(g, h, n1, n2, x, mi)
    ensures |h.nodes| < |g.nodes|
  {
    hide Assigns; hide Feeds; hide Succ;
    var rest := g.nodes - {n1, n2};
    assert g.nodes == rest + {n1, n2};
    assert |g.nodes| == |rest| + 2;
    assert |rest + {x}| <= |rest| + 1;
  }

  /** Merging two nodes for which the checks succeeded. */
  method Merge(dfg: Dataflow, ghost lim: Limits, n1: nat, n2: nat, mls: seq<Instr>) returns (x: nat)
    requires dfg.Valid() && dfg.Two(n1, n2) && Mergeable(dfg.View(), lim, n1, n2, mls)
    modifies dfg
    ensures dfg.Valid() && Keeps(old(dfg.View()), dfg.View(), lim) && |dfg.nodes| < |old(dfg.nodes)|
    ensures OutputsFit(old(dfg.View()), lim, n1, n2) && OutLimits(old(dfg.View()), lim) ==> OutLimits(dfg.View(), lim)
    ensures n1 in old(dfg.mlmi) && n2 in old(dfg.mlmi) && x in dfg.mlmi && MergedNode(old(dfg.View()), n1, n2, dfg.mlmi[x])
  {
    hide *;
    dfg.ViewIs();
    dfg.ValidParts();
    dfg.TwoParts(n1, n2);
    ghost var g := dfg.View();
    MergeableParts(g, lim, n1, n2, mls);
    x := dfg.MergeNodes(n1, n2, Some(mls));
    dfg.ViewIs();
    ghost var h, mi := dfg.View(), dfg.mlmi[x];
    MakeCanMerge(g, n1, n2, x);
    MergeKeeps(g, h, lim, n1, n2, x, mi);
    FewerNodes(g, h, n1, n2, x, mi);
    if OutputsFit(g, lim, n1, n2) && OutLimits(g, lim) {
      FittingOutputs(g, lim, n1, n2, mi);
      MergeOutLimits(g, h, n1, n2, x, mi, lim);
    }
  }

  lemma MergeableParts(g: Graph, lim: Limits, n1: nat, n2: nat, mls: seq<Instr>)
    requires Mergeable(g, lim, n1, n2, mls)
    ensures n1 in g.mlmi && n2 in g.mlmi && IsMerge(g.mlmi[n1], g.mlmi[n2], mls)
    ensures |g.mlmi[n1].instrs| + |g.mlmi[n2].instrs| <= lim.s && |MergedInputs(g.mlmi[n1], g.mlmi[n2])| <= lim.lin
    ensures !LongPath(g.fwd, n1, n2) && !LongPath(g.fwd, n2, n1)
  {
    hide IsMerge; hide LongPath;
  }

  lemma {:induction false} DistinctListSize(r: seq<nat>)
    requires NoRepeat(r)
    ensures |ToSet(r)| == |r|
    decreases |r|
  {
    if r != [] {
      var k := |r| - 1;
      DistinctListSize(r[..k]);
      assert ToSet(r) == ToSet(r[..k]) + {r[k]};
      assert r[k] !in r[..k];
    }
  }

  lemma FittingOutputs(g: Graph, lim: Limits, n1: nat, n2: nat, mi: Mlmi)
    requires OutputsFit(g, lim, n1, n2) && n1 in g.mlmi && n2 in g.mlmi && MergedNode(g, n1, n2, mi) && NoRepeat(mi.outputs)
    ensures |mi.outputs| <= lim.lout
  {
    hide Kept; hide SingleAssign; hide Scheduled; hide NoRepeat;
    var outs: set<nat> :| |outs| <= lim.lout && AllKept(g, n1, n2, outs);
    assert ToSet(mi.outputs) == outs;
    DistinctListSize(mi.outputs);
  }
}
