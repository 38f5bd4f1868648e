/** The merge loops of compiler/src/clusterization/basic_clusterizer.py. Iteration over sets and `pop` are arbitrary
    choices; `simple` and `fast` are the flags `simple_clusterizer` and `fast`. */
module ClusterLoops {
  import opened Options
  import opened IR
  import opened Graphs
  import opened Dfg
  import opened MergedInstrs
  import opened DfgMerge
  import opened DataflowGraph
  import opened Clusterizer

  datatype Choice = Choice(n1: nat, n2: nat, mls: seq<Instr>)

  /** A merge whose checks succeeded. */
  ghost predicate Chosen(dfg: Dataflow, lim: Limits, c: Choice)
    reads dfg
  {
    dfg.Two(c.n1, c.n2) && Mergeable(dfg.View(), lim, c.n1, c.n2, c.mls)
  }

  lemma ChosenParts(dfg: Dataflow, lim: Limits, c: Choice)
    requires Chosen(dfg, lim, c)
    ensures dfg.Two(c.n1, c.n2) && Mergeable(dfg.View(), lim, c.n1, c.n2, c.mls)
  {
    hide Mergeable;
  }

  lemma MakeChosen(dfg: Dataflow, lim: Limits, c: Choice)
    requires dfg.Two(c.n1, c.n2) && Mergeable(dfg.View(), lim, c.n1, c.n2, c.mls)
    ensures Chosen(dfg, lim, c)
  {
    hide Mergeable;
  }

  lemma SuccessorKnown(dfg: Dataflow, n1: nat, n2: nat)
    requires dfg.Valid() && n2 in Succ(dfg.forwardEdges, n1)
    ensures dfg.Two(n1, n2)
  {
    hide NodeOk; hide BackOk; hide AvailableOk;
    EdgeFromNode(dfg.View(), n1, n2);
    NoSelfShare(dfg.View().mlmi[n1]);
  }

  // ----- a node with its only successor -----

  /** Not one successor, or one that would make the merged node too large. */
  ghost predicate Alone(g: Graph, lim: Limits, fits: Fits, n: nat) {
    |Succ(g.fwd, n)| != 1 || forall m :: m in Succ(g.fwd, n) ==> TooLarge(g, lim, fits, n, m)
  }

  lemma NotOne(g: Graph, lim: Limits, fits: Fits, n: nat)
    requires |Succ(g.fwd, n)| != 1
    ensures Alone(g, lim, fits, n)
  {
  }

  lemma OneTooLarge(g: Graph, lim: Limits, fits: Fits, n: nat, m: nat)
    requires Succ(g.fwd, n) == {m} && TooLarge(g, lim, fits, n, m)
    ensures Alone(g, lim, fits, n)
  {
    hide TooLarge;
  }

  /** `should_merge_with_next`: refuses exactly when there is not one successor or the merged node is too large. */
  method ShouldMergeWithNext(dfg: Dataflow, lim: Limits, fits: Fits, node: nat) returns (r: Option<Choice>)
    requires dfg.Valid()
    ensures r.Some? ==> Chosen(dfg, lim, r.value) && r.value.n1 == node && Succ(dfg.forwardEdges, node) == {r.value.n2}
    ensures r.None? ==> Alone(dfg.View(), lim, fits, node)
  {
    hide *;
    dfg.ViewIs();
    if |Succ(dfg.forwardEdges, node)| != 1 {
      NotOne(dfg.View(), lim, fits, node);
      return None;
    }
    var next :| next in Succ(dfg.forwardEdges, node);
    Singleton(Succ(dfg.forwardEdges, node), next);
    SuccessorKnown(dfg, node, next);
    dfg.ValidParts();
    dfg.ViewIs();
    dfg.TwoParts(node, next);
    ghost var g := dfg.View();
    var a, b := dfg.mlmi[node], dfg.mlmi[next];
    var inputs := MergedInputs(a, b);
    if |inputs| > lim.lin || |a.instrs| + |b.instrs| > lim.s {
      WhyTooLarge(g, lim, fits, node, next, [], [], []);
      OneTooLarge(g, lim, fits, node, next);
      return None;
    }
    ghost var base := SomeOrder(g, node, next);
    var mls := ComputeMergedInstrs(a.instrs + b.instrs, inputs, base);
    MakeMerge(a, b, mls);
    var kept1 := dfg.KeptOutputs(node, next);
    var kept2 := dfg.KeptOutputs(next, node);
    var inputList := ListOf(inputs);
    KeptSetIs(g, node, next, kept1 + kept2);
    var outputList := ListOf(kept1 + kept2);
    if !fits(mls, inputList, outputList) {
      MakeRefused(g, fits, node, next, mls, inputList, outputList, inputs, kept1 + kept2);
      WhyTooLarge(g, lim, fits, node, next, mls, inputList, outputList);
      OneTooLarge(g, lim, fits, node, next);
      return None;
    }
    SoleSuccessor(dfg.forwardEdges, node, next);
    MakeMergeable(g, lim, node, next, mls);
    MakeChosen(dfg, lim, Choice(node, next, mls));
    return Some(Choice(node, next, mls));
  }

  lemma Singleton(s: set<nat>, x: nat)
    requires |s| == 1 && x in s
    ensures s == {x}
  {
    assert s == {x} + (s - {x});
  }

  /** `prev_nodes` */
  method PrevNodes(dfg: Dataflow, n: nat) returns (prevs: set<nat>)
    requires n in dfg.mlmi
    ensures forall a :: a in prevs <==> exists m :: m in dfg.mlmi[n].inputs && m in dfg.backwardEdges && dfg.backwardEdges[m] == a
  {
    prevs := {};
    var inputs := dfg.mlmi[n].inputs;
    for i := 0 to |inputs|
      invariant forall a :: a in prevs <==> exists k :: 0 <= k < i && inputs[k] in dfg.backwardEdges && dfg.backwardEdges[inputs[k]] == a
    {
      if inputs[i] in dfg.backwardEdges { prevs := prevs + {dfg.backwardEdges[inputs[i]]}; }
    }
    forall a ensures a in prevs <==> exists m :: m in inputs && m in dfg.backwardEdges && dfg.backwardEdges[m] == a {
      if a in prevs {
        var k :| 0 <= k < |inputs| && inputs[k] in dfg.backwardEdges && dfg.backwardEdges[inputs[k]] == a;
        assert inputs[k] in inputs;
      }
      if m :| m in inputs && m in dfg.backwardEdges && dfg.backwardEdges[m] == a {
        var k :| 0 <= k < |inputs| && inputs[k] == m;
      }
    }
  }

  /** The search for a node to merge, in any order. */
  method FindOneOutput(dfg: Dataflow, lim: Limits, fits: Fits) returns (r: Option<Choice>)
    requires dfg.Valid()
    ensures r.Some? ==> Chosen(dfg, lim, r.value) && Succ(dfg.forwardEdges, r.value.n1) == {r.value.n2}
    ensures r.None? ==> forall n :: n in dfg.nodes ==> Alone(dfg.View(), lim, fits, n)
  {
    hide *;
    var rest := dfg.nodes;
    r := None;
    while rest != {} && r.None?
      invariant r.Some? ==> Chosen(dfg, lim, r.value) && Succ(dfg.forwardEdges, r.value.n1) == {r.value.n2}
      invariant r.None? ==> forall n :: n in dfg.nodes && n !in rest ==> Alone(dfg.View(), lim, fits, n)
      decreases rest
    {
      var node :| node in rest;
      rest := rest - {node};
      r := ShouldMergeWithNext(dfg, lim, fits, node);
    }
  }

  ghost predicate AllAlone(g: Graph, lim: Limits, fits: Fits) {
    forall n :: n in g.nodes ==> Alone(g, lim, fits, n)
  }

  lemma MakeAllAlone(g: Graph, lim: Limits, fits: Fits)
    requires forall n :: n in g.nodes ==> Alone(g, lim, fits, n)
    ensures AllAlone(g, lim, fits)
  {
    hide Alone;
  }

  /** A loop that looked for merges made one, or left the graph as it was since there was none. */
  ghost predicate Progress(g: Graph, h: Graph, none: bool) {
    |h.nodes| < |g.nodes| || (h == g && none)
  }

  /** `merge_1_output_nodes`: both of its loops end, and keep the graph valid, within `l_in` and `s`, and of the same meaning;
      both make a merge when there is one, and the second ends only when no node is left to merge. */
  method MergeOneOutputNodes(dfg: Dataflow, lim: Limits, fits: Fits, simple: bool)
    requires dfg.Valid()
    modifies dfg
    ensures dfg.Valid() && Keeps(old(dfg.View()), dfg.View(), lim)
    ensures Progress(old(dfg.View()), dfg.View(), AllAlone(old(dfg.View()), lim, fits)) && (!simple ==> AllAlone(dfg.View(), lim, fits))
  {
    hide *;
    ghost var g := dfg.View();
    dfg.ViewIs();
    StartKeeping(dfg, lim);
    if simple {
      var toVisit := dfg.nodes;
      while toVisit != {}
        invariant dfg.Valid() && Keeps(g, dfg.View(), lim)
        invariant |dfg.nodes| < |g.nodes| || (dfg.View() == g && forall n :: n in g.nodes && n !in toVisit ==> Alone(g, lim, fits, n))
        decreases |dfg.nodes|, toVisit
      {
        var candidate :| candidate in toVisit;
        toVisit := toVisit - {candidate};
        var r := ShouldMergeWithNext(dfg, lim, fits, candidate);
        if r.None? { continue; }
        ghost var h := dfg.View();
        dfg.ViewIs();
        ChosenParts(dfg, lim, r.value);
        var x := Merge(dfg, lim, r.value.n1, r.value.n2, r.value.mls);
        KeepsTrans(g, h, dfg.View(), lim);
        var prevs := PrevNodes(dfg, x);
        toVisit := toVisit + Succ(dfg.forwardEdges, x) + prevs + {x};
      }
      dfg.ViewIs();
      if dfg.View() == g && !(|dfg.nodes| < |g.nodes|) { MakeAllAlone(g, lim, fits); }
    } else {
      var more := true;
      while more
        invariant dfg.Valid() && Keeps(g, dfg.View(), lim) && (|dfg.nodes| < |g.nodes| || dfg.View() == g) && (more || forall n :: n in dfg.nodes ==> Alone(dfg.View(), lim, fits, n))
        decreases |dfg.nodes|, more
      {
        dfg.ViewIs();
        var r := FindOneOutput(dfg, lim, fits);
        if r.Some? {
          ghost var h := dfg.View();
          ChosenParts(dfg, lim, r.value);
          var x := Merge(dfg, lim, r.value.n1, r.value.n2, r.value.mls);
          KeepsTrans(g, h, dfg.View(), lim);
        } else {
          more := false;
        }
      }
      dfg.ViewIs();
      MakeAllAlone(dfg.View(), lim, fits);
    }
    dfg.ViewIs();
    MakeProgress(g, dfg.View(), AllAlone(g, lim, fits));
  }

  lemma MakeProgress(g: Graph, h: Graph, none: bool)
    requires |h.nodes| < |g.nodes| || (h == g && none)
    ensures Progress(g, h, none)
  {
  }

  lemma StartKeeping(dfg: Dataflow, lim: Limits)
    requires dfg.Valid()
    ensures Keeps(dfg.View(), dfg.View(), lim)
  {
    hide Integral; hide Acyclic; hide Keeps;
    IntegralParts(dfg.View());
    KeepsSelf(dfg.View(), lim);
  }

  // ----- parents with children -----

  /** A chosen merge whose outputs fit. */
  ghost predicate Scored(dfg: Dataflow, lim: Limits, c: Choice)
    reads dfg
  {
    Chosen(dfg, lim, c) && OutputsFit(dfg.View(), lim, c.n1, c.n2)
  }

  lemma MakeScored(dfg: Dataflow, lim: Limits, c: Choice)
    requires dfg.Two(c.n1, c.n2) && Mergeable(dfg.View(), lim, c.n1, c.n2, c.mls) && OutputsFit(dfg.View(), lim, c.n1, c.n2)
    ensures Scored(dfg, lim, c)
  {
    hide Mergeable; hide OutputsFit;
  }

  lemma ScoredParts(dfg: Dataflow, lim: Limits, c: Choice)
    requires Scored(dfg, lim, c)
    ensures dfg.Two(c.n1, c.n2) && Mergeable(dfg.View(), lim, c.n1, c.n2, c.mls) && OutputsFit(dfg.View(), lim, c.n1, c.n2)
  {
    hide Mergeable; hide OutputsFit;
  }

  ghost function Gain(g: Graph, n1: nat, n2: nat): int {
    if n1 in g.mlmi && n2 in g.mlmi then Saved(g, n1, n2) else -1
  }

  lemma GainIs(dfg: Dataflow, n1: nat, n2: nat)
    requires dfg.Two(n1, n2)
    ensures n1 in dfg.View().mlmi && n2 in dfg.View().mlmi && Gain(dfg.View(), n1, n2) == Saved(dfg.View(), n1, n2)
  {
    hide Saved;
  }

  /** No successor whose merge is valid would save more. */
  ghost predicate BestOf(g: Graph, lim: Limits, fits: Fits, n1: nat, best: nat) {
    best in Succ(g.fwd, n1) && forall n2 :: n2 in Succ(g.fwd, n1) ==> Invalid(g, lim, fits, n1, n2) || Gain(g, n1, n2) <= Gain(g, n1, best)
  }

  lemma MakeBest(g: Graph, lim: Limits, fits: Fits, n1: nat, best: nat, score: int)
    requires best in Succ(g.fwd, n1) && score == Gain(g, n1, best) && forall n2 :: n2 in Succ(g.fwd, n1) ==> Invalid(g, lim, fits, n1, n2) || Gain(g, n1, n2) <= score
    ensures BestOf(g, lim, fits, n1, best)
  {
    hide Invalid; hide Gain;
  }

  /** The best-scored successor of a node, if any is valid. */
  method BestChild(dfg: Dataflow, lim: Limits, fits: Fits, n1: nat) returns (best: Option<Choice>)
    requires dfg.Valid()
    ensures best.Some? ==> Scored(dfg, lim, best.value) && BestOf(dfg.View(), lim, fits, n1, best.value.n2)
    ensures best.None? ==> forall n2 :: n2 in Succ(dfg.forwardEdges, n1) ==> Invalid(dfg.View(), lim, fits, n1, n2)
  {
    hide *;
    dfg.ViewIs();
    best := None;
    var bestScore := -1;
    var rest := Succ(dfg.forwardEdges, n1);
    while rest != {}
      invariant rest <= Succ(dfg.forwardEdges, n1) && bestScore >= -1 && (best.None? <==> bestScore == -1)
      invariant best.Some? ==> Scored(dfg, lim, best.value) && best.value.n2 in Succ(dfg.forwardEdges, n1) && bestScore == Gain(dfg.View(), n1, best.value.n2)
      invariant forall n2 :: n2 in Succ(dfg.forwardEdges, n1) && n2 !in rest ==> Invalid(dfg.View(), lim, fits, n1, n2) || (best.Some? && Gain(dfg.View(), n1, n2) <= bestScore)
      decreases rest
    {
      var n2 :| n2 in rest;
      rest := rest - {n2};
      SuccessorKnown(dfg, n1, n2);
      var score, mls := MergeScore(dfg, lim, fits, n1, n2);
      GainIs(dfg, n1, n2);
      if score > bestScore {
        MakeScored(dfg, lim, Choice(n1, n2, mls));
        best := Some(Choice(n1, n2, mls));
        bestScore := score;
      }
    }
    if best.Some? { MakeBest(dfg.View(), lim, fits, n1, best.value.n2, bestScore); }
  }

  /** What a merge scored by `merge_score` keeps: also the limit on outputs. */
  ghost predicate KeepsAll(g: Graph, h: Graph, lim: Limits) {
    Keeps(g, h, lim) && (OutLimits(g, lim) ==> OutLimits(h, lim))
  }

  lemma KeepsAllTrans(g: Graph, h: Graph, k: Graph, lim: Limits)
    requires KeepsAll(g, h, lim) && KeepsAll(h, k, lim)
    ensures KeepsAll(g, k, lim)
  {
    hide Keeps; hide OutLimits;
    KeepsTrans(g, h, k, lim);
  }

  lemma StartKeepingAll(dfg: Dataflow, lim: Limits)
    requires dfg.Valid()
    ensures KeepsAll(dfg.View(), dfg.View(), lim)
  {
    hide Keeps; hide OutLimits; hide Dataflow.Valid;
    StartKeeping(dfg, lim);
  }

  method MergeScored(dfg: Dataflow, ghost lim: Limits, c: Choice) returns (x: nat)
    requires dfg.Valid() && Scored(dfg, lim, c)
    modifies dfg
    ensures dfg.Valid() && KeepsAll(old(dfg.View()), dfg.View(), lim) && |dfg.nodes| < |old(dfg.nodes)| && x in dfg.mlmi
  {
    hide *;
    ghost var g := dfg.View();
    ScoredParts(dfg, lim, c);
    x := Merge(dfg, lim, c.n1, c.n2, c.mls);
    MakeKeepsAll(g, dfg.View(), lim);
  }

  lemma MakeKeepsAll(g: Graph, h: Graph, lim: Limits)
    requires Keeps(g, h, lim) && (OutLimits(g, lim) ==> OutLimits(h, lim))
    ensures KeepsAll(g, h, lim)
  {
    hide Keeps; hide OutLimits;
  }

  /** No merge with a successor is valid. */
  ghost predicate Childless(g: Graph, lim: Limits, fits: Fits, n1: nat) {
    forall n2 :: n2 in Succ(g.fwd, n1) ==> Invalid(g, lim, fits, n1, n2)
  }

  lemma MakeChildless(g: Graph, lim: Limits, fits: Fits, n1: nat)
    requires forall n2 :: n2 in Succ(g.fwd, n1) ==> Invalid(g, lim, fits, n1, n2)
    ensures Childless(g, lim, fits, n1)
  {
    hide Invalid;
  }

  /** The search for a parent to merge; with `fast`, parents without a valid child are skipped from then on. */
  method FindParent(dfg: Dataflow, lim: Limits, fits: Fits, fast: bool, toSkip0: set<nat>) returns (r: Option<Choice>, toSkip: set<nat>)
    requires dfg.Valid()
    ensures r.Some? ==> Scored(dfg, lim, r.value)
    ensures r.None? ==> forall n :: n in dfg.nodes && !(fast && n in toSkip0) ==> Childless(dfg.View(), lim, fits, n)
  {
    hide *;
    toSkip := toSkip0;
    var rest := dfg.nodes;
    r := None;
    while rest != {} && r.None?
      invariant r.Some? ==> Scored(dfg, lim, r.value)
      invariant r.None? ==> forall n :: n in dfg.nodes && n !in rest && !(fast && n in toSkip0) ==> Childless(dfg.View(), lim, fits, n)
      invariant r.None? && fast ==> forall n :: n in toSkip && n !in toSkip0 ==> Childless(dfg.View(), lim, fits, n)
      decreases rest
    {
      var n1 :| n1 in rest;
      rest := rest - {n1};
      if fast && n1 in toSkip { continue; }
      r := BestChild(dfg, lim, fits, n1);
      dfg.ViewIs();
      if r.None? { MakeChildless(dfg.View(), lim, fits, n1); }
      if r.None? && fast { toSkip := toSkip + {n1}; }
    }
  }

  ghost predicate AllChildless(g: Graph, lim: Limits, fits: Fits) {
    forall n :: n in g.nodes ==> Childless(g, lim, fits, n)
  }

  lemma MakeAllChildless(g: Graph, lim: Limits, fits: Fits)
    requires forall n :: n in g.nodes ==> Childless(g, lim, fits, n)
    ensures AllChildless(g, lim, fits)
  {
    hide Childless;
  }

  /** `merge_parents_childs`: both of its loops end, and keep the graph valid, within all limits, and of the same meaning;
      both make a merge when a valid one is there, and the second, when it skips nothing, ends only when none is left. */
  method MergeParentsChilds(dfg: Dataflow, lim: Limits, fits: Fits, simple: bool, fast: bool)
    requires dfg.Valid()
    modifies dfg
    ensures dfg.Valid() && KeepsAll(old(dfg.View()), dfg.View(), lim)
    ensures Progress(old(dfg.View()), dfg.View(), AllChildless(old(dfg.View()), lim, fits)) && (!simple && !fast ==> AllChildless(dfg.View(), lim, fits))
  {
    hide *;
    ghost var g := dfg.View();
    dfg.ViewIs();
    StartKeepingAll(dfg, lim);
    if simple {
      var toVisit := dfg.nodes;
      while toVisit != {}
        invariant dfg.Valid() && KeepsAll(g, dfg.View(), lim)
        invariant |dfg.nodes| < |g.nodes| || (dfg.View() == g && forall n :: n in g.nodes && n !in toVisit ==> Childless(g, lim, fits, n))
        decreases |dfg.nodes|, toVisit
      {
        var n1 :| n1 in toVisit;
        toVisit := toVisit - {n1};
        var best := BestChild(dfg, lim, fits, n1);
        dfg.ViewIs();
        if best.None? {
          MakeChildless(dfg.View(), lim, fits, n1);
          continue;
        }
        ghost var h := dfg.View();
        var x := MergeScored(dfg, lim, best.value);
        KeepsAllTrans(g, h, dfg.View(), lim);
        if !fast {
          var prevs := PrevNodes(dfg, x);
          toVisit := toVisit + Succ(dfg.forwardEdges, x) + prevs + {x};
        }
      }
      dfg.ViewIs();
      if dfg.View() == g && !(|dfg.nodes| < |g.nodes|) { MakeAllChildless(g, lim, fits); }
    } else {
      var toSkip: set<nat> := {};
      var more := true;
      while more
        invariant dfg.Valid() && KeepsAll(g, dfg.View(), lim) && (more || fast || forall n :: n in dfg.nodes ==> Childless(dfg.View(), lim, fits, n))
        invariant |dfg.nodes| < |g.nodes| || (dfg.View() == g && (if more then toSkip == {} else AllChildless(g, lim, fits)))
        decreases |dfg.nodes|, more
      {
        var r;
        dfg.ViewIs();
        ghost var skipped := toSkip;
        r, toSkip := FindParent(dfg, lim, fits, fast, toSkip);
        if r.Some? {
          ghost var h := dfg.View();
          var x := MergeScored(dfg, lim, r.value);
          KeepsAllTrans(g, h, dfg.View(), lim);
        } else {
          more := false;
          if skipped == {} { MakeAllChildless(dfg.View(), lim, fits); }
        }
      }
      dfg.ViewIs();
      if !fast { MakeAllChildless(dfg.View(), lim, fits); }
    }
    dfg.ViewIs();
    MakeProgress(g, dfg.View(), AllChildless(g, lim, fits));
  }

  // ----- siblings -----

  lemma SiblingsKnown(dfg: Dataflow, parent: nat, a: nat, b: nat)
    requires dfg.Valid() && a in Succ(dfg.forwardEdges, parent) && b in Succ(dfg.forwardEdges, parent) && a != b
    ensures dfg.Two(a, b)
  {
    hide *;
    SuccessorKnown(dfg, parent, a);
    SuccessorKnown(dfg, parent, b);
    dfg.TwoParts(parent, a);
    dfg.TwoParts(parent, b);
    dfg.MakeTwo(a, b);
  }

  /** Merging the two is not valid or saves nothing. */
  ghost predicate Useless(g: Graph, lim: Limits, fits: Fits, n1: nat, n2: nat) {
    Invalid(g, lim, fits, n1, n2) || Gain(g, n1, n2) <= 0
  }

  lemma MakeUseless(g: Graph, lim: Limits, fits: Fits, n1: nat, n2: nat)
    requires Invalid(g, lim, fits, n1, n2) || Gain(g, n1, n2) <= 0
    ensures Useless(g, lim, fits, n1, n2)
  {
    hide Invalid; hide Gain;
  }

  /** No two children of the node are worth merging; `merge_score` is asked for one of the two orders. */
  ghost predicate NoSiblings(g: Graph, lim: Limits, fits: Fits, parent: nat) {
    forall a, b :: a in Succ(g.fwd, parent) && b in Succ(g.fwd, parent) && a != b ==> Useless(g, lim, fits, a, b) || Useless(g, lim, fits, b, a)
  }

  lemma MakeNoSiblings(g: Graph, lim: Limits, fits: Fits, parent: nat, childs: seq<nat>)
    requires forall m :: m in childs <==> m in Succ(g.fwd, parent)
    requires forall j1, j2 :: 0 <= j1 < j2 < |childs| ==> Useless(g, lim, fits, childs[j1], childs[j2])
    ensures NoSiblings(g, lim, fits, parent)
  {
    hide Useless; hide Succ;
    forall a, b | a in Succ(g.fwd, parent) && b in Succ(g.fwd, parent) && a != b ensures Useless(g, lim, fits, a, b) || Useless(g, lim, fits, b, a) {
      assert a in childs && b in childs;
      var i :| 0 <= i < |childs| && childs[i] == a;
      var j :| 0 <= j < |childs| && childs[j] == b;
      assert i < j || j < i;
    }
  }

  /** The best-scored pair of children of a node, when it saves something. */
  method BestPair(dfg: Dataflow, lim: Limits, fits: Fits, parent: nat) returns (best: Option<Choice>)
    requires dfg.Valid()
    ensures best.Some? ==> Scored(dfg, lim, best.value) && Gain(dfg.View(), best.value.n1, best.value.n2) > 0
    ensures best.None? ==> NoSiblings(dfg.View(), lim, fits, parent)
  {
    hide *;
    dfg.ViewIs();
    best := None;
    var bestScore := 0;
    var childs := ListOf(Succ(dfg.forwardEdges, parent));
    DistinctIs(childs);
    for i1 := 0 to |childs|
      invariant best.Some? ==> Scored(dfg, lim, best.value) && Gain(dfg.View(), best.value.n1, best.value.n2) > 0
      invariant bestScore >= 0 && (best.None? ==> bestScore == 0 && forall j1, j2 :: 0 <= j1 < i1 && j1 < j2 < |childs| ==> Useless(dfg.View(), lim, fits, childs[j1], childs[j2]))
    {
      for i2 := i1 + 1 to |childs|
        invariant best.Some? ==> Scored(dfg, lim, best.value) && Gain(dfg.View(), best.value.n1, best.value.n2) > 0
        invariant bestScore >= 0 && (best.None? ==> bestScore == 0 && forall j1, j2 :: 0 <= j1 < i1 && j1 < j2 < |childs| ==> Useless(dfg.View(), lim, fits, childs[j1], childs[j2]))
        invariant best.None? ==> forall j2 :: i1 < j2 < i2 ==> Useless(dfg.View(), lim, fits, childs[i1], childs[j2])
      {
        SiblingsKnown(dfg, parent, childs[i1], childs[i2]);
        var score, mls := MergeScore(dfg, lim, fits, childs[i1], childs[i2]);
        GainIs(dfg, childs[i1], childs[i2]);
        if score <= 0 { MakeUseless(dfg.View(), lim, fits, childs[i1], childs[i2]); }
        if score > bestScore && score >= 0 {
          MakeScored(dfg, lim, Choice(childs[i1], childs[i2], mls));
          best := Some(Choice(childs[i1], childs[i2], mls));
          bestScore := score;
        }
      }
    }
    if best.None? { MakeNoSiblings(dfg.View(), lim, fits, parent, childs); }
  }

  lemma DistinctIs(r: seq<nat>)
    requires NoRepeat(r)
    ensures forall i, j :: 0 <= i < j < |r| ==> r[i] != r[j]
  {
  }

  ghost predicate AllApart(g: Graph, lim: Limits, fits: Fits) {
    forall n :: n in g.nodes ==> NoSiblings(g, lim, fits, n)
  }

  lemma MakeAllApart(g: Graph, lim: Limits, fits: Fits)
    requires forall n :: n in g.nodes ==> NoSiblings(g, lim, fits, n)
    ensures AllApart(g, lim, fits)
  {
    hide NoSiblings;
  }

  /** `merge_siblings`: its loop ends, and keeps the graph valid, within all limits, and of the same meaning; it makes a merge
      when two siblings are worth it, and when it skips nothing, it ends only when no two are. */
  method MergeSiblings(dfg: Dataflow, lim: Limits, fits: Fits, fast: bool)
    requires dfg.Valid()
    modifies dfg
    ensures dfg.Valid() && KeepsAll(old(dfg.View()), dfg.View(), lim)
    ensures Progress(old(dfg.View()), dfg.View(), AllApart(old(dfg.View()), lim, fits)) && (!fast ==> AllApart(dfg.View(), lim, fits))
  {
    hide *;
    ghost var g := dfg.View();
    dfg.ViewIs();
    StartKeepingAll(dfg, lim);
    var toSkip: set<nat> := {};
    var merged := true;
    while merged
      invariant dfg.Valid() && KeepsAll(g, dfg.View(), lim) && (merged || fast || forall n :: n in dfg.nodes ==> NoSiblings(dfg.View(), lim, fits, n))
      invariant |dfg.nodes| < |g.nodes| || (dfg.View() == g && (if merged then toSkip == {} else AllApart(g, lim, fits)))
      decreases |dfg.nodes|, merged
    {
      merged := false;
      var rest := dfg.nodes;
      ghost var h0, skipped := dfg.View(), toSkip;
      dfg.ViewIs();
      while rest != {} && !merged
        invariant dfg.Valid() && KeepsAll(g, dfg.View(), lim)
        invariant if merged then |dfg.nodes| < |h0.nodes| else dfg.View() == h0 && dfg.nodes == h0.nodes
        invariant merged || fast || forall n :: n in dfg.nodes && n !in rest ==> NoSiblings(dfg.View(), lim, fits, n)
        invariant !merged ==> rest <= dfg.nodes && (forall n :: n in toSkip && n !in skipped ==> n !in rest) && forall n :: n in h0.nodes && n !in rest && n !in skipped ==> NoSiblings(h0, lim, fits, n)
        decreases rest
      {
        var parent :| parent in rest;
        rest := rest - {parent};
        if fast && parent in toSkip { continue; }
        var best := BestPair(dfg, lim, fits, parent);
        dfg.ViewIs();
        if best.Some? {
          ghost var h := dfg.View();
          var x := MergeScored(dfg, lim, best.value);
          KeepsAllTrans(g, h, dfg.View(), lim);
          merged := true;
        } else if fast {
          toSkip := toSkip + {parent};
        }
      }
      dfg.ViewIs();
      if !merged && skipped == {} { MakeAllApart(h0, lim, fits); }
    }
    dfg.ViewIs();
    if !fast { MakeAllApart(dfg.View(), lim, fits); }
    MakeProgress(g, dfg.View(), AllApart(g, lim, fits));
  }

  /** What the three loops did: each made a merge when there was one of its kind, and those that skip nothing left none. */
  ghost predicate Stages(g: Graph, one: Graph, parents: Graph, h: Graph, lim: Limits, fits: Fits, simple: bool, fast: bool) {
    && Progress(g, one, AllAlone(g, lim, fits)) && (!simple ==> AllAlone(one, lim, fits))
    && Progress(one, parents, AllChildless(one, lim, fits)) && (!simple && !fast ==> AllChildless(parents, lim, fits))
    && Progress(parents, h, AllApart(parents, lim, fits)) && (!fast ==> AllApart(h, lim, fits))
  }

  /** No loop finds anything to merge. */
  ghost predicate Unmergeable(g: Graph, lim: Limits, fits: Fits) {
    AllAlone(g, lim, fits) && AllChildless(g, lim, fits) && AllApart(g, lim, fits)
  }

  lemma StagesProgress(g: Graph, one: Graph, parents: Graph, h: Graph, lim: Limits, fits: Fits, simple: bool, fast: bool)
    requires Stages(g, one, parents, h, lim, fits, simple, fast)
    ensures Progress(g, h, Unmergeable(g, lim, fits))
  {
    hide AllAlone; hide AllChildless; hide AllApart;
  }

  lemma MakeStages(g: Graph, one: Graph, parents: Graph, h: Graph, lim: Limits, fits: Fits, simple: bool, fast: bool)
    requires Progress(g, one, AllAlone(g, lim, fits)) && (!simple ==> AllAlone(one, lim, fits))
    requires Progress(one, parents, AllChildless(one, lim, fits)) && (!simple && !fast ==> AllChildless(parents, lim, fits))
    requires Progress(parents, h, AllApart(parents, lim, fits)) && (!fast ==> AllApart(h, lim, fits))
    ensures Stages(g, one, parents, h, lim, fits, simple, fast)
  {
    hide AllAlone; hide AllChildless; hide AllApart; hide Progress;
  }

  /** `clusterize`: the three loops one after the other; the graph has fewer nodes afterwards, unless no loop finds anything to
      merge in it. */
  method Clusterize(dfg: Dataflow, lim: Limits, fits: Fits, simple: bool, fast: bool) returns (ghost one: Graph, ghost parents: Graph)
    requires dfg.Valid()
    modifies dfg
    ensures dfg.Valid() && Keeps(old(dfg.View()), dfg.View(), lim)
    ensures Stages(old(dfg.View()), one, parents, dfg.View(), lim, fits, simple, fast) && Progress(old(dfg.View()), dfg.View(), Unmergeable(old(dfg.View()), lim, fits))
    ensures !fast ==> AllApart(dfg.View(), lim, fits)
  {
    hide *;
    ghost var g := dfg.View();
    MergeOneOutputNodes(dfg, lim, fits, simple);
    one := dfg.View();
    MergeParentsChilds(dfg, lim, fits, simple, fast);
    parents := dfg.View();
    KeepsAllParts(one, parents, lim);
    KeepsTrans(g, one, parents, lim);
    MergeSiblings(dfg, lim, fits, fast);
    KeepsAllParts(parents, dfg.View(), lim);
    KeepsTrans(g, parents, dfg.View(), lim);
    MakeStages(g, one, parents, dfg.View(), lim, fits, simple, fast);
    StagesProgress(g, one, parents, dfg.View(), lim, fits, simple, fast);
  }

  lemma KeepsAllParts(g: Graph, h: Graph, lim: Limits)
    requires KeepsAll(g, h, lim)
    ensures Keeps(g, h, lim)
  {
    hide Keeps; hide OutLimits;
  }
}
