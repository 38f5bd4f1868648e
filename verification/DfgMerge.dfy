/** `merge_nodes` of compiler/src/DFG.py: what the merged node consists of, and why the graph stays integral,
    acyclic and of the same meaning. */
module DfgMerge {
  import opened IR
  import opened Graphs
  import opened Dfg
  import opened DfgSchedule

  // ----- the merged node -----

  /** `compute_merged_inputs`, as a set. */
  function MergedInputs(a: Mlmi, b: Mlmi): (r: set<nat>)
    ensures forall m :: m in r <==> (m in a.inputs || m in b.inputs) && m !in a.outputs && m !in b.outputs
  {
    (ToSet(a.inputs) + ToSet(b.inputs)) - (ToSet(a.outputs) + ToSet(b.outputs))
  }

  /** An output of `first` that stays an output: `second` does not read it, or something else needs it. */
  ghost predicate Kept(g: Graph, first: nat, second: nat, o: nat)
    requires first in g.mlmi && second in g.mlmi
  {
    && o in g.mlmi[first].outputs
    && (o !in g.mlmi[second].inputs || o in g.progOutputs
        || exists y :: y in Succ(g.fwd, first) && y != second && y in g.mlmi && o in g.mlmi[y].inputs)
  }

  ghost predicate MergedNode(g: Graph, n1: nat, n2: nat, mi: Mlmi)
    requires n1 in g.mlmi && n2 in g.mlmi
  {
    var a, b := g.mlmi[n1], g.mlmi[n2];
    && (forall m :: m in mi.inputs <==> m in MergedInputs(a, b))
    && (forall o :: o in mi.outputs <==> Kept(g, n1, n2, o) || Kept(g, n2, n1, o))
    && (forall i :: i in mi.instrs <==> i in a.instrs || i in b.instrs)
    && SingleAssign(mi.instrs) && Scheduled(mi.instrs, MergedInputs(a, b)) && |mi.instrs| == |a.instrs| + |b.instrs|
  }

  lemma AssignsIs(s: seq<Instr>, m: nat)
    ensures Assigns(s, m) <==> exists i :: i in s && i.dst == m
  {
    if i :| i in s && i.dst == m {
      var k :| 0 <= k < |s| && s[k] == i;
    }
  }

  lemma ReadsIs(s: seq<Instr>, m: nat)
    ensures ReadsFrom(s, m) <==> exists i :: i in s && i.Reads(m)
  {
    if i :| i in s && i.Reads(m) {
      var k :| 0 <= k < |s| && s[k] == i;
    }
  }

  lemma UnionUses(a: seq<Instr>, b: seq<Instr>, c: seq<Instr>, m: nat)
    requires forall i :: i in c <==> i in a || i in b
    ensures Assigns(c, m) <==> Assigns(a, m) || Assigns(b, m)
    ensures ReadsFrom(c, m) <==> ReadsFrom(a, m) || ReadsFrom(b, m)
  {
    hide Assigns; hide ReadsFrom; hide Instr.Reads;
    AssignsIs(a, m); AssignsIs(b, m); AssignsIs(c, m);
    ReadsIs(a, m); ReadsIs(b, m); ReadsIs(c, m);
  }

  /** A cell that one node reads and the other assigns is an output of the other. */
  lemma ReadIsOutput(g: Graph, n1: nat, n2: nat, m: nat)
    requires Integral(g) && n1 in g.nodes && n2 in g.nodes && m in g.mlmi[n1].inputs && Assigns(g.mlmi[n2].instrs, m)
    ensures m in g.mlmi[n2].outputs
  {
    hide NodeOk; hide FwdOk;
    assert Available(g, m);
    assert g.back[m] == n2;
  }

  /** The merged inputs are exactly what the merged instructions use. */
  lemma MergedInputsUsed(g: Graph, n1: nat, n2: nat, c: seq<Instr>, m: nat)
    requires Integral(g) && Exact(g) && n1 in g.nodes && n2 in g.nodes
    requires forall i :: i in c <==> i in g.mlmi[n1].instrs || i in g.mlmi[n2].instrs
    ensures m in MergedInputs(g.mlmi[n1], g.mlmi[n2]) <==> Uses(c, m)
  {
    var a, b := g.mlmi[n1], g.mlmi[n2];
    UnionUses(a.instrs, b.instrs, c, m);
    NodeUses(g, n1, m);
    NodeUses(g, n2, m);
    if m in a.inputs && Assigns(b.instrs, m) { ReadIsOutput(g, n1, n2, m); }
    if m in b.inputs && Assigns(a.instrs, m) { ReadIsOutput(g, n2, n1, m); }
    hide Integral; hide Assigns; hide ReadsFrom; hide NodeOk;
  }

  lemma NodeUses(g: Graph, n: nat, m: nat)
    requires NodesOk(g) && n in g.nodes
    ensures m in g.mlmi[n].inputs ==> !Assigns(g.mlmi[n].instrs, m)
    ensures Uses(g.mlmi[n].instrs, m) ==> m in g.mlmi[n].inputs
    ensures m in g.mlmi[n].outputs ==> Assigns(g.mlmi[n].instrs, m)
    ensures !(m in g.mlmi[n].outputs && m in g.mlmi[n].inputs)
  {
    hide Assigns; hide SingleAssign;
    assert NodeOk(g.mlmi[n]);
    var instrs := g.mlmi[n].instrs;
    if Uses(instrs, m) {
      var i :| 0 <= i < |instrs| && instrs[i].Reads(m);
      if Assigns(instrs[..i], m) { AssignsPrefix(instrs, i, m); }
    }
  }

  lemma AssignsPrefix(instrs: seq<Instr>, i: nat, m: nat)
    requires i <= |instrs| && Assigns(instrs[..i], m)
    ensures Assigns(instrs, m)
  {
    var j :| 0 <= j < i && instrs[..i][j].dst == m;
    assert instrs[j].dst == m;
  }

  /** A merged input is assigned by neither node. */
  lemma MergedInputUnassigned(g: Graph, n1: nat, n2: nat, c: seq<Instr>, m: nat)
    requires Integral(g) && n1 in g.nodes && n2 in g.nodes && m in MergedInputs(g.mlmi[n1], g.mlmi[n2])
    requires forall i :: i in c <==> i in g.mlmi[n1].instrs || i in g.mlmi[n2].instrs
    ensures !Assigns(c, m)
  {
    var a, b := g.mlmi[n1], g.mlmi[n2];
    UnionUses(a.instrs, b.instrs, c, m);
    NodeUses(g, n1, m);
    NodeUses(g, n2, m);
    if m in a.inputs && Assigns(b.instrs, m) { ReadIsOutput(g, n1, n2, m); }
    if m in b.inputs && Assigns(a.instrs, m) { ReadIsOutput(g, n2, n1, m); }
    hide Integral; hide Assigns; hide ReadsFrom; hide NodeOk;
  }

  lemma MergedNodeOk(g: Graph, n1: nat, n2: nat, mi: Mlmi)
    requires Integral(g) && n1 in g.nodes && n2 in g.nodes && MergedNode(g, n1, n2, mi)
    ensures NodeOk(mi)
  {
    hide Integral; hide NodesOk; hide Assigns; hide Uses; hide SingleAssign; hide NodeOk; hide Kept; hide Scheduled;
    IntegralParts(g);
    KnownNodes(g, n1, n2);
    var a, b := g.mlmi[n1], g.mlmi[n2];
    forall m | m in mi.inputs ensures !Assigns(mi.instrs, m) { MergedInputUnassigned(g, n1, n2, mi.instrs, m); }
    forall m | m in mi.outputs ensures Assigns(mi.instrs, m) {
      KeptIsOutput(g, n1, n2, m);
      KeptIsOutput(g, n2, n1, m);
      NodeUses(g, n1, m);
      NodeUses(g, n2, m);
      UnionUses(a.instrs, b.instrs, mi.instrs, m);
    }
    assert ToSet(mi.inputs) == MergedInputs(a, b);
    MakeNodeOk(mi);
  }

  lemma MakeNodeOk(n: Mlmi)
    requires SingleAssign(n.instrs) && Scheduled(n.instrs, ToSet(n.inputs))
    requires (forall m :: m in n.inputs ==> !Assigns(n.instrs, m)) && (forall m :: m in n.outputs ==> Assigns(n.instrs, m))
    ensures NodeOk(n)
  {
    hide SingleAssign; hide Scheduled; hide Assigns;
  }

  lemma KnownNodes(g: Graph, n1: nat, n2: nat)
    requires NodesOk(g)
    ensures (n1 in g.nodes ==> n1 in g.mlmi) && (n2 in g.nodes ==> n2 in g.mlmi)
  {
  }

  lemma KeptIsOutput(g: Graph, first: nat, second: nat, o: nat)
    requires first in g.mlmi && second in g.mlmi
    ensures Kept(g, first, second, o) ==> o in g.mlmi[first].outputs
  {
  }

  // ----- a valid order exists -----

  lemma {:induction false} ConcatScheduled(g: Graph, n1: nat, n2: nat)
    requires Integral(g) && n1 in g.nodes && n2 in g.nodes && n1 != n2 && n1 !in Succ(g.fwd, n2)
    ensures SingleAssign(g.mlmi[n1].instrs + g.mlmi[n2].instrs)
    ensures Scheduled(g.mlmi[n1].instrs + g.mlmi[n2].instrs, MergedInputs(g.mlmi[n1], g.mlmi[n2]))
  {
    hide *;
    IntegralParts(g);
    KnownNodes(g, n1, n2);
    var a, b := g.mlmi[n1], g.mlmi[n2];
    DifferentDst(g, n1, n2);
    ConcatSingle(a.instrs, b.instrs);
    SoundNode(g, n1);
    SoundNode(g, n2);
    forall m | m in a.inputs ensures m in MergedInputs(a, b) {
      NodeUses(g, n1, m);
      NotShared(g, n2, n1, m);
    }
    forall m | m in b.inputs ensures m in MergedInputs(a, b) || Assigns(a.instrs, m) {
      NodeUses(g, n2, m);
      NodeUses(g, n1, m);
    }
    ConcatOrder(a, b, MergedInputs(a, b));
  }

  lemma SoundNode(g: Graph, n: nat)
    requires NodesOk(g) && n in g.nodes
    ensures n in g.mlmi && SingleAssign(g.mlmi[n].instrs) && Scheduled(g.mlmi[n].instrs, ToSet(g.mlmi[n].inputs))
  {
    hide SingleAssign; hide Scheduled; hide Uses; hide Assigns;
    assert NodeOk(g.mlmi[n]);
  }

  lemma NotShared(g: Graph, a: nat, b: nat, v: nat)
    requires NodesOk(g) && FwdOk(g) && a in g.nodes && b in g.nodes && b !in Succ(g.fwd, a) && v in g.mlmi[b].inputs
    ensures v !in g.mlmi[a].outputs
  {
    hide NodeOk;
    assert v in g.mlmi[a].outputs ==> Shares(g.mlmi[a], g.mlmi[b]);
  }

  lemma DifferentDst(g: Graph, n1: nat, n2: nat)
    requires NodesOk(g) && BackOk(g) && n1 in g.nodes && n2 in g.nodes && n1 != n2
    ensures SingleAssign(g.mlmi[n1].instrs) && SingleAssign(g.mlmi[n2].instrs)
    ensures forall m :: !(Assigns(g.mlmi[n1].instrs, m) && Assigns(g.mlmi[n2].instrs, m))
  {
    hide Scheduled; hide Uses; hide Assigns; hide SingleAssign;
    assert NodeOk(g.mlmi[n1]) && NodeOk(g.mlmi[n2]);
    forall m | Assigns(g.mlmi[n1].instrs, m) ensures m in g.back && g.back[m] == n1 { }
    forall m | Assigns(g.mlmi[n2].instrs, m) ensures m in g.back && g.back[m] == n2 { }
  }

  lemma ConcatSingle(a: seq<Instr>, b: seq<Instr>)
    requires SingleAssign(a) && SingleAssign(b) && forall m :: !(Assigns(a, m) && Assigns(b, m))
    ensures SingleAssign(a + b)
  {
    var c := a + b;
    forall i, j | 0 <= i < j < |c| ensures c[i].dst != c[j].dst {
      if i < |a| <= j {
        assert Assigns(a, a[i].dst) && Assigns(b, b[j - |a|].dst);
      }
    }
  }

  lemma ConcatOrder(a: Mlmi, b: Mlmi, inputs: set<nat>)
    requires Scheduled(a.instrs, ToSet(a.inputs)) && Scheduled(b.instrs, ToSet(b.inputs))
    requires (forall m :: m in a.inputs ==> m in inputs) && (forall m :: m in b.inputs ==> m in inputs || Assigns(a.instrs, m))
    ensures Scheduled(a.instrs + b.instrs, inputs)
  {
    hide Instr.Reads; hide Assigns;
    var c := a.instrs + b.instrs;
    forall i, m | 0 <= i < |c| && c[i].Reads(m) ensures m in inputs || Assigns(c[..i], m) {
      if i < |a.instrs| {
        assert c[i] == a.instrs[i] && c[..i] == a.instrs[..i];
      } else {
        var k := i - |a.instrs|;
        assert c[i] == b.instrs[k] && c[..i] == a.instrs + b.instrs[..k];
        AssignsConcat(a.instrs, b.instrs[..k], m);
      }
    }
  }

  lemma AssignsConcat(a: seq<Instr>, b: seq<Instr>, m: nat)
    ensures Assigns(a + b, m) <==> Assigns(a, m) || Assigns(b, m)
  {
    UnionUses(a, b, a + b, m);
  }

  /** One of the two concatenations orders definitions before uses. */
  lemma SomeOrder(g: Graph, n1: nat, n2: nat) returns (base: seq<Instr>)
    requires Integral(g) && Acyclic(g.fwd) && n1 in g.nodes && n2 in g.nodes && n1 != n2
    ensures n1 in g.mlmi && n2 in g.mlmi && SingleAssign(base) && Scheduled(base, MergedInputs(g.mlmi[n1], g.mlmi[n2]))
    ensures (forall i :: i in base <==> i in g.mlmi[n1].instrs || i in g.mlmi[n2].instrs) && |base| == |g.mlmi[n1].instrs| + |g.mlmi[n2].instrs|
  {
    hide *;
    IntegralParts(g);
    KnownNodes(g, n1, n2);
    if n1 !in Succ(g.fwd, n2) {
      ConcatScheduled(g, n1, n2);
      base := g.mlmi[n1].instrs + g.mlmi[n2].instrs;
    } else {
      NoTwoCycle(g.fwd, n1, n2);
      ConcatScheduled(g, n2, n1);
      MergedInputsSwap(g.mlmi[n1], g.mlmi[n2]);
      base := g.mlmi[n2].instrs + g.mlmi[n1].instrs;
    }
  }

  lemma MergedInputsSwap(a: Mlmi, b: Mlmi)
    ensures MergedInputs(a, b) == MergedInputs(b, a)
  {
  }

  lemma NoTwoCycle(e: Edges, a: nat, b: nat)
    requires Acyclic(e) && a in Succ(e, b)
    ensures b !in Succ(e, a)
  {
    if b in Succ(e, a) {
      EdgePath(e, a, b);
      EdgePath(e, b, a);
      ReachesTrans(e, a, b, a);
    }
  }

  // ----- the merged graph -----

  /** The nodes that define what the merged node uses. */
  ghost predicate Feeds(g: Graph, mi: Mlmi, a: nat) {
    exists v :: v in mi.inputs && v !in g.progInputs && v in g.back && g.back[v] == a
  }

  /** `h` is `g` after `merge_nodes(n1, n2)` created the node `x`. */
  ghost predicate Merged(g: Graph, h: Graph, n1: nat, n2: nat, x: nat, mi: Mlmi)
    requires n1 in g.mlmi && n2 in g.mlmi
  {
    && h.nodes == g.nodes - {n1, n2} + {x} && h.mlmi == g.mlmi[x := mi]
    && h.progInputs == g.progInputs && h.progOutputs == g.progOutputs
    && (forall m :: m in h.back <==> m in g.back || Assigns(mi.instrs, m))
    && (forall m :: m in h.back ==> h.back[m] == if Assigns(mi.instrs, m) then x else g.back[m])
    && (forall a :: a in h.fwd ==> a == x || (a in g.fwd && a != n1 && a != n2) || Feeds(g, mi, a))
    && Succ(h.fwd, x) == (Succ(g.fwd, n1) - {n2}) + (Succ(g.fwd, n2) - {n1})
    && (forall a :: a in h.nodes && a != x ==>
          Succ(h.fwd, a) == if Feeds(g, mi, a) then Succ(g.fwd, a) - {n1, n2} + {x} else Succ(g.fwd, a))
  }

  ghost predicate CanMerge(g: Graph, n1: nat, n2: nat, x: nat) {
    Integral(g) && Exact(g) && n1 in g.nodes && n2 in g.nodes && n1 != n2 && x !in g.mlmi
  }

  lemma MergeNodesOk(g: Graph, h: Graph, n1: nat, n2: nat, x: nat, mi: Mlmi)
    requires CanMerge(g, n1, n2, x) && n1 in g.mlmi && n2 in g.mlmi && MergedNode(g, n1, n2, mi) && Merged(g, h, n1, n2, x, mi)
    ensures NodesOk(h)
  {
    MergedNodeOk(g, n1, n2, mi);
    hide NodeOk; hide MergedNode; hide Assigns; hide Feeds;
  }

  lemma MergedAssigns(g: Graph, n1: nat, n2: nat, mi: Mlmi, m: nat)
    requires n1 in g.mlmi && n2 in g.mlmi && MergedNode(g, n1, n2, mi)
    ensures Assigns(mi.instrs, m) <==> Assigns(g.mlmi[n1].instrs, m) || Assigns(g.mlmi[n2].instrs, m)
  {
    hide Assigns; hide Kept; hide SingleAssign; hide Scheduled;
    UnionUses(g.mlmi[n1].instrs, g.mlmi[n2].instrs, mi.instrs, m);
  }

  lemma MergeBackOk(g: Graph, h: Graph, n1: nat, n2: nat, x: nat, mi: Mlmi)
    requires CanMerge(g, n1, n2, x) && n1 in g.mlmi && n2 in g.mlmi && MergedNode(g, n1, n2, mi) && Merged(g, h, n1, n2, x, mi) && NodesOk(h)
    ensures BackOk(h)
  {
    hide NodeOk; hide Assigns; hide MergedNode; hide Feeds; hide FwdOk; hide AvailableOk;
    forall m ensures Assigns(mi.instrs, m) <==> Assigns(g.mlmi[n1].instrs, m) || Assigns(g.mlmi[n2].instrs, m) {
      MergedAssigns(g, n1, n2, mi, m);
    }
    forall n, m | n in h.nodes && Assigns(h.mlmi[n].instrs, m) ensures m in h.back && h.back[m] == n {
      if n != x { assert g.back[m] == n; }
    }
  }

  /** An output that a third node reads, or that the program returns, stays an output. */
  lemma NeededIsKept(g: Graph, n1: nat, n2: nat, mi: Mlmi, y: nat, m: nat)
    requires Integral(g) && n1 in g.nodes && n2 in g.nodes && n1 in g.mlmi && n2 in g.mlmi && MergedNode(g, n1, n2, mi)
    requires m in g.mlmi[n1].outputs || m in g.mlmi[n2].outputs
    requires m in g.progOutputs || (y in g.nodes && y != n1 && y != n2 && m in g.mlmi[y].inputs)
    ensures m in mi.outputs
  {
    hide NodeOk; hide SingleAssign; hide Scheduled; hide BackOk; hide AvailableOk;
    if m !in g.progOutputs {
      if m in g.mlmi[n1].outputs {
        assert Shares(g.mlmi[n1], g.mlmi[y]);
        assert Kept(g, n1, n2, m);
      } else {
        assert Shares(g.mlmi[n2], g.mlmi[y]);
        assert Kept(g, n2, n1, m);
      }
    } else if m in g.mlmi[n1].outputs {
      assert Kept(g, n1, n2, m);
    } else {
      assert Kept(g, n2, n1, m);
    }
  }

  /** A cell available before is available after, when it is still needed. */
  lemma StaysAvailable(g: Graph, h: Graph, n1: nat, n2: nat, x: nat, mi: Mlmi, m: nat)
    requires CanMerge(g, n1, n2, x) && n1 in g.mlmi && n2 in g.mlmi && MergedNode(g, n1, n2, mi) && Merged(g, h, n1, n2, x, mi)
    requires NodesOk(h) && BackOk(h) && Available(g, m)
    requires m in g.mlmi[n1].outputs || m in g.mlmi[n2].outputs ==> m in mi.outputs
    ensures Available(h, m)
  {
    hide NodeOk; hide Assigns; hide Feeds; hide FwdOk; hide AvailableOk; hide SingleAssign; hide Scheduled; hide Kept;
    MergedAssigns(g, n1, n2, mi, m);
    if m !in g.progInputs {
      var d := g.back[m];
      OutputAssigned(g, d, m);
      AssignedOnce(g, n1, m);
      AssignedOnce(g, n2, m);
    }
  }

  lemma AssignedOnce(g: Graph, n: nat, m: nat)
    requires NodesOk(g) && BackOk(g) && n in g.nodes && m in g.back
    ensures Assigns(g.mlmi[n].instrs, m) <==> g.back[m] == n
  {
    hide NodeOk; hide Assigns;
  }

  lemma MergeAvailableOk(g: Graph, h: Graph, n1: nat, n2: nat, x: nat, mi: Mlmi)
    requires CanMerge(g, n1, n2, x) && n1 in g.mlmi && n2 in g.mlmi && MergedNode(g, n1, n2, mi) && Merged(g, h, n1, n2, x, mi)
    requires NodesOk(h) && BackOk(h)
    ensures AvailableOk(h)
  {
    hide NodeOk; hide Assigns; hide Feeds; hide FwdOk; hide SingleAssign; hide Scheduled; hide Kept; hide BackOk; hide Available;
    forall n, m | n in h.nodes && m in h.mlmi[n].inputs ensures Available(h, m) {
      if n != x && (m in g.mlmi[n1].outputs || m in g.mlmi[n2].outputs) { NeededIsKept(g, n1, n2, mi, n, m); }
      StaysAvailable(g, h, n1, n2, x, mi, m);
    }
    forall m | m in h.progOutputs ensures Available(h, m) {
      if m in g.mlmi[n1].outputs || m in g.mlmi[n2].outputs { NeededIsKept(g, n1, n2, mi, x, m); }
      StaysAvailable(g, h, n1, n2, x, mi, m);
    }
  }

  // ----- forward edges -----

  /** A node feeds the merged node exactly when it shares a variable with it. */
  lemma FeedsIsShares(g: Graph, n1: nat, n2: nat, mi: Mlmi, a: nat)
    requires Integral(g) && n1 in g.nodes && n2 in g.nodes && n1 in g.mlmi && n2 in g.mlmi && MergedNode(g, n1, n2, mi) && a in g.nodes && a in g.mlmi
    ensures Feeds(g, mi, a) <==> Shares(g.mlmi[a], mi)
  {
    hide NodeOk; hide FwdOk; hide SingleAssign; hide Scheduled; hide Kept; hide BackOk; hide Assigns;
    if Feeds(g, mi, a) {
      var v :| v in mi.inputs && v !in g.progInputs && v in g.back && g.back[v] == a;
      assert Available(g, v);
      assert v in g.mlmi[a].outputs;
    }
    if Shares(g.mlmi[a], mi) {
      var v :| v in g.mlmi[a].outputs && v in mi.inputs;
      OutputAssigned(g, a, v);
    }
  }

  /** A predecessor of a merged node feeds the new node. */
  lemma PredFeeds(g: Graph, n1: nat, n2: nat, mi: Mlmi, a: nat)
    requires Integral(g) && n1 in g.nodes && n2 in g.nodes && n1 in g.mlmi && n2 in g.mlmi && MergedNode(g, n1, n2, mi)
    requires a != n1 && a != n2 && (n1 in Succ(g.fwd, a) || n2 in Succ(g.fwd, a))
    ensures a in g.nodes && Feeds(g, mi, a)
  {
    hide NodeOk; hide FwdOk; hide SingleAssign; hide Scheduled; hide Kept; hide BackOk; hide Assigns; hide AvailableOk; hide Succ;
    var n := if n1 in Succ(g.fwd, a) then n1 else n2;
    var v := EdgeShares(g, a, n);
    OutputAssigned(g, a, v);
    if v in g.mlmi[n1].outputs { OutputAssigned(g, n1, v); }
    if v in g.mlmi[n2].outputs { OutputAssigned(g, n2, v); }
    assert v in mi.inputs;
  }

  lemma FeederIsOther(g: Graph, n1: nat, n2: nat, mi: Mlmi, a: nat)
    requires Integral(g) && n1 in g.nodes && n2 in g.nodes && n1 in g.mlmi && n2 in g.mlmi && MergedNode(g, n1, n2, mi) && Feeds(g, mi, a)
    ensures a in g.nodes && a != n1 && a != n2
  {
    hide NodeOk; hide FwdOk; hide SingleAssign; hide Scheduled; hide Kept; hide Assigns;
    var v :| v in mi.inputs && v !in g.progInputs && v in g.back && g.back[v] == a;
    assert Available(g, v);
  }

  lemma EdgesIn(g: Graph, a: nat, b: nat)
    requires NodesOk(g) && FwdOk(g) && a in g.nodes
    ensures b in Succ(g.fwd, a) <==> b in g.nodes && b in g.mlmi && Shares(g.mlmi[a], g.mlmi[b])
  {
    hide NodeOk; hide Shares;
  }

  /** Edges between old nodes, into the new node, and out of it. */
  lemma MergeEdge(g: Graph, h: Graph, n1: nat, n2: nat, x: nat, mi: Mlmi, a: nat, b: nat)
    requires CanMerge(g, n1, n2, x) && n1 in g.mlmi && n2 in g.mlmi && MergedNode(g, n1, n2, mi) && Merged(g, h, n1, n2, x, mi)
    requires NodesOk(h) && a in h.nodes && a != x
    ensures b in Succ(h.fwd, a) <==> b in h.nodes && Shares(h.mlmi[a], h.mlmi[b])
  {
    hide NodeOk; hide SingleAssign; hide Scheduled; hide Kept; hide BackOk; hide Assigns; hide AvailableOk; hide Succ; hide Feeds; hide Shares; hide FwdOk; hide MergedNode;
    EdgesIn(g, a, b);
    EdgesIn(g, a, n1);
    EdgesIn(g, a, n2);
    EdgesIn(g, a, x);
    FeedsIsShares(g, n1, n2, mi, a);
    if n1 in Succ(g.fwd, a) || n2 in Succ(g.fwd, a) { PredFeeds(g, n1, n2, mi, a); }
  }

  lemma OutgoingKept(g: Graph, n1: nat, n2: nat, mi: Mlmi, b: nat)
    requires Integral(g) && n1 in g.nodes && n2 in g.nodes && n1 in g.mlmi && n2 in g.mlmi && MergedNode(g, n1, n2, mi)
    requires b in g.nodes && b != n1 && b != n2 && b in g.mlmi
    ensures Shares(mi, g.mlmi[b]) <==> Shares(g.mlmi[n1], g.mlmi[b]) || Shares(g.mlmi[n2], g.mlmi[b])
  {
    hide NodeOk; hide SingleAssign; hide Scheduled; hide BackOk; hide Assigns; hide AvailableOk; hide Succ; hide FwdOk; hide Kept;
    if Shares(mi, g.mlmi[b]) {
      var v :| v in mi.outputs && v in g.mlmi[b].inputs;
      KeptIsOutput(g, n1, n2, v);
      KeptIsOutput(g, n2, n1, v);
    }
    if Shares(g.mlmi[n1], g.mlmi[b]) {
      var v :| v in g.mlmi[n1].outputs && v in g.mlmi[b].inputs;
      NeededIsKept(g, n1, n2, mi, b, v);
    }
    if Shares(g.mlmi[n2], g.mlmi[b]) {
      var v :| v in g.mlmi[n2].outputs && v in g.mlmi[b].inputs;
      NeededIsKept(g, n1, n2, mi, b, v);
    }
  }

  lemma NoSelfShare(n: Mlmi)
    requires NodeOk(n)
    ensures !Shares(n, n)
  {
    hide SingleAssign; hide Scheduled; hide Assigns; hide ReadsFrom;
  }

  lemma NewNodeEdge(g: Graph, h: Graph, n1: nat, n2: nat, x: nat, mi: Mlmi, b: nat)
    requires CanMerge(g, n1, n2, x) && n1 in g.mlmi && n2 in g.mlmi && MergedNode(g, n1, n2, mi) && Merged(g, h, n1, n2, x, mi) && NodesOk(h)
    ensures b in Succ(h.fwd, x) <==> b in h.nodes && Shares(mi, h.mlmi[b])
  {
    hide NodeOk; hide SingleAssign; hide Scheduled; hide Kept; hide BackOk; hide Assigns; hide AvailableOk; hide Succ; hide Feeds; hide Shares; hide FwdOk; hide MergedNode;
    EdgesIn(g, n1, b);
    EdgesIn(g, n2, b);
    NoSelfShare(g.mlmi[n1]);
    NoSelfShare(g.mlmi[n2]);
    NoSelfShare(h.mlmi[x]);
    if b in g.nodes && b != n1 && b != n2 { OutgoingKept(g, n1, n2, mi, b); }
  }

  lemma MergeFwdOk(g: Graph, h: Graph, n1: nat, n2: nat, x: nat, mi: Mlmi)
    requires CanMerge(g, n1, n2, x) && n1 in g.mlmi && n2 in g.mlmi && MergedNode(g, n1, n2, mi) && Merged(g, h, n1, n2, x, mi) && NodesOk(h)
    ensures FwdOk(h)
  {
    hide NodeOk; hide BackOk; hide Assigns; hide AvailableOk; hide Succ; hide Feeds; hide Shares; hide MergedNode;
    forall a, b | a in h.nodes ensures b in Succ(h.fwd, a) <==> b in h.nodes && Shares(h.mlmi[a], h.mlmi[b]) {
      if a == x {
        NewNodeEdge(g, h, n1, n2, x, mi, b);
      } else {
        MergeEdge(g, h, n1, n2, x, mi, a, b);
      }
    }
    forall a | a in h.fwd ensures a in h.nodes {
      if Feeds(g, mi, a) { FeederIsOther(g, n1, n2, mi, a); }
    }
  }

  /** Merging keeps the graph integral. */
  lemma MergeIntegral(g: Graph, h: Graph, n1: nat, n2: nat, x: nat, mi: Mlmi)
    requires CanMerge(g, n1, n2, x) && n1 in g.mlmi && n2 in g.mlmi && MergedNode(g, n1, n2, mi) && Merged(g, h, n1, n2, x, mi)
    ensures Integral(h)
  {
    hide *;
    MergeNodesOk(g, h, n1, n2, x, mi);
    MergeBackOk(g, h, n1, n2, x, mi);
    MergeFwdOk(g, h, n1, n2, x, mi);
    MergeAvailableOk(g, h, n1, n2, x, mi);
    MakeIntegral(h);
  }

  /** Every input of the merged node is read by it. */
  lemma MergeExact(g: Graph, h: Graph, n1: nat, n2: nat, x: nat, mi: Mlmi)
    requires CanMerge(g, n1, n2, x) && n1 in g.mlmi && n2 in g.mlmi && MergedNode(g, n1, n2, mi) && Merged(g, h, n1, n2, x, mi) && NodesOk(h)
    ensures Exact(h)
  {
    hide NodeOk; hide Assigns; hide Feeds; hide ReadsFrom; hide Kept; hide BackOk; hide FwdOk; hide AvailableOk; hide SingleAssign; hide Scheduled; hide Succ;
    forall m | m in mi.inputs ensures ReadsFrom(mi.instrs, m) { MergedInputsUsed(g, n1, n2, mi.instrs, m); }
  }

  lemma MakeIntegral(g: Graph)
    requires NodesOk(g) && BackOk(g) && FwdOk(g) && AvailableOk(g)
    ensures Integral(g)
  {
    hide NodesOk; hide BackOk; hide FwdOk; hide AvailableOk;
  }

  lemma MergeContracts(g: Graph, h: Graph, n1: nat, n2: nat, x: nat, mi: Mlmi)
    requires CanMerge(g, n1, n2, x) && n1 in g.mlmi && n2 in g.mlmi && MergedNode(g, n1, n2, mi) && Merged(g, h, n1, n2, x, mi)
    requires NodesOk(h) && FwdOk(h)
    ensures Contracts(g.fwd, h.fwd, n1, n2, x)
  {
    hide NodeOk; hide BackOk; hide Assigns; hide AvailableOk; hide Feeds; hide Shares; hide MergedNode; hide Succ; hide FwdOk;
    NewNodeEdge(g, h, n1, n2, x, mi, x);
    NoSelfShare(h.mlmi[x]);
    NoEdgeTo(g, x);
    forall a, b | b in Succ(h.fwd, a) && a != x ensures a in h.nodes { EdgeFromNode(h, a, b); }
    forall a | a != x && x in Succ(h.fwd, a) ensures n1 in Succ(g.fwd, a) || n2 in Succ(g.fwd, a) {
      EdgeFromNode(h, a, x);
      FeederShares(g, n1, n2, mi, a);
    }
  }

  lemma EdgeFromNode(g: Graph, a: nat, b: nat)
    requires NodesOk(g) && FwdOk(g) && b in Succ(g.fwd, a)
    ensures a in g.nodes && b in g.nodes
  {
    hide NodeOk; hide Shares;
  }

  lemma NoEdgeTo(g: Graph, x: nat)
    requires NodesOk(g) && FwdOk(g) && x !in g.mlmi
    ensures forall a :: x !in Succ(g.fwd, a)
  {
    hide NodeOk; hide Shares;
  }

  lemma FeederShares(g: Graph, n1: nat, n2: nat, mi: Mlmi, a: nat)
    requires Integral(g) && n1 in g.nodes && n2 in g.nodes && n1 in g.mlmi && n2 in g.mlmi && MergedNode(g, n1, n2, mi) && a in g.nodes && Feeds(g, mi, a)
    ensures n1 in Succ(g.fwd, a) || n2 in Succ(g.fwd, a)
  {
    hide NodeOk; hide SingleAssign; hide Scheduled; hide Kept; hide BackOk; hide Assigns; hide Succ;
    var v :| v in mi.inputs && v !in g.progInputs && v in g.back && g.back[v] == a;
    assert Available(g, v);
    assert v in g.mlmi[a].outputs;
    EdgesIn(g, a, n1);
    EdgesIn(g, a, n2);
  }

  /** Merging keeps the graph acyclic when no path of length two or more joins the nodes. */
  lemma MergeAcyclic(g: Graph, h: Graph, n1: nat, n2: nat, x: nat, mi: Mlmi)
    requires CanMerge(g, n1, n2, x) && n1 in g.mlmi && n2 in g.mlmi && MergedNode(g, n1, n2, mi) && Merged(g, h, n1, n2, x, mi)
    requires Acyclic(g.fwd) && !LongPath(g.fwd, n1, n2) && !LongPath(g.fwd, n2, n1)
    ensures Acyclic(h.fwd)
  {
    hide *;
    MergeNodesOk(g, h, n1, n2, x, mi);
    MergeFwdOk(g, h, n1, n2, x, mi);
    MergeContracts(g, h, n1, n2, x, mi);
    ContractionAcyclic(g.fwd, h.fwd, n1, n2, x);
  }

  /** The same valuations are models before and after: every cell keeps its value. */
  lemma MergeModels(ops: Ops, g: Graph, h: Graph, n1: nat, n2: nat, x: nat, mi: Mlmi, val: Env)
    requires CanMerge(g, n1, n2, x) && n1 in g.mlmi && n2 in g.mlmi && MergedNode(g, n1, n2, mi) && Merged(g, h, n1, n2, x, mi) && NodesOk(h) && NodesOk(g)
    ensures Models(ops, g, val) <==> Models(ops, h, val)
  {
    hide Compute; hide NodeOk; hide SingleAssign; hide Scheduled; hide Kept; hide Feeds; hide Assigns; hide BackOk; hide FwdOk; hide AvailableOk;
    if Models(ops, g, val) {
      forall n, i | n in h.nodes && 0 <= i < |h.mlmi[n].instrs| ensures val(h.mlmi[n].instrs[i].dst) == Compute(ops, h.mlmi[n].instrs[i], val) {
        if n == x {
          var s := mi.instrs[i];
          assert s in mi.instrs;
          var d := if s in g.mlmi[n1].instrs then n1 else n2;
          var k :| 0 <= k < |g.mlmi[d].instrs| && g.mlmi[d].instrs[k] == s;
        }
      }
    }
    if Models(ops, h, val) {
      forall n, i | n in g.nodes && 0 <= i < |g.mlmi[n].instrs| ensures val(g.mlmi[n].instrs[i].dst) == Compute(ops, g.mlmi[n].instrs[i], val) {
        if n == n1 || n == n2 {
          var s := g.mlmi[n].instrs[i];
          assert s in g.mlmi[n].instrs;
          assert s in mi.instrs;
          var k :| 0 <= k < |mi.instrs| && mi.instrs[k] == s;
          assert x in h.nodes && h.mlmi[x].instrs[k] == s;
        } else {
          assert n in h.nodes && h.mlmi[n].instrs[i] == g.mlmi[n].instrs[i];
        }
      }
    }
  }
}
