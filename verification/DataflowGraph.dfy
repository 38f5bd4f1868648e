/** The class `DFG` of compiler/src/DFG.py: building the graph and merging nodes, in place. */
module DataflowGraph {
  import opened Options
  import opened IR
  import opened Graphs
  import opened Dfg
  import opened MergedInstrs
  import opened DfgMerge

  // ----- lists of sets, and edge updates -----

  /** `list(s)`: some order of the elements. */
  method ListOf(s: set<nat>) returns (r: seq<nat>)
    ensures (forall m :: m in r <==> m in s) && |r| == |s| && NoRepeat(r)
  {
    r := [];
    var rest := s;
    while rest != {}
      invariant rest <= s && (forall m :: m in r <==> m in s && m !in rest) && |r| + |rest| == |s| && NoRepeat(r)
      decreases rest
    {
      var m :| m in rest;
      rest := rest - {m};
      r := r + [m];
    }
  }

  function UsedSet(instrs: seq<Instr>): (r: set<nat>)
    ensures forall m :: m in r <==> Uses(instrs, m)
  {
    set i, m | 0 <= i < |instrs| && m in MemInputs(instrs[i]) && !Assigns(instrs, m) :: m
  }

  /** Some cell of `used` that is not a program input is defined by `a`. */
  predicate Fed(back: map<nat, nat>, progInputs: set<nat>, used: set<nat>, a: nat) {
    exists v :: v in used && v !in progInputs && v in back && back[v] == a
  }

  lemma FedMore(back: map<nat, nat>, progInputs: set<nat>, used: set<nat>, v: nat, a: nat)
    ensures Fed(back, progInputs, used + {v}, a) <==> Fed(back, progInputs, used, a) || (v !in progInputs && v in back && back[v] == a)
  {
    if Fed(back, progInputs, used, a) {
      var w :| w in used && w !in progInputs && w in back && back[w] == a;
      assert w in used + {v};
    }
    if v !in progInputs && v in back && back[v] == a { assert v in used + {v}; }
  }

  ghost predicate Updated(fwd: Edges, back: map<nat, nat>, progInputs: set<nat>, used: set<nat>, minus: set<nat>, plus: set<nat>, f: Edges) {
    && (forall a :: a in f <==> a in fwd || Fed(back, progInputs, used, a))
    && (forall a :: Succ(f, a) == if Fed(back, progInputs, used, a) then Succ(fwd, a) - minus + plus else Succ(fwd, a))
  }

  lemma UpdatedNext(fwd: Edges, back: map<nat, nat>, progInputs: set<nat>, used: set<nat>, minus: set<nat>, plus: set<nat>, f: Edges, v: nat)
    requires Updated(fwd, back, progInputs, used, minus, plus, f) && v in back && v !in progInputs
    ensures Updated(fwd, back, progInputs, used + {v}, minus, plus, f[back[v] := Succ(f, back[v]) - minus + plus])
  {
    hide Fed;
    var d := back[v];
    var h := f[d := Succ(f, d) - minus + plus];
    forall a ensures Fed(back, progInputs, used + {v}, a) <==> Fed(back, progInputs, used, a) || d == a {
      FedMore(back, progInputs, used, v, a);
    }
    forall a ensures Succ(h, a) == if Fed(back, progInputs, used + {v}, a) then Succ(fwd, a) - minus + plus else Succ(fwd, a) {
      assert a != d ==> Succ(h, a) == Succ(f, a);
    }
  }

  lemma UpdatedSkip(fwd: Edges, back: map<nat, nat>, progInputs: set<nat>, used: set<nat>, minus: set<nat>, plus: set<nat>, f: Edges, v: nat)
    requires Updated(fwd, back, progInputs, used, minus, plus, f) && v in progInputs
    ensures Updated(fwd, back, progInputs, used + {v}, minus, plus, f)
  {
    hide Fed;
    forall a ensures Fed(back, progInputs, used + {v}, a) <==> Fed(back, progInputs, used, a) {
      FedMore(back, progInputs, used, v, a);
    }
  }

  lemma UpdatedNone(fwd: Edges, back: map<nat, nat>, progInputs: set<nat>, minus: set<nat>, plus: set<nat>)
    ensures Updated(fwd, back, progInputs, {}, minus, plus, fwd)
  {
  }

  /** The loops over `used_in_new_LLMI`: the edges out of the defining nodes lose `minus` and gain `plus`. */
  method UpdateEdges(fwd: Edges, back: map<nat, nat>, progInputs: set<nat>, used: set<nat>, minus: set<nat>, plus: set<nat>) returns (f: Edges)
    requires forall v :: v in used && v !in progInputs ==> v in back
    ensures Updated(fwd, back, progInputs, used, minus, plus, f)
  {
    hide Updated; hide Fed; hide Succ;
    f := fwd;
    UpdatedNone(fwd, back, progInputs, minus, plus);
    var rest := used;
    assert used - rest == {};
    while rest != {}
      invariant rest <= used && Updated(fwd, back, progInputs, used - rest, minus, plus, f)
      decreases rest
    {
      var src :| src in rest;
      assert used - (rest - {src}) == used - rest + {src};
      if src !in progInputs {
        UpdatedNext(fwd, back, progInputs, used - rest, minus, plus, f, src);
        f := f[back[src] := Succ(f, back[src]) - minus + plus];
      } else {
        UpdatedSkip(fwd, back, progInputs, used - rest, minus, plus, f, src);
      }
      rest := rest - {src};
    }
    assert used - {} == used;
  }

  /** The loop that points the definitions to the new node. */
  method PointTo(back: map<nat, nat>, defs: set<nat>, x: nat) returns (b: map<nat, nat>)
    ensures forall m :: m in b <==> m in back || m in defs
    ensures forall m :: m in b ==> b[m] == if m in defs then x else back[m]
  {
    b := back;
    var rest := defs;
    while rest != {}
      invariant rest <= defs && forall m :: m in b <==> m in back || (m in defs && m !in rest)
      invariant forall m :: m in b ==> b[m] == if m in defs && m !in rest then x else back[m]
      decreases rest
    {
      var v :| v in rest;
      b := b[v := x];
      rest := rest - {v};
    }
  }

  function DefSet(instrs: seq<Instr>): (r: set<nat>)
    ensures forall m :: m in r <==> Assigns(instrs, m)
  {
    set i | 0 <= i < |instrs| :: instrs[i].dst
  }

  // ----- the pieces of a merge -----

  /** A sequence that `compute_merged_instrs` can return. */
  ghost predicate IsMerge(a: Mlmi, b: Mlmi, instrs: seq<Instr>) {
    && (forall i :: i in instrs <==> i in a.instrs || i in b.instrs)
    && SingleAssign(instrs) && Scheduled(instrs, MergedInputs(a, b)) && |instrs| == |a.instrs| + |b.instrs|
  }

  lemma MakeMerge(a: Mlmi, b: Mlmi, instrs: seq<Instr>)
    requires forall i :: i in instrs <==> i in a.instrs + b.instrs
    requires SingleAssign(instrs) && Scheduled(instrs, MergedInputs(a, b)) && |instrs| == |a.instrs| + |b.instrs|
    ensures IsMerge(a, b, instrs)
  {
    hide SingleAssign; hide Scheduled;
  }

  lemma MakeMergedNode(g: Graph, n1: nat, n2: nat, mi: Mlmi)
    requires n1 in g.mlmi && n2 in g.mlmi && IsMerge(g.mlmi[n1], g.mlmi[n2], mi.instrs)
    requires forall m :: m in mi.inputs <==> m in MergedInputs(g.mlmi[n1], g.mlmi[n2])
    requires forall o :: o in mi.outputs <==> Kept(g, n1, n2, o) || Kept(g, n2, n1, o)
    ensures MergedNode(g, n1, n2, mi)
  {
    hide SingleAssign; hide Scheduled; hide Kept;
  }

  lemma TwoMembers(s: set<nat>, x: nat, y: nat)
    requires x in s && y in s && x != y
    ensures |s| >= 2
  {
    assert s == {x, y} + (s - {x, y});
  }

  lemma KeptUnread(g: Graph, first: nat, second: nat, o: nat)
    requires first in g.mlmi && second in g.mlmi && o in g.mlmi[first].outputs && o !in g.mlmi[second].inputs
    ensures Kept(g, first, second, o)
  {
  }

  lemma SuccKnown(g: Graph, n: nat)
    requires NodesOk(g) && FwdOk(g)
    ensures forall y :: y in Succ(g.fwd, n) ==> y in g.mlmi
  {
    hide NodeOk; hide Shares;
    forall y | y in Succ(g.fwd, n) ensures y in g.mlmi { assert n in g.nodes; }
  }

  lemma UsedIsInputs(g: Graph, n1: nat, n2: nat, mi: Mlmi)
    requires Integral(g) && Exact(g) && n1 in g.nodes && n2 in g.nodes && n1 in g.mlmi && n2 in g.mlmi && MergedNode(g, n1, n2, mi)
    ensures UsedSet(mi.instrs) == ToSet(mi.inputs)
    ensures forall v :: v in UsedSet(mi.instrs) && v !in g.progInputs ==> v in g.back
  {
    hide SingleAssign; hide Scheduled; hide Uses; hide Assigns; hide Kept; hide BackOk; hide FwdOk; hide NodesOk;
    forall v ensures v in mi.inputs <==> Uses(mi.instrs, v) { MergedInputsUsed(g, n1, n2, mi.instrs, v); }
    forall v | v in UsedSet(mi.instrs) && v !in g.progInputs ensures v in g.back {
      assert v in mi.inputs;
      assert Available(g, v);
    }
  }

  lemma UsedStillDefined(g: Graph, mi: Mlmi, x: nat, back: map<nat, nat>)
    requires forall v :: v in UsedSet(mi.instrs) && v !in g.progInputs ==> v in g.back
    requires forall m :: m in back <==> m in g.back || m in DefSet(mi.instrs)
    requires forall m :: m in back ==> back[m] == if m in DefSet(mi.instrs) then x else g.back[m]
    ensures forall v :: v in UsedSet(mi.instrs) && v !in g.progInputs ==> v in back && back[v] == g.back[v]
  {
    hide Assigns; hide ReadsFrom;
  }

  lemma FedIsFeeds(g: Graph, mi: Mlmi, a: nat)
    requires UsedSet(mi.instrs) == ToSet(mi.inputs)
    ensures Fed(g.back, g.progInputs, UsedSet(mi.instrs), a) <==> Feeds(g, mi, a)
  {
    hide UsedSet;
  }

  lemma FedSame(back: map<nat, nat>, other: map<nat, nat>, progInputs: set<nat>, used: set<nat>, a: nat)
    requires forall v :: v in used && v !in progInputs ==> v in back && v in other && other[v] == back[v]
    ensures Fed(back, progInputs, used, a) <==> Fed(other, progInputs, used, a)
  {
  }

  /** The forward edges after all updates. */
  lemma EdgesMerged(g: Graph, n1: nat, n2: nat, x: nat, mi: Mlmi, fwd1: Edges, fwd2: Edges, back: map<nat, nat>, fwd3: Edges)
    requires CanMerge(g, n1, n2, x) && n1 in g.mlmi && n2 in g.mlmi && MergedNode(g, n1, n2, mi) && UsedSet(mi.instrs) == ToSet(mi.inputs)
    requires Updated(g.fwd, g.back, g.progInputs, UsedSet(mi.instrs), {n1, n2}, {}, fwd1)
    requires fwd2 == fwd1[x := (Succ(fwd1, n1) - {n2}) + (Succ(fwd1, n2) - {n1})] - {n1, n2}
    requires forall v :: v in UsedSet(mi.instrs) && v !in g.progInputs ==> v in g.back && v in back && back[v] == g.back[v]
    requires Updated(fwd2, back, g.progInputs, UsedSet(mi.instrs), {}, {x}, fwd3)
    ensures forall a :: a in fwd3 ==> a == x || (a in g.fwd && a != n1 && a != n2) || Feeds(g, mi, a)
    ensures Succ(fwd3, x) == (Succ(g.fwd, n1) - {n2}) + (Succ(g.fwd, n2) - {n1})
    ensures forall a :: a in g.nodes && a != n1 && a != n2 && a != x ==>
      Succ(fwd3, a) == if Feeds(g, mi, a) then Succ(g.fwd, a) - {n1, n2} + {x} else Succ(g.fwd, a)
  {
    hide Integral; hide MergedNode; hide Fed; hide Feeds; hide UsedSet;
    forall a ensures Fed(g.back, g.progInputs, UsedSet(mi.instrs), a) <==> Feeds(g, mi, a) { FedIsFeeds(g, mi, a); }
    forall a ensures Fed(back, g.progInputs, UsedSet(mi.instrs), a) <==> Feeds(g, mi, a) { FedSame(g.back, back, g.progInputs, UsedSet(mi.instrs), a); }
    forall a | Feeds(g, mi, a) ensures a != n1 && a != n2 && a != x { FeederKnown(g, n1, n2, x, mi, a); }
    assert n1 != x && n2 != x by { NotFresh(g, n1, n2, x); }
  }

  lemma NotFresh(g: Graph, n1: nat, n2: nat, x: nat)
    requires CanMerge(g, n1, n2, x)
    ensures n1 != x && n2 != x
  {
    hide NodeOk; hide BackOk; hide FwdOk; hide AvailableOk;
  }

  lemma FeederKnown(g: Graph, n1: nat, n2: nat, x: nat, mi: Mlmi, a: nat)
    requires CanMerge(g, n1, n2, x) && n1 in g.mlmi && n2 in g.mlmi && MergedNode(g, n1, n2, mi) && Feeds(g, mi, a)
    ensures a != n1 && a != n2 && a != x
  {
    hide NodeOk; hide BackOk; hide FwdOk; hide AvailableOk; hide Feeds; hide MergedNode;
    FeederIsOther(g, n1, n2, mi, a);
  }

  lemma MakeMerged(g: Graph, h: Graph, n1: nat, n2: nat, x: nat, mi: Mlmi)
    requires n1 in g.mlmi && n2 in g.mlmi && h.nodes == g.nodes - {n1, n2} + {x} && h.mlmi == g.mlmi[x := mi]
    requires h.progInputs == g.progInputs && h.progOutputs == g.progOutputs
    requires forall m :: m in h.back <==> m in g.back || m in DefSet(mi.instrs)
    requires forall m :: m in h.back ==> h.back[m] == if m in DefSet(mi.instrs) then x else g.back[m]
    requires forall a :: a in h.fwd ==> a == x || (a in g.fwd && a != n1 && a != n2) || Feeds(g, mi, a)
    requires Succ(h.fwd, x) == (Succ(g.fwd, n1) - {n2}) + (Succ(g.fwd, n2) - {n1})
    requires forall a :: a in g.nodes && a != n1 && a != n2 && a != x ==>
      Succ(h.fwd, a) == if Feeds(g, mi, a) then Succ(g.fwd, a) - {n1, n2} + {x} else Succ(g.fwd, a)
    ensures Merged(g, h, n1, n2, x, mi)
  {
    hide Feeds; hide Assigns; hide Succ;
  }

  lemma MakeCanMerge(g: Graph, n1: nat, n2: nat, x: nat)
    requires Integral(g) && NodesOk(g) && Exact(g) && n1 in g.nodes && n2 in g.nodes && n1 != n2 && x !in g.mlmi
    ensures CanMerge(g, n1, n2, x)
  {
    hide NodesOk; hide BackOk; hide FwdOk; hide AvailableOk; hide Exact;
  }

  // ----- the class -----

  class Dataflow {
    var nodes: set<nat>
    var mlmi: map<nat, Mlmi>
    var forwardEdges: Edges
    var backwardEdges: map<nat, nat>
    var progInputs: set<nat>
    var progOutputs: seq<nat>
    var nextId: nat

    constructor (nodes: set<nat>, mlmi: map<nat, Mlmi>, fwd: Edges, back: map<nat, nat>, inputs: set<nat>, outputs: seq<nat>, nextId: nat)
      ensures this.nodes == nodes && this.mlmi == mlmi && forwardEdges == fwd && backwardEdges == back
      ensures progInputs == inputs && progOutputs == outputs && this.nextId == nextId
    {
      this.nodes, this.mlmi, forwardEdges, backwardEdges := nodes, mlmi, fwd, back;
      progInputs, progOutputs, this.nextId := inputs, outputs, nextId;
    }

    ghost function View(): Graph
      reads this
    {
      Graph(nodes, mlmi, forwardEdges, backwardEdges, progInputs, progOutputs)
    }

    ghost predicate Valid()
      reads this
    {
      Integral(View()) && Exact(View()) && Acyclic(forwardEdges) && forall n :: n in mlmi ==> n < nextId
    }

    ghost predicate Two(n1: nat, n2: nat)
      reads this
    {
      n1 in nodes && n2 in nodes && n1 != n2 && n1 in mlmi && n2 in mlmi
    }

    /** How many of the successors of a node read `o`. */
    method UseCount(first: nat, o: nat) returns (count: nat)
      requires Valid() && first in nodes
      ensures count == |UsersOf(first, o)|
    {
      hide *;
      ValidParts();
      ViewIs();
      IntegralParts(View());
      SuccKnown(View(), first);
      var next := Succ(forwardEdges, first);
      count := 0;
      var rest := next;
      ghost var seen: set<nat> := {};
      while rest != {}
        invariant rest <= next && seen == (set y | y in next && y !in rest && y in mlmi && o in mlmi[y].inputs) && count == |seen|
        decreases rest
      {
        var y :| y in rest;
        rest := rest - {y};
        if o in mlmi[y].inputs {
          count := count + 1;
          seen := seen + {y};
        }
      }
      UsersAre(first, o);
      assert seen == UsersOf(first, o);
    }

    ghost function UsersOf(first: nat, o: nat): set<nat>
      reads this
    {
      set y | y in Succ(forwardEdges, first) && y in mlmi && o in mlmi[y].inputs
    }

    lemma UsersAre(first: nat, o: nat)
      ensures forall y :: y in UsersOf(first, o) <==> y in Succ(forwardEdges, first) && y in mlmi && o in mlmi[y].inputs
    {
    }

    /** More than one use, counting the program's: exactly when something other than `second` needs the output. */
    lemma CountIsKept(first: nat, second: nat, o: nat)
      requires Valid() && first in nodes && second in nodes && first in mlmi && second in mlmi
      requires o in mlmi[first].outputs && o in mlmi[second].inputs
      ensures |UsersOf(first, o)| >= 1
      ensures |UsersOf(first, o)| + (if o in progOutputs then 1 else 0) > 1 <==> Kept(View(), first, second, o)
    {
      hide Acyclic; hide BackOk; hide AvailableOk; hide NodeOk;
      var g := View();
      var users := UsersOf(first, o);
      assert Shares(g.mlmi[first], g.mlmi[second]);
      assert second in users;
      if exists y :: y in users && y != second {
        var y :| y in users && y != second;
        TwoMembers(users, y, second);
      } else {
        assert users == {second};
        assert |users| == 1;
        forall y | y in Succ(g.fwd, first) && y in g.mlmi && o in g.mlmi[y].inputs ensures y == second { assert y in users; }
      }
    }

    /** One half of `compute_merged_outputs`. */
    method KeptOutputs(first: nat, second: nat) returns (outs: set<nat>)
      requires Valid() && first in nodes && second in nodes && first in mlmi && second in mlmi
      ensures forall o :: o in outs <==> Kept(View(), first, second, o)
    {
      hide *;
      ghost var g := View();
      ViewIs();
      outs := {};
      var all := ToSet(mlmi[first].outputs);
      var rest := all;
      while rest != {}
        invariant rest <= all && forall o :: o in outs <==> o in all && o !in rest && Kept(g, first, second, o)
        decreases rest
      {
        var o :| o in rest;
        rest := rest - {o};
        if o in mlmi[second].inputs {
          var count := UseCount(first, o);
          CountIsKept(first, second, o);
          if o in progOutputs { count := count + 1; }
          if count > 1 { outs := outs + {o}; }
        } else {
          KeptUnread(g, first, second, o);
          outs := outs + {o};
        }
      }
      forall o ensures Kept(g, first, second, o) ==> o in all { KeptIsOutput(g, first, second, o); }
    }

    /** `merge_nodes`: the merged node, and the updated edges. */
    method MergeNodes(n1: nat, n2: nat, given: Option<seq<Instr>>) returns (x: nat)
      requires Valid() && Two(n1, n2)
      requires given.Some? ==> IsMerge(mlmi[n1], mlmi[n2], given.value)
      requires !LongPath(forwardEdges, n1, n2) && !LongPath(forwardEdges, n2, n1)
      modifies this
      ensures Valid() && x == old(nextId) && nextId == x + 1 && n1 in old(mlmi) && n2 in old(mlmi) && x !in old(mlmi)
      ensures x in mlmi && MergedNode(old(View()), n1, n2, mlmi[x]) && |mlmi[x].inputs| == |MergedInputs(old(mlmi[n1]), old(mlmi[n2]))|
      ensures NoRepeat(mlmi[x].outputs)
      ensures Merged(old(View()), View(), n1, n2, x, mlmi[x])
    {
      hide *;
      ghost var g := View();
      ViewIs();
      ValidParts();
      IntegralParts(g);
      TwoParts(n1, n2);
      var a, b := mlmi[n1], mlmi[n2];
      var inputs := ListOf(MergedInputs(a, b));
      var kept1 := KeptOutputs(n1, n2);
      var kept2 := KeptOutputs(n2, n1);
      var outputs := ListOf(kept1 + kept2);
      var instrs;
      if given.Some? {
        instrs := given.value;
      } else {
        ghost var base := SomeOrder(g, n1, n2);
        instrs := ComputeMergedInstrs(a.instrs + b.instrs, MergedInputs(a, b), base);
        MakeMerge(a, b, instrs);
      }
      var mi := Mlmi(instrs, inputs, outputs);
      MakeMergedNode(g, n1, n2, mi);
      x := nextId;
      nextId := nextId + 1;
      nodes := nodes - {n1, n2} + {x};
      mlmi := mlmi[x := mi];
      var used := UsedSet(instrs);
      MergedNodeOk(g, n1, n2, mi);
      UsedIsInputs(g, n1, n2, mi);
      MakeCanMerge(g, n1, n2, x);
      ghost var fwd0 := forwardEdges;
      forwardEdges := UpdateEdges(forwardEdges, backwardEdges, progInputs, used, {n1, n2}, {});
      ghost var fwd1 := forwardEdges;
      forwardEdges := forwardEdges[x := (Succ(forwardEdges, n1) - {n2}) + (Succ(forwardEdges, n2) - {n1})];
      backwardEdges := PointTo(backwardEdges, DefSet(instrs), x);
      forwardEdges := forwardEdges - {n1, n2};
      ghost var fwd2 := forwardEdges;
      UsedStillDefined(g, mi, x, backwardEdges);
      forwardEdges := UpdateEdges(forwardEdges, backwardEdges, progInputs, used, {}, {x});
      ViewIs();
      EdgesMerged(g, n1, n2, x, mi, fwd1, fwd2, backwardEdges, forwardEdges);
      MakeMerged(g, View(), n1, n2, x, mi);
      MergeIntegral(g, View(), n1, n2, x, mi);
      MergeAcyclic(g, View(), n1, n2, x, mi);
      IntegralParts(View());
      MergeExact(g, View(), n1, n2, x, mi);
      MakeValid();
    }

    lemma ViewIs()
      ensures View() == Graph(nodes, mlmi, forwardEdges, backwardEdges, progInputs, progOutputs)
    {
    }

    lemma ValidParts()
      requires Valid()
      ensures Integral(View()) && NodesOk(View()) && Exact(View()) && Acyclic(View().fwd) && forall n :: n in mlmi ==> n < nextId
    {
      hide NodesOk; hide BackOk; hide FwdOk; hide AvailableOk; hide Acyclic; hide Exact;
    }

    lemma TwoParts(n1: nat, n2: nat)
      requires Two(n1, n2)
      ensures n1 in nodes && n2 in nodes && n1 != n2 && n1 in mlmi && n2 in mlmi
    {
    }

    lemma MakeTwo(n1: nat, n2: nat)
      requires n1 in nodes && n2 in nodes && n1 != n2 && n1 in mlmi && n2 in mlmi
      ensures Two(n1, n2)
    {
    }

    lemma MakeValid()
      requires Integral(View()) && NodesOk(View()) && Exact(View()) && Acyclic(View().fwd) && forall n :: n in mlmi ==> n < nextId
      ensures Valid()
    {
      hide NodesOk; hide BackOk; hide FwdOk; hide AvailableOk; hide Acyclic; hide Exact;
    }
  }
}
