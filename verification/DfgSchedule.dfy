/** `to_LLIR` of compiler/src/DFG.py: a worklist emits the nodes of the graph. The set's `pop` is an arbitrary choice. */
module DfgSchedule {
  import opened Options
  import opened Graphs
  import opened Dfg

  predicate Ready(n: Mlmi, ready: set<nat>) {
    forall m :: m in n.inputs ==> m in ready
  }

  /** What has been emitted so far: nodes of the graph, each once, each after what it reads. */
  ghost predicate Emitted(g: Graph, order: seq<nat>, ready: set<nat>, done: set<nat>)
    requires NodesOk(g)
  {
    && (forall k :: 0 <= k < |order| ==> order[k] in g.nodes)
    && (forall i, j :: 0 <= i < j < |order| ==> order[i] != order[j])
    && (forall n :: n in order <==> n in done)
    && (forall m :: m in ready <==> Before(g, order, |order|, m))
    && (forall i, m :: 0 <= i < |order| && m in g.mlmi[order[i]].inputs ==> Before(g, order, i, m))
  }

  /** Nodes that could be emitted are waiting, and no emitted node is. */
  ghost predicate Waiting(g: Graph, todo: set<nat>, ready: set<nat>, done: set<nat>)
    requires NodesOk(g)
  {
    && todo <= g.nodes && todo !! done
    && forall n :: n in g.nodes && n !in done && Ready(g.mlmi[n], ready) ==> n in todo
  }

  lemma EmittedNext(g: Graph, order: seq<nat>, ready: set<nat>, done: set<nat>, n: nat)
    requires NodesOk(g) && Emitted(g, order, ready, done) && n in g.nodes && n !in done && Ready(g.mlmi[n], ready)
    ensures Emitted(g, order + [n], ready + ToSet(g.mlmi[n].outputs), done + {n})
  {
    hide NodeOk;
    var next := order + [n];
    var outs := g.mlmi[n].outputs;
    forall m ensures m in ready + ToSet(outs) <==> Before(g, next, |next|, m) {
      BeforeNext(g, order, n, m);
    }
    forall i, m | 0 <= i < |next| && m in g.mlmi[next[i]].inputs ensures Before(g, next, i, m) {
      if i < |order| {
        assert Before(g, order, i, m);
        BeforeStays(g, order, n, i, m);
      } else {
        assert Before(g, order, |order|, m);
        BeforeStays(g, order, n, |order|, m);
      }
    }
  }

  lemma BeforeNext(g: Graph, order: seq<nat>, n: nat, m: nat)
    requires NodesOk(g) && n in g.nodes && forall k :: 0 <= k < |order| ==> order[k] in g.nodes
    ensures Before(g, order + [n], |order| + 1, m) <==> Before(g, order, |order|, m) || m in g.mlmi[n].outputs
  {
    hide NodeOk;
    var next := order + [n];
    if m in g.mlmi[n].outputs {
      assert next[|order|] == n;
    } else if Before(g, next, |order| + 1, m) && m !in g.progInputs {
      var j :| 0 <= j < |next| && m in g.mlmi[next[j]].outputs;
      assert next[j] == order[j];
    } else if Before(g, order, |order|, m) {
      BeforeStays(g, order, n, |order|, m);
    }
  }

  lemma BeforeStays(g: Graph, order: seq<nat>, n: nat, i: nat, m: nat)
    requires NodesOk(g) && n in g.nodes && i <= |order| && forall k :: 0 <= k < |order| ==> order[k] in g.nodes
    ensures Before(g, order, i, m) ==> Before(g, order + [n], i, m)
  {
    hide NodeOk;
    var next := order + [n];
    if Before(g, order, i, m) && m !in g.progInputs {
      var j :| 0 <= j < i && m in g.mlmi[order[j]].outputs;
      assert next[j] == order[j];
    }
  }

  /** The node that assigns a cell which is ready has been emitted. */
  lemma ReadyIsDone(g: Graph, order: seq<nat>, ready: set<nat>, done: set<nat>, x: nat, v: nat)
    requires Integral(g) && Emitted(g, order, ready, done) && x in g.nodes && v in g.mlmi[x].outputs && v in ready
    ensures x in done
  {
    hide FwdOk; hide AvailableOk; hide Shares;
    assert NodeOk(g.mlmi[x]);
    assert g.back[v] == x && v !in g.progInputs;
    assert Before(g, order, |order|, v);
    var j :| 0 <= j < |order| && v in g.mlmi[order[j]].outputs;
    assert NodeOk(g.mlmi[order[j]]);
    assert g.back[v] == order[j];
    assert order[j] in order;
  }

  /** An emitted node only read cells that were ready. */
  lemma DoneWasReady(g: Graph, order: seq<nat>, ready: set<nat>, done: set<nat>, y: nat, v: nat)
    requires NodesOk(g) && Emitted(g, order, ready, done) && y in done && v in g.mlmi[y].inputs
    ensures v in ready
  {
    hide NodeOk;
    assert y in order;
    var i :| 0 <= i < |order| && order[i] == y;
    assert Before(g, order, i, v);
    assert Before(g, order, |order|, v);
  }

  lemma WaitingNext(g: Graph, order: seq<nat>, todo: set<nat>, ready: set<nat>, done: set<nat>, n: nat)
    requires Integral(g) && Emitted(g, order, ready, done) && Waiting(g, todo, ready, done) && n in todo && Ready(g.mlmi[n], ready)
    ensures Waiting(g, todo - {n} + Succ(g.fwd, n), ready + ToSet(g.mlmi[n].outputs), done + {n})
  {
    hide NodeOk; hide BackOk; hide AvailableOk; hide Emitted;
    forall y | y in Succ(g.fwd, n) ensures y in g.nodes && y !in done && y != n {
      var v :| v in g.mlmi[n].outputs && v in g.mlmi[y].inputs;
      if y in done { DoneWasReady(g, order, ready, done, y, v); }
      if v in ready { ReadyIsDone(g, order, ready, done, n, v); }
    }
    forall y | y in g.nodes && y !in done + {n} && Ready(g.mlmi[y], ready + ToSet(g.mlmi[n].outputs))
      ensures y in todo - {n} + Succ(g.fwd, n)
    {
      if !Ready(g.mlmi[y], ready) {
        var m :| m in g.mlmi[y].inputs && m !in ready;
        assert m in g.mlmi[n].outputs;
        assert Shares(g.mlmi[n], g.mlmi[y]);
      }
    }
  }

  lemma WaitingSkip(g: Graph, todo: set<nat>, ready: set<nat>, done: set<nat>, n: nat)
    requires NodesOk(g) && Waiting(g, todo, ready, done) && n in todo && !Ready(g.mlmi[n], ready)
    ensures Waiting(g, todo - {n}, ready, done)
  {
    hide NodeOk;
  }

  /** When nothing waits on an acyclic graph, every node has been emitted. */
  lemma AllDone(g: Graph, order: seq<nat>, ready: set<nat>, done: set<nat>)
    requires Integral(g) && Emitted(g, order, ready, done) && Waiting(g, {}, ready, done) && Acyclic(g.fwd)
    ensures g.nodes <= done
  {
    hide NodeOk; hide Acyclic; hide Emitted;
    var missing := g.nodes - done;
    if missing != {} {
      var n := HasFirst(g.fwd, g.nodes, missing);
      forall m | m in g.mlmi[n].inputs ensures m in ready {
        InputReady(g, order, ready, done, n, m);
      }
      assert false;
    }
  }

  lemma InputReady(g: Graph, order: seq<nat>, ready: set<nat>, done: set<nat>, n: nat, m: nat)
    requires Integral(g) && Emitted(g, order, ready, done) && n in g.nodes && m in g.mlmi[n].inputs
    requires forall x :: x in g.nodes && x !in done ==> n !in Succ(g.fwd, x)
    ensures m in ready
  {
    hide NodeOk;
    assert Available(g, m);
    if m in g.progInputs {
      assert Before(g, order, |order|, m);
    } else {
      var d := g.back[m];
      assert Shares(g.mlmi[d], g.mlmi[n]);
      assert n in Succ(g.fwd, d);
      assert d in order;
      var j :| 0 <= j < |order| && order[j] == d;
      assert Before(g, order, |order|, m);
    }
  }

  function IndexIn(order: seq<nat>, n: nat): (r: nat)
    ensures n in order ==> r < |order| && order[r] == n
  {
    if order == [] then 0 else if order[0] == n then 0 else 1 + IndexIn(order[1..], n)
  }

  lemma OutputAssigned(g: Graph, n: nat, v: nat)
    requires NodesOk(g) && BackOk(g) && n in g.nodes && v in g.mlmi[n].outputs
    ensures v in g.back && g.back[v] == n && v !in g.progInputs
  {
    assert NodeOk(g.mlmi[n]);
  }

  lemma EdgeShares(g: Graph, a: nat, b: nat) returns (v: nat)
    requires NodesOk(g) && FwdOk(g) && b in Succ(g.fwd, a)
    ensures a in g.nodes && b in g.nodes && v in g.mlmi[a].outputs && v in g.mlmi[b].inputs
  {
    hide NodeOk;
    assert a in g.fwd;
    assert Shares(g.mlmi[a], g.mlmi[b]);
    v :| v in g.mlmi[a].outputs && v in g.mlmi[b].inputs;
  }

  lemma ReadEarlier(g: Graph, order: seq<nat>, i: nat, v: nat) returns (j: nat)
    requires NodesOk(g) && IsOrder(g, order) && i < |order| && v in g.mlmi[order[i]].inputs && v !in g.progInputs
    ensures j < i && order[j] in g.nodes && v in g.mlmi[order[j]].outputs
  {
    hide NodeOk;
    assert Before(g, order, i, v);
    j :| 0 <= j < i && v in g.mlmi[order[j]].outputs;
  }

  lemma IndexUnique(g: Graph, order: seq<nat>, j: nat)
    requires NodesOk(g) && IsOrder(g, order) && j < |order|
    ensures IndexIn(order, order[j]) == j
  {
    hide NodeOk; hide IndexIn;
    assert order[j] in order;
    var k := IndexIn(order, order[j]);
    assert order[k] == order[j];
  }

  lemma InOrder(g: Graph, order: seq<nat>, n: nat)
    requires NodesOk(g) && IsOrder(g, order) && n in g.nodes
    ensures IndexIn(order, n) < |order| && order[IndexIn(order, n)] == n
  {
    hide NodeOk;
  }

  lemma EdgeForward(g: Graph, order: seq<nat>, a: nat, b: nat)
    requires Integral(g) && IsOrder(g, order) && b in Succ(g.fwd, a)
    ensures IndexIn(order, a) < IndexIn(order, b)
  {
    hide *;
    IntegralParts(g);
    var v := EdgeShares(g, a, b);
    OutputAssigned(g, a, v);
    InOrder(g, order, b);
    var j := ReadEarlier(g, order, IndexIn(order, b), v);
    OutputAssigned(g, order[j], v);
    IndexUnique(g, order, j);
  }

  /** A graph that has an order is acyclic. */
  lemma OrderIsAcyclic(g: Graph, order: seq<nat>)
    requires Integral(g) && IsOrder(g, order)
    ensures Acyclic(g.fwd)
  {
    hide Integral; hide IsOrder; hide Acyclic; hide IndexIn;
    forall a, b | b in Succ(g.fwd, a) ensures IndexIn(order, a) < IndexIn(order, b) { EdgeForward(g, order, a, b); }
    RankedIsAcyclic(g.fwd, (n: nat) => IndexIn(order, n));
  }

  lemma StartWaiting(g: Graph)
    requires Integral(g)
    ensures Emitted(g, [], g.progInputs, {})
    ensures var todo := (set n | n in g.nodes && Ready(g.mlmi[n], g.progInputs)); Waiting(g, todo, g.progInputs, {})
  {
    hide NodeOk;
  }

  lemma EndIsOrder(g: Graph, order: seq<nat>, ready: set<nat>, done: set<nat>)
    requires NodesOk(g) && Emitted(g, order, ready, done) && g.nodes <= done
    ensures IsOrder(g, order)
  {
    hide NodeOk;
  }

  /** `to_LLIR`: whatever is popped, it succeeds exactly on acyclic graphs, and then it emits every node exactly
      once, after everything the node reads. */
  method ToLlir(g: Graph) returns (r: Option<seq<nat>>)
    requires Integral(g)
    ensures r.Some? <==> Acyclic(g.fwd)
    ensures r.Some? ==> IsOrder(g, r.value)
  {
    hide *;
    IntegralParts(g);
    StartWaiting(g);
    NodesKnown(g);
    var ready := g.progInputs;
    var order: seq<nat> := [];
    var todo := set n | n in g.nodes && Ready(g.mlmi[n], ready);
    var done: set<nat> := {};
    while todo != {}
      invariant Emitted(g, order, ready, done) && Waiting(g, todo, ready, done)
      decreases g.nodes - done, todo
    {
      var node :| node in todo;
      WaitingNode(g, todo, ready, done, node);
      if Ready(g.mlmi[node], ready) {
        EmittedNext(g, order, ready, done, node);
        WaitingNext(g, order, todo, ready, done, node);
        ghost var before := g.nodes - done;
        order := order + [node];
        ready := ready + ToSet(g.mlmi[node].outputs);
        todo := todo - {node} + Succ(g.fwd, node);
        done := done + {node};
        assert node in before && g.nodes - done == before - {node};
      } else {
        WaitingSkip(g, todo, ready, done, node);
        todo := todo - {node};
      }
    }
    if !(g.nodes <= done) {
      if Acyclic(g.fwd) { AllDone(g, order, ready, done); }
      return None;
    }
    EndIsOrder(g, order, ready, done);
    OrderIsAcyclic(g, order);
    return Some(order);
  }

  lemma NodesKnown(g: Graph)
    requires NodesOk(g)
    ensures forall n :: n in g.nodes ==> n in g.mlmi
  {
  }

  lemma WaitingNode(g: Graph, todo: set<nat>, ready: set<nat>, done: set<nat>, n: nat)
    requires NodesOk(g) && Waiting(g, todo, ready, done) && n in todo
    ensures n in g.nodes && n !in done
  {
  }
}
