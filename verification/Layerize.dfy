/** `layerize` of compiler/src/universalization/rectangularize.py: each node is put one layer after the last of its
    predecessors, in passes over the nodes that remain, in any iteration order. */
module Layerize {
  import opened Options
  import opened Graphs
  import opened Dfg
  import opened DfgSchedule

  /** `prev_nodes` */
  predicate IsPrev(g: Graph, n: nat, p: nat)
    requires n in g.mlmi
  {
    exists m :: m in g.mlmi[n].inputs && m in g.back && g.back[m] == p
  }

  function PrevSet(g: Graph, n: nat): (r: set<nat>)
    requires n in g.mlmi
    ensures forall p :: p in r <==> IsPrev(g, n, p)
  {
    set m | m in g.mlmi[n].inputs && m in g.back :: g.back[m]
  }

  lemma PrevIsPred(g: Graph, n: nat, p: nat)
    requires Integral(g) && n in g.nodes && IsPrev(g, n, p)
    ensures p in g.nodes && n in Succ(g.fwd, p)
  {
    hide NodeOk;
    var m :| m in g.mlmi[n].inputs && m in g.back && g.back[m] == p;
    assert Available(g, m);
    assert Shares(g.mlmi[p], g.mlmi[n]);
  }

  /** Layers grow along the graph, for the nodes that have one. */
  ghost predicate Partial(g: Graph, nl: map<nat, nat>)
    requires NodesOk(g)
  {
    && (forall n :: n in nl ==> n in g.nodes)
    && (forall n, p :: n in nl && IsPrev(g, n, p) ==> p in nl && nl[p] < nl[n])
    && (forall n :: n in nl && nl[n] > 0 ==> HasTight(g, nl, n))
  }

  /** Some predecessor is in the layer just before. */
  ghost predicate HasTight(g: Graph, nl: map<nat, nat>, n: nat)
    requires n in g.mlmi && n in nl
  {
    exists p :: IsPrev(g, n, p) && p in nl && nl[p] + 1 == nl[n]
  }

  /** The layer of a node from those of its predecessors; `None` when one of them has none. */
  method LayerFor(g: Graph, nl: map<nat, nat>, n: nat) returns (layer: Option<nat>)
    requires n in g.mlmi
    ensures layer.Some? <==> forall p :: IsPrev(g, n, p) ==> p in nl
    ensures layer.Some? ==> forall p :: IsPrev(g, n, p) ==> p in nl && nl[p] < layer.value
    ensures layer.Some? && layer.value > 0 ==> exists p :: IsPrev(g, n, p) && p in nl && nl[p] + 1 == layer.value
  {
    hide IsPrev;
    var l := 0;
    var prevs := PrevSet(g, n);
    var rest := prevs;
    while rest != {}
      invariant rest <= prevs && forall p :: p in prevs && p !in rest ==> p in nl && nl[p] < l
      invariant l > 0 ==> exists p :: p in prevs && p in nl && nl[p] + 1 == l
      decreases rest
    {
      var prev :| prev in rest;
      rest := rest - {prev};
      if prev !in nl {
        assert IsPrev(g, n, prev);
        return None;
      }
      if nl[prev] + 1 > l { l := nl[prev] + 1; }
    }
    return Some(l);
  }

  lemma PartialNext(g: Graph, nl: map<nat, nat>, n: nat, l: nat)
    requires NodesOk(g) && Partial(g, nl) && n in g.nodes && n !in nl
    requires (forall p :: IsPrev(g, n, p) ==> p in nl && nl[p] < l) && (l > 0 ==> exists p :: IsPrev(g, n, p) && p in nl && nl[p] + 1 == l)
    ensures Partial(g, nl[n := l])
  {
    hide NodeOk; hide IsPrev;
    var t := nl[n := l];
    forall y | y in t && t[y] > 0 ensures HasTight(g, t, y) {
      if y == n {
        var p :| IsPrev(g, n, p) && p in nl && nl[p] + 1 == l;
        assert t[p] + 1 == t[y];
      } else {
        assert HasTight(g, nl, y);
        var p :| IsPrev(g, y, p) && p in nl && nl[p] + 1 == nl[y];
        assert t[p] + 1 == t[y];
      }
    }
  }

  /** One pass; a node whose predecessors had layers at the start gets one. */
  method Pass(g: Graph, nl0: map<nat, nat>, toVisit: set<nat>) returns (nl: map<nat, nat>, toRemove: set<nat>)
    requires Integral(g) && NodesOk(g) && Partial(g, nl0) && toVisit == g.nodes - nl0.Keys
    ensures Partial(g, nl) && toRemove <= toVisit && nl.Keys == nl0.Keys + toRemove
    ensures forall n :: n in toVisit && (forall p :: p in PrevSet(g, n) ==> p in nl0) ==> n in toRemove
  {
    hide *;
    NodesKnown(g);
    nl, toRemove := nl0, {};
    var rest := toVisit;
    while rest != {}
      invariant rest <= toVisit && toRemove <= toVisit && rest !! toRemove && nl.Keys == nl0.Keys + toRemove && Partial(g, nl)
      invariant forall n :: n in toVisit && n !in rest && (forall p :: p in PrevSet(g, n) ==> p in nl0) ==> n in toRemove
      decreases rest
    {
      var node :| node in rest;
      rest := rest - {node};
      var layer := LayerFor(g, nl, node);
      if layer.Some? {
        PartialNext(g, nl, node, layer.value);
        nl := nl[node := layer.value];
        toRemove := toRemove + {node};
      }
    }
  }

  /** On an acyclic graph some remaining node has all its predecessors in layers. */
  lemma SomeReady(g: Graph, nl: map<nat, nat>, toVisit: set<nat>) returns (n: nat)
    requires Integral(g) && NodesOk(g) && Acyclic(g.fwd) && toVisit == g.nodes - nl.Keys && toVisit != {}
    ensures n in toVisit && n in g.mlmi && forall p :: p in PrevSet(g, n) ==> p in nl
  {
    hide *;
    NodesKnown(g);
    n := HasFirst(g.fwd, g.nodes, toVisit);
    forall p | p in PrevSet(g, n) ensures p in nl { PrevIsPred(g, n, p); }
  }

  ghost predicate InLayers(nl: map<nat, nat>, layers: seq<seq<nat>>) {
    && (forall n :: n in nl ==> nl[n] < |layers|)
    && (forall i, n :: 0 <= i < |layers| ==> (n in layers[i] <==> n in nl && nl[n] == i))
    && (forall i :: 0 <= i < |layers| ==> NoRepeat(layers[i]))
  }

  /** The lists of nodes, layer by layer. */
  method CollectLayers(nl: map<nat, nat>, last: nat) returns (layers: seq<seq<nat>>)
    requires forall n :: n in nl ==> nl[n] <= last
    ensures |layers| == last + 1 && InLayers(nl, layers)
  {
    layers := seq(last + 1, _ => []);
    var rest := nl.Keys;
    while rest != {}
      invariant |layers| == last + 1 && rest <= nl.Keys
      invariant forall i, n :: 0 <= i < |layers| ==> (n in layers[i] <==> n in nl && n !in rest && nl[n] == i)
      invariant forall i :: 0 <= i < |layers| ==> NoRepeat(layers[i])
      decreases rest
    {
      var node :| node in rest;
      rest := rest - {node};
      var l := nl[node];
      layers := layers[l := layers[l] + [node]];
    }
  }

  /** `layerize`: ends on every acyclic graph; a node's layer is the least one after all its predecessors. */
  method LayerNodes(g: Graph) returns (nl: map<nat, nat>, layers: seq<seq<nat>>)
    requires Integral(g) && NodesOk(g) && Acyclic(g.fwd)
    ensures nl.Keys == g.nodes && Partial(g, nl) && InLayers(nl, layers) && |layers| >= 1 && (g.nodes == {} ==> layers == [[]])
  {
    hide *;
    nl := map[];
    NothingLayered(g);
    var toVisit := g.nodes;
    while toVisit != {}
      invariant Partial(g, nl) && toVisit == g.nodes - nl.Keys && nl.Keys <= g.nodes
      decreases toVisit
    {
      ghost var n := SomeReady(g, nl, toVisit);
      var toRemove;
      nl, toRemove := Pass(g, nl, toVisit);
      assert n in toRemove;
      toVisit := toVisit - toRemove;
    }
    assert g.nodes == nl.Keys by { assert forall n :: n in g.nodes && n !in nl.Keys ==> n in toVisit; }
    var last := MaxLayer(nl);
    layers := CollectLayers(nl, last);
    if g.nodes == {} { NoLayers(nl, layers); }
  }

  lemma NoLayers(nl: map<nat, nat>, layers: seq<seq<nat>>)
    requires InLayers(nl, layers) && |layers| == 1 && nl.Keys == {}
    ensures layers == [[]]
  {
    assert forall n :: n in layers[0] ==> n in nl.Keys;
    SomeMember(layers[0]);
  }

  lemma SomeMember(s: seq<nat>)
    ensures s == [] || exists n :: n in s
  {
    if s != [] { assert s[0] in s; }
  }

  lemma NothingLayered(g: Graph)
    requires NodesOk(g)
    ensures Partial(g, map[])
  {
  }

  /** `last_layer` */
  method MaxLayer(nl: map<nat, nat>) returns (last: nat)
    ensures (forall n :: n in nl ==> nl[n] <= last) && (last > 0 ==> nl.Keys != {})
  {
    last := 0;
    var rest := nl.Keys;
    while rest != {}
      invariant rest <= nl.Keys && (forall n :: n in nl && n !in rest ==> nl[n] <= last) && (last > 0 ==> nl.Keys != {})
      decreases rest
    {
      var node :| node in rest;
      rest := rest - {node};
      if nl[node] > last { last := nl[node]; }
    }
  }
}
