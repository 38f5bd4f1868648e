/** A dataflow graph in layers, and the steps from which the passes of compiler/src/universalization are made: a new
    node in a layer, a copy of an earlier cell in a node, and reading the copy instead of the original. */
module LayeredGraph {
  import opened IR
  import opened Graphs
  import opened Dfg
  import opened DfgSchedule
  import opened DfgMerge
  import opened Copies
  import opened Tracking
  import opened Layerize

  /** The graph, the nodes of each layer, the layer of each node, the first unused cell and the first unused node number. */
  datatype St = St(g: Graph, layers: seq<seq<nat>>, nl: map<nat, nat>, k: nat, nextId: nat)

  /** The layer that defines a cell; program inputs come before layer 0. */
  function Level(st: St, m: nat): int {
    if m in st.g.progInputs then -1 else if m in st.g.back && st.g.back[m] in st.nl then st.nl[st.g.back[m]] else -1
  }

  /** Every node reads earlier layers only. */
  ghost predicate Ordered(st: St)
    requires NodesOk(st.g) && st.nl.Keys == st.g.nodes
  {
    forall n, m :: n in st.g.nodes && m in st.g.mlmi[n].inputs ==> Level(st, m) < st.nl[n]
  }

  ghost predicate Numbered(st: St) {
    && st.nl.Keys == st.g.nodes && InLayers(st.nl, st.layers) && (forall n :: n in st.g.mlmi ==> n < st.nextId)
  }

  /** What every step keeps. */
  ghost predicate Sound(g0: Graph, first: nat, st: St, rho: Origins) {
    Tracks(g0, first, st.g, rho, st.k) && NodesOk(st.g) && Numbered(st) && Ordered(st)
  }

  /** The limits of the secure element; no output is listed twice. */
  ghost predicate NodeWithin(n: Mlmi, lim: Limits) {
    |n.inputs| <= lim.lin && |n.outputs| <= lim.lout && |n.instrs| <= lim.s && NoRepeat(n.outputs)
  }

  ghost predicate Within(st: St, lim: Limits) {
    forall n :: n in st.g.nodes && n in st.g.mlmi ==> NodeWithin(st.g.mlmi[n], lim)
  }

  lemma SoundParts(g0: Graph, first: nat, st: St, rho: Origins)
    requires Sound(g0, first, st, rho)
    ensures Tracks(g0, first, st.g, rho, st.k) && Integral(st.g) && NodesOk(st.g) && BackOk(st.g) && FwdOk(st.g) && AvailableOk(st.g)
    ensures Numbered(st) && st.nl.Keys == st.g.nodes && InLayers(st.nl, st.layers) && Ordered(st) && Below(st.g, st.k) && OriginsOk(rho, first, st.k) && first <= st.k
    ensures st.nextId !in st.g.mlmi
  {
    hide NodesOk; hide InLayers; hide Ordered; hide BackOk; hide FwdOk; hide AvailableOk; hide Below; hide OriginsOk; hide Tracks;
    TracksParts(g0, first, st.g, rho, st.k);
  }

  lemma MakeSound(g0: Graph, first: nat, st: St, rho: Origins)
    requires Tracks(g0, first, st.g, rho, st.k) && NodesOk(st.g) && Numbered(st) && Ordered(st)
    ensures Sound(g0, first, st, rho)
  {
    hide Tracks; hide NodesOk; hide Numbered; hide Ordered;
  }

  /** A cell of an earlier layer is not assigned by the node. */
  lemma EarlierUnassigned(st: St, n: nat, m: nat)
    requires NodesOk(st.g) && BackOk(st.g) && st.nl.Keys == st.g.nodes && n in st.g.nodes && Level(st, m) < st.nl[n]
    ensures !Assigns(st.g.mlmi[n].instrs, m)
  {
    hide NodeOk; hide Assigns;
  }

  lemma AvailableBelow(g: Graph, k: nat, m: nat)
    requires NodesOk(g) && BackOk(g) && Below(g, k) && Available(g, m)
    ensures m < k
  {
    hide NodeOk; hide NodeBelow; hide BackOk;
  }

  // ----- a new node -----

  function NewNode(st: St, l: nat): St
    requires l < |st.layers|
  {
    var x := st.nextId;
    St(Graph(st.g.nodes + {x}, st.g.mlmi[x := Mlmi([], [], [])], st.g.fwd, st.g.back, st.g.progInputs, st.g.progOutputs),
       st.layers[l := st.layers[l] + [x]], st.nl[x := l], st.k, x + 1)
  }

  lemma TracksNode(g0: Graph, first: nat, g: Graph, rho: Origins, k: nat, x: nat)
    requires Tracks(g0, first, g, rho, k) && x !in g.mlmi && x !in g.nodes
    ensures Tracks(g0, first, WithNode(g, x), rho, k)
  {
    hide *;
    var h := WithNode(g, x);
    TracksParts(g0, first, g, rho, k);
    AddNodeIntegral(g, x);
    IntegralParts(h);
    WithNodeParts(g, x);
    WithNodeBelow(g, x, k);
    forall ops: Ops, val: Env | Models(ops, g0, val) ensures Models(ops, h, Pull(val, rho)) {
      CarriesAt(g0, g, rho, ops, val);
      WithNodeModels(ops, g, x, Pull(val, rho));
    }
    EmptyReturns();
    ReturningChanged(g, h, x, Mlmi([], [], []));
    MakeTracks(g0, first, h, rho, k);
  }

  lemma EmptyReturns()
    ensures Returns(Mlmi([], [], []))
  {
  }

  lemma WithNodeParts(g: Graph, x: nat)
    ensures var h := WithNode(g, x); h.progInputs == g.progInputs && h.progOutputs == g.progOutputs && h.back == g.back && h.nodes == g.nodes + {x}
    ensures WithNode(g, x).mlmi == g.mlmi[x := Mlmi([], [], [])]
  {
  }

  lemma WithNodeBelow(g: Graph, x: nat, k: nat)
    requires NodesOk(g) && Below(g, k) && NodesOk(WithNode(g, x))
    ensures Below(WithNode(g, x), k)
  {
    hide NodeOk;
  }

  lemma WithNodeModels(ops: Ops, g: Graph, x: nat, val: Env)
    requires NodesOk(g) && NodesOk(WithNode(g, x)) && Models(ops, g, val)
    ensures Models(ops, WithNode(g, x), val)
  {
    hide NodeOk; hide Compute;
  }

  lemma NewNodeSound(g0: Graph, first: nat, st: St, rho: Origins, l: nat)
    requires Sound(g0, first, st, rho) && l < |st.layers|
    ensures Sound(g0, first, NewNode(st, l), rho)
    ensures forall m: nat :: Level(NewNode(st, l), m) == Level(st, m)
  {
    var t, x := NewNode(st, l), st.nextId;
    SoundParts(g0, first, st, rho);
    hide Sound; hide Tracks; hide Integral; hide BackOk; hide FwdOk; hide AvailableOk; hide Below; hide OriginsOk; hide NodeOk;
    TracksNode(g0, first, st.g, rho, st.k, x);
    assert t.g == WithNode(st.g, x);
    IntegralParts(t.g) by { TracksParts(g0, first, t.g, rho, t.k); }
    NewNodeNumbered(st, l);
    forall m: nat ensures Level(t, m) == Level(st, m) {
      if m in st.g.back { BackKnown(st, m); }
    }
    assert Ordered(t);
    MakeSound(g0, first, t, rho);
  }

  lemma BackKnown(st: St, m: nat)
    requires NodesOk(st.g) && BackOk(st.g) && m in st.g.back
    ensures st.g.back[m] in st.g.nodes
  {
    hide NodeOk; hide Assigns;
  }

  lemma NewNodeNumbered(st: St, l: nat)
    requires Numbered(st) && l < |st.layers| && st.nextId !in st.g.mlmi && st.nextId !in st.g.nodes
    ensures Numbered(NewNode(st, l))
  {
  }

  // ----- a copy of an earlier cell -----

  /** The new cell `k` in node `n`: a copy of `m`, or zero. The edge from the definition of `m` is added when `m` is a new input. */
  function CopyInto(st: St, n: nat, m: nat, zero: bool, front: bool, always: bool): St
    requires n in st.g.mlmi
  {
    var mi := st.g.mlmi[n];
    var i := if zero then MoveZero(st.k) else Move(st.k, m);
    var inputs := if zero then mi.inputs else WithInput(mi.inputs, m, always);
    var fwd := if zero || (!always && m in mi.inputs) then st.g.fwd else EdgeFor(st.g.fwd, st.g.back, st.g.progInputs, m, n);
    St(Graph(st.g.nodes, st.g.mlmi[n := Extended(mi, inputs, i, front)], fwd, st.g.back[st.k := n], st.g.progInputs, st.g.progOutputs),
       st.layers, st.nl, st.k + 1, st.nextId)
  }

  ghost predicate CanCopy(st: St, n: nat, m: nat, zero: bool)
    requires NodesOk(st.g) && BackOk(st.g) && st.nl.Keys == st.g.nodes
  {
    n in st.g.nodes && (zero || (Available(st.g, m) && Level(st, m) < st.nl[n]))
  }

  lemma CopyGood(g0: Graph, first: nat, st: St, rho: Origins, n: nat, m: nat, zero: bool, front: bool, always: bool)
    requires Sound(g0, first, st, rho) && BackOk(st.g) && CanCopy(st, n, m, zero)
    ensures var t := CopyInto(st, n, m, zero, front, always);
      Good(st.g, t.g, n, t.g.mlmi[n], {st.k}) && Tracks(g0, first, t.g, rho[st.k := if zero then Zero else OriginOf(rho, m)], t.k)
  {
    hide *;
    SoundParts(g0, first, st, rho);
    CanCopyParts(st, n, m, zero);
    var t := CopyInto(st, n, m, zero, front, always);
    var g, k, mi := st.g, st.k, st.g.mlmi[n];
    var i := if zero then MoveZero(k) else Move(k, m);
    var inputs := if zero then mi.inputs else WithInput(mi.inputs, m, always);
    CopyIs(st, n, m, zero, front, always);
    CopyInputs(g0, first, st, rho, n, m, zero, always, inputs);
    MakerIs(k, m);
    UnusedCell(g, k);
    CopyEdges(g0, first, st, rho, n, m, zero, front, always);
    ExtendGood(g, n, inputs, i, front, t.g.fwd);
    ChangeIntegral(g, t.g, n, t.g.mlmi[n], {k});
    TracksExtend(g0, first, g, rho, k, n, inputs, m, zero, front, t.g.fwd);
  }

  lemma CanCopyParts(st: St, n: nat, m: nat, zero: bool)
    requires NodesOk(st.g) && BackOk(st.g) && st.nl.Keys == st.g.nodes && CanCopy(st, n, m, zero)
    ensures n in st.g.nodes && n in st.g.mlmi && (zero || (Available(st.g, m) && Level(st, m) < st.nl[n]))
  {
    hide NodeOk; hide Available; hide Level; hide BackOk;
  }

  lemma CopyIs(st: St, n: nat, m: nat, zero: bool, front: bool, always: bool)
    requires n in st.g.mlmi
    ensures var t := CopyInto(st, n, m, zero, front, always);
      var i := if zero then MoveZero(st.k) else Move(st.k, m);
      var inputs := if zero then st.g.mlmi[n].inputs else WithInput(st.g.mlmi[n].inputs, m, always);
      && t.g == WithExtended(st.g, n, inputs, i, front, t.g.fwd) && n in t.g.mlmi && t.g.mlmi[n] == Extended(st.g.mlmi[n], inputs, i, front)
      && t.k == st.k + 1 && t.layers == st.layers && t.nl == st.nl && t.nextId == st.nextId && t.g.back == st.g.back[st.k := n]
  {
    hide Extended; hide EdgeFor; hide WithInput;
  }

  lemma CopyInputs(g0: Graph, first: nat, st: St, rho: Origins, n: nat, m: nat, zero: bool, always: bool, inputs: seq<nat>)
    requires Sound(g0, first, st, rho) && BackOk(st.g) && CanCopy(st, n, m, zero)
    requires inputs == if zero then st.g.mlmi[n].inputs else WithInput(st.g.mlmi[n].inputs, m, always)
    ensures forall x :: x in inputs ==> Available(st.g, x) && x < st.k && Level(st, x) < st.nl[n] && !Assigns(st.g.mlmi[n].instrs, x)
  {
    SoundParts(g0, first, st, rho);
    hide Sound; hide Tracks; hide FwdOk; hide Below; hide NodeOk; hide Assigns; hide Available; hide Level; hide InLayers;
    forall x | x in inputs ensures Available(st.g, x) && x < st.k && Level(st, x) < st.nl[n] && !Assigns(st.g.mlmi[n].instrs, x) {
      assert Available(st.g, x) && Level(st, x) < st.nl[n];
      AvailableBelow(st.g, st.k, x);
      EarlierUnassigned(st, n, x);
    }
  }

  lemma CopyEdges(g0: Graph, first: nat, st: St, rho: Origins, n: nat, m: nat, zero: bool, front: bool, always: bool)
    requires Sound(g0, first, st, rho) && BackOk(st.g) && CanCopy(st, n, m, zero)
    ensures var t := CopyInto(st, n, m, zero, front, always); EdgesFollow(st.g, t.g, n, t.g.mlmi[n])
  {
    SoundParts(g0, first, st, rho);
    hide Sound; hide Tracks; hide Below; hide NodeOk; hide Assigns; hide InLayers; hide EdgesFollow; hide EdgeFor; hide FwdOk; hide AvailableOk; hide BackOk; hide Available;
    var t := CopyInto(st, n, m, zero, front, always);
    if zero || (!always && m in st.g.mlmi[n].inputs) {
      SameEdgesFollow(st.g, t.g, n, t.g.mlmi[n]);
    } else {
      EarlierUnassigned(st, n, m);
      EdgeForFollows(st.g, t.g, n, t.g.mlmi[n], m);
    }
  }

  /** Copying a cell of an earlier layer into a node keeps everything; the copy belongs to the node's layer. */
  lemma CopySound(g0: Graph, first: nat, st: St, rho: Origins, n: nat, m: nat, zero: bool, front: bool, always: bool)
    requires Sound(g0, first, st, rho) && BackOk(st.g) && CanCopy(st, n, m, zero)
    ensures var t := CopyInto(st, n, m, zero, front, always);
      && Sound(g0, first, t, rho[st.k := if zero then Zero else OriginOf(rho, m)])
      && (forall x: nat :: x < st.k ==> Level(t, x) == Level(st, x)) && Level(t, st.k) == st.nl[n]
      && BackOk(t.g) && Available(t.g, st.k) && (forall x: nat :: Available(st.g, x) && x < st.k ==> Available(t.g, x))
  {
    hide *;
    SoundParts(g0, first, st, rho);
    CanCopyParts(st, n, m, zero);
    var t := CopyInto(st, n, m, zero, front, always);
    var rho2 := rho[st.k := if zero then Zero else OriginOf(rho, m)];
    CopyIs(st, n, m, zero, front, always);
    CopyGood(g0, first, st, rho, n, m, zero, front, always);
    TracksParts(g0, first, t.g, rho2, t.k);
    CopyLevels(g0, first, st, rho, n, m, zero, front, always);
    if !zero { AvailableBelow(st.g, st.k, m); }
    CopyOrdered(st, t, n, m, zero, front, always);
    CopyAvailable(g0, first, st, rho, n, m, zero, front, always, t);
    CopyNumbered(st, t, n, m, zero, front, always);
    MakeSound(g0, first, t, rho2);
  }

  lemma CopyNumbered(st: St, t: St, n: nat, m: nat, zero: bool, front: bool, always: bool)
    requires Numbered(st) && n in st.g.mlmi && t == CopyInto(st, n, m, zero, front, always)
    ensures Numbered(t) && t.nl.Keys == t.g.nodes
  {
    hide InLayers; hide Extended; hide EdgeFor;
  }

  lemma CopyLevels(g0: Graph, first: nat, st: St, rho: Origins, n: nat, m: nat, zero: bool, front: bool, always: bool)
    requires Sound(g0, first, st, rho) && BackOk(st.g) && CanCopy(st, n, m, zero)
    ensures var t := CopyInto(st, n, m, zero, front, always);
      (forall x: nat :: x < st.k ==> Level(t, x) == Level(st, x)) && Level(t, st.k) == st.nl[n]
  {
    SoundParts(g0, first, st, rho);
    hide Sound; hide Tracks; hide NodeOk; hide Assigns; hide InLayers; hide FwdOk; hide AvailableOk; hide Available; hide EdgeFor; hide Extended; hide NodeBelow; hide BackOk; hide NodesOk; hide Ordered; hide OriginsOk; hide Numbered;
  }

  lemma CopyOrdered(st: St, t: St, n: nat, m: nat, zero: bool, front: bool, always: bool)
    requires NodesOk(st.g) && st.nl.Keys == st.g.nodes && Ordered(st) && n in st.g.nodes && t == CopyInto(st, n, m, zero, front, always) && NodesOk(t.g)
    requires Below(st.g, st.k) && (forall x: nat :: x < st.k ==> Level(t, x) == Level(st, x))
    requires zero || (m < st.k && Level(st, m) < st.nl[n])
    ensures Ordered(t)
  {
    hide NodeOk; hide Level; hide EdgeFor;
    forall y, x | y in t.g.nodes && x in t.g.mlmi[y].inputs ensures Level(t, x) < t.nl[y] {
      if x in st.g.mlmi[y].inputs {
        assert NodeBelow(st.g.mlmi[y], st.k);
        assert Level(st, x) < st.nl[y];
      }
    }
  }

  lemma CopyAvailable(g0: Graph, first: nat, st: St, rho: Origins, n: nat, m: nat, zero: bool, front: bool, always: bool, t: St)
    requires Sound(g0, first, st, rho) && BackOk(st.g) && CanCopy(st, n, m, zero) && t == CopyInto(st, n, m, zero, front, always)
    requires Good(st.g, t.g, n, t.g.mlmi[n], {st.k}) && NodesOk(t.g) && BackOk(t.g)
    ensures Available(t.g, st.k) && (forall x: nat :: Available(st.g, x) && x < st.k ==> Available(t.g, x))
  {
    SoundParts(g0, first, st, rho);
    hide Sound; hide Good; hide NodeOk; hide EdgeFor; hide Level; hide BackOk; hide Tracks; hide FwdOk; hide AvailableOk; hide Below; hide InLayers; hide Ordered;
    assert t.g.back[st.k] == n && st.k in t.g.mlmi[n].outputs;
    forall x: nat | Available(st.g, x) && x < st.k ensures Available(t.g, x) { ChangedAvailable(st.g, t.g, n, t.g.mlmi[n], {st.k}, x); }
  }

  // ----- reading the copy -----

  function Replaced(inputs: seq<nat>, m: nat, alt: nat): (r: seq<nat>)
    ensures |r| == |inputs| && forall i :: 0 <= i < |inputs| ==> r[i] == if inputs[i] == m then alt else inputs[i]
  {
    seq(|inputs|, i requires 0 <= i < |inputs| => if inputs[i] == m then alt else inputs[i])
  }

  lemma ReplacedIn(inputs: seq<nat>, m: nat, alt: nat, x: nat)
    ensures x in Replaced(inputs, m, alt) <==> (x in inputs && x != m) || (x == alt && m in inputs)
  {
    var r := Replaced(inputs, m, alt);
    if x in inputs && x != m {
      var i :| 0 <= i < |inputs| && inputs[i] == x;
      assert r[i] == x;
    }
    if x == alt && m in inputs {
      var i :| 0 <= i < |inputs| && inputs[i] == m;
      assert r[i] == x;
    }
    if x in r {
      var i :| 0 <= i < |r| && r[i] == x;
      assert inputs[i] in inputs;
    }
  }

  /** The forward edges: one from the definition of `alt`, none from that of `m` unless another variable is shared. */
  function RewireEdges(g: Graph, n: nat, mi: Mlmi, m: nat, alt: nat): Edges
    requires m in g.back ==> g.back[m] in g.mlmi
  {
    var f := EdgeFor(g.fwd, g.back, g.progInputs, alt, n);
    if m in g.progInputs || m !in g.back || Shares(g.mlmi[g.back[m]], mi) then f else f[g.back[m] := Succ(f, g.back[m]) - {n}]
  }

  function ReadCopy(st: St, n: nat, m: nat, alt: nat): St
    requires n in st.g.mlmi && (m in st.g.back ==> st.g.back[m] in st.g.mlmi)
  {
    var mi := Rewired(st.g.mlmi[n], Replaced(st.g.mlmi[n].inputs, m, alt), map[m := alt]);
    st.(g := Graph(st.g.nodes, st.g.mlmi[n := mi], RewireEdges(st.g, n, mi, m, alt), st.g.back, st.g.progInputs, st.g.progOutputs))
  }

  ghost predicate CanRead(st: St, rho: Origins, n: nat, m: nat, alt: nat)
    requires NodesOk(st.g) && BackOk(st.g) && st.nl.Keys == st.g.nodes
  {
    && n in st.g.nodes && m in st.g.mlmi[n].inputs && Available(st.g, alt) && Level(st, alt) < st.nl[n] && alt != m
    && OriginOf(rho, alt) == OriginOf(rho, m) && Level(st, m) < st.nl[n] && Available(st.g, m)
  }

  lemma ReadEdges(st: St, n: nat, m: nat, alt: nat, mi: Mlmi, h: Graph)
    requires Integral(st.g) && st.nl.Keys == st.g.nodes && n in st.g.nodes && m in st.g.mlmi[n].inputs && alt != m
    requires Available(st.g, alt) && Available(st.g, m) && Level(st, alt) < st.nl[n] && Level(st, m) < st.nl[n]
    requires (forall x :: x in mi.inputs <==> (x in st.g.mlmi[n].inputs && x != m) || x == alt) && mi.outputs == st.g.mlmi[n].outputs
    requires (m in st.g.back ==> st.g.back[m] in st.g.mlmi) && h.fwd == RewireEdges(st.g, n, mi, m, alt)
    ensures EdgesFollow(st.g, h, n, mi)
  {
    hide *;
    IntegralParts(st.g);
    var g := st.g;
    forall a | a in g.nodes && a != n ensures a in g.mlmi && (n in Succ(h.fwd, a) <==> Shares(g.mlmi[a], mi)) {
      KnownNodes(g, a, n);
      ReadEdge(st, n, m, alt, mi, h, a);
    }
    OtherDefs(st, n, m);
    OtherDefs(st, n, alt);
    RewireOthers(g, n, mi, m, alt);
    MakeEdgesFollow(g, h, n, mi);
  }

  lemma OtherDefs(st: St, n: nat, m: nat)
    requires NodesOk(st.g) && BackOk(st.g) && st.nl.Keys == st.g.nodes && n in st.g.nodes && Level(st, m) < st.nl[n]
    ensures m in st.g.back && m !in st.g.progInputs ==> st.g.back[m] != n && st.g.back[m] in st.g.nodes
  {
    hide NodeOk; hide Assigns;
  }

  lemma RewireOthers(g: Graph, n: nat, mi: Mlmi, m: nat, alt: nat)
    requires NodesOk(g) && FwdOk(g) && n in g.nodes && (m in g.back ==> g.back[m] in g.mlmi)
    requires (m in g.back && m !in g.progInputs ==> g.back[m] != n && g.back[m] in g.nodes) && (alt in g.back && alt !in g.progInputs ==> g.back[alt] != n && g.back[alt] in g.nodes)
    ensures var f := RewireEdges(g, n, mi, m, alt);
      && (forall a :: a in f ==> a in g.nodes) && Succ(f, n) == Succ(g.fwd, n)
      && (forall a, b :: a in g.nodes && a != n && b != n ==> (b in Succ(f, a) <==> b in Succ(g.fwd, a)))
  {
    hide NodeOk; hide Shares;
  }

  lemma MakeEdgesFollow(g: Graph, h: Graph, n: nat, mi: Mlmi)
    requires NodesOk(g) && n in g.nodes && (forall a :: a in h.fwd ==> a in g.nodes) && Succ(h.fwd, n) == Succ(g.fwd, n)
    requires forall a, b :: a in g.nodes && a != n && b != n ==> (b in Succ(h.fwd, a) <==> b in Succ(g.fwd, a))
    requires forall a :: a in g.nodes && a != n ==> a in g.mlmi && (n in Succ(h.fwd, a) <==> Shares(g.mlmi[a], mi))
    ensures EdgesFollow(g, h, n, mi)
  {
    hide NodeOk; hide Shares;
  }

  lemma ReadEdge(st: St, n: nat, m: nat, alt: nat, mi: Mlmi, h: Graph, a: nat)
    requires Integral(st.g) && st.nl.Keys == st.g.nodes && n in st.g.nodes && m in st.g.mlmi[n].inputs && alt != m && a in st.g.nodes && a != n
    requires Available(st.g, alt) && Available(st.g, m) && Level(st, alt) < st.nl[n] && Level(st, m) < st.nl[n]
    requires forall x :: x in mi.inputs <==> (x in st.g.mlmi[n].inputs && x != m) || x == alt
    requires (m in st.g.back ==> st.g.back[m] in st.g.mlmi) && h.fwd == RewireEdges(st.g, n, mi, m, alt)
    ensures n in Succ(h.fwd, a) <==> Shares(st.g.mlmi[a], mi)
  {
    hide NodeOk; hide AvailableOk; hide Assigns; hide FwdOk;
    var g := st.g;
    EdgesIn(g, a, n);
    if m in g.mlmi[a].outputs { OutputAssigned(g, a, m); }
    if alt in g.mlmi[a].outputs { OutputAssigned(g, a, alt); }
    if m !in g.mlmi[a].outputs { ShareSwap(g.mlmi[a], g.mlmi[n], mi, m, alt); }
    if alt in g.mlmi[a].outputs { ShareBy2(g.mlmi[a], mi, alt); }
    hide Shares; hide BackOk;
  }

  lemma ShareBy2(a: Mlmi, b: Mlmi, v: nat)
    requires v in a.outputs && v in b.inputs
    ensures Shares(a, b)
  {
  }

  lemma ShareSwap(a: Mlmi, n: Mlmi, mi: Mlmi, m: nat, alt: nat)
    requires (forall x :: x in mi.inputs <==> (x in n.inputs && x != m) || x == alt) && m !in a.outputs
    ensures Shares(a, mi) <==> Shares(a, n) || alt in a.outputs
  {
  }

  /** Reading a copy of the same origin from an earlier layer keeps everything. */
  lemma ReadSound(g0: Graph, first: nat, st: St, rho: Origins, n: nat, m: nat, alt: nat)
    requires Sound(g0, first, st, rho) && BackOk(st.g) && CanRead(st, rho, n, m, alt)
    ensures (m in st.g.back ==> st.g.back[m] in st.g.mlmi) && Sound(g0, first, ReadCopy(st, n, m, alt), rho)
    ensures forall x: nat :: Level(ReadCopy(st, n, m, alt), x) == Level(st, x)
    ensures BackOk(ReadCopy(st, n, m, alt).g) && forall x: nat :: Available(st.g, x) ==> Available(ReadCopy(st, n, m, alt).g, x)
  {
    hide *;
    SoundParts(g0, first, st, rho);
    CanReadParts(st, rho, n, m, alt);
    if m in st.g.back { BackKnown(st, m); }
    KnownNodes(st.g, n, if m in st.g.back then st.g.back[m] else n);
    var t := ReadCopy(st, n, m, alt);
    var inputs, sigma := Replaced(st.g.mlmi[n].inputs, m, alt), map[m := alt];
    ReadIs(st, n, m, alt);
    var mi := t.g.mlmi[n];
    ReadInputs(st, rho, n, m, alt);
    forall x ensures x in inputs <==> (x in st.g.mlmi[n].inputs && x != m) || x == alt { ReplacedIn(st.g.mlmi[n].inputs, m, alt, x); }
    ReadEdges(st, n, m, alt, mi, t.g);
    forall x | x in inputs ensures Available(st.g, x) && !Assigns(st.g.mlmi[n].instrs, x) && x < st.k {
      EarlierUnassigned(st, n, x);
      AvailableBelow(st.g, st.k, x);
    }
    forall x | x in st.g.mlmi[n].inputs ensures Renamed(sigma, x) in inputs { RenamedOne(m, alt, x); }
    AvailableBelow(st.g, st.k, alt);
    RewireGood(st.g, n, inputs, sigma, t.g.fwd);
    ChangeIntegral(st.g, t.g, n, mi, {});
    TracksRewire(g0, first, st.g, rho, st.k, n, inputs, sigma, t.g.fwd);
    TracksParts(g0, first, t.g, rho, t.k);
    forall x: nat ensures Level(t, x) == Level(st, x) { LevelSame(st, t, x); }
    forall x: nat | Available(st.g, x) ensures Available(t.g, x) { ChangedAvailable(st.g, t.g, n, mi, {}, x); }
    ReadOrdered(st, t, n, m, alt);
    ReadNumbered(st, n, m, alt);
    MakeSound(g0, first, t, rho);
  }

  lemma CanReadParts(st: St, rho: Origins, n: nat, m: nat, alt: nat)
    requires NodesOk(st.g) && BackOk(st.g) && st.nl.Keys == st.g.nodes && CanRead(st, rho, n, m, alt)
    ensures n in st.g.nodes && n in st.g.mlmi && m in st.g.mlmi[n].inputs && Available(st.g, alt) && Level(st, alt) < st.nl[n] && alt != m
    ensures OriginOf(rho, alt) == OriginOf(rho, m) && Level(st, m) < st.nl[n] && Available(st.g, m)
  {
    hide NodeOk; hide Available; hide Level; hide BackOk; hide OriginOf;
  }

  lemma ReadIs(st: St, n: nat, m: nat, alt: nat)
    requires n in st.g.mlmi && (m in st.g.back ==> st.g.back[m] in st.g.mlmi)
    ensures var t := ReadCopy(st, n, m, alt);
      var mi := Rewired(st.g.mlmi[n], Replaced(st.g.mlmi[n].inputs, m, alt), map[m := alt]);
      && n in t.g.mlmi && t.g.mlmi[n] == mi && mi.inputs == Replaced(st.g.mlmi[n].inputs, m, alt) && mi.outputs == st.g.mlmi[n].outputs
      && t.g == WithRewired(st.g, n, Replaced(st.g.mlmi[n].inputs, m, alt), map[m := alt], t.g.fwd)
      && t.g.fwd == RewireEdges(st.g, n, mi, m, alt)
      && t.k == st.k && t.nl == st.nl && t.layers == st.layers && t.nextId == st.nextId && t.g.back == st.g.back && t.g.progInputs == st.g.progInputs
  {
    hide RewireEdges; hide RenamedAll;
  }

  lemma ReadInputs(st: St, rho: Origins, n: nat, m: nat, alt: nat)
    requires NodesOk(st.g) && BackOk(st.g) && AvailableOk(st.g) && st.nl.Keys == st.g.nodes && Ordered(st) && CanRead(st, rho, n, m, alt)
    ensures forall x :: x in Replaced(st.g.mlmi[n].inputs, m, alt) ==> Available(st.g, x) && Level(st, x) < st.nl[n]
  {
    hide NodeOk; hide BackOk; hide Available; hide Level;
    forall x | x in Replaced(st.g.mlmi[n].inputs, m, alt) ensures Available(st.g, x) && Level(st, x) < st.nl[n] {
      ReplacedIn(st.g.mlmi[n].inputs, m, alt, x);
    }
  }

  lemma RenamedOne(m: nat, alt: nat, x: nat)
    ensures Renamed(map[m := alt], x) == if x == m then alt else x
  {
  }

  lemma LevelSame(st: St, t: St, x: nat)
    requires t.nl == st.nl && t.g.back == st.g.back && t.g.progInputs == st.g.progInputs
    ensures Level(t, x) == Level(st, x)
  {
  }

  lemma ReadOrdered(st: St, t: St, n: nat, m: nat, alt: nat)
    requires NodesOk(st.g) && st.nl.Keys == st.g.nodes && Ordered(st) && n in st.g.mlmi && (m in st.g.back ==> st.g.back[m] in st.g.mlmi)
    requires t == ReadCopy(st, n, m, alt) && NodesOk(t.g) && n in st.g.nodes
    requires (forall x: nat :: Level(t, x) == Level(st, x)) && (forall x :: x in Replaced(st.g.mlmi[n].inputs, m, alt) ==> Level(st, x) < st.nl[n])
    ensures t.nl.Keys == t.g.nodes && Ordered(t)
  {
    hide NodeOk; hide Level; hide RewireEdges; hide RenamedAll;
  }

  lemma ReadNumbered(st: St, n: nat, m: nat, alt: nat)
    requires Numbered(st) && n in st.g.mlmi && (m in st.g.back ==> st.g.back[m] in st.g.mlmi)
    ensures Numbered(ReadCopy(st, n, m, alt))
  {
    hide InLayers; hide RewireEdges; hide Rewired;
  }
}
