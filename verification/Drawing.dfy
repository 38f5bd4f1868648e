/** How a layered graph realizes a topology: the cells that its nodes read are the outputs the topology names. */
module Drawing {
  import opened Dfg
  import opened LayeredGraph
  import opened Topology

  // ----- flattened lists -----

  ghost predicate Known(st: St, layer: seq<nat>) {
    forall i :: 0 <= i < |layer| ==> layer[i] in st.g.mlmi
  }

  /** `[ m for mlmi in layer for m in mlmi.outputs ]`, and the same for inputs. */
  function Flat(st: St, layer: seq<nat>, outputs: bool): (r: seq<nat>)
    requires Known(st, layer)
  {
    if layer == [] then [] else
      var n := layer[|layer| - 1];
      Flat(st, layer[..|layer| - 1], outputs) + if outputs then st.g.mlmi[n].outputs else st.g.mlmi[n].inputs
  }

  // ----- sizes -----

  /** As many cells as a node can copy. */
  function Cap(lim: Limits): nat {
    if lim.lin <= lim.lout then lim.lin else lim.lout
  }

  function SizeOf(st: St, n: nat): Size {
    if n in st.g.mlmi then Size(|st.g.mlmi[n].inputs|, |st.g.mlmi[n].outputs|) else Size(0, 0)
  }

  function LayerSizes(st: St, layer: seq<nat>): (r: seq<Size>)
    ensures |r| == |layer| && forall i :: 0 <= i < |layer| ==> r[i] == SizeOf(st, layer[i])
  {
    seq(|layer|, i requires 0 <= i < |layer| => SizeOf(st, layer[i]))
  }

  /** Numbers of inputs and outputs of all nodes, layer by layer. */
  function SizesOf(st: St, layers: seq<seq<nat>>): (r: seq<seq<Size>>)
    ensures |r| == |layers| && forall l :: 0 <= l < |layers| ==> r[l] == LayerSizes(st, layers[l])
  {
    seq(|layers|, l requires 0 <= l < |layers| => LayerSizes(st, layers[l]))
  }

  lemma {:induction false} FlatSizes(st: St, layer: seq<nat>)
    requires Known(st, layer)
    ensures |Flat(st, layer, false)| == TotalIns(LayerSizes(st, layer)) && |Flat(st, layer, true)| == TotalOuts(LayerSizes(st, layer))
    decreases |layer|
  {
    if layer != [] {
      var k := |layer| - 1;
      FlatSizes(st, layer[..k]);
      assert LayerSizes(st, layer)[..k] == LayerSizes(st, layer[..k]);
    }
  }

  /** All nodes but `x` are as before. */
  ghost predicate OthersSame(s: St, t: St, x: nat) {
    forall y :: y in s.g.mlmi && y != x ==> y in t.g.mlmi && t.g.mlmi[y] == s.g.mlmi[y]
  }

  lemma OthersTrans(s: St, t: St, u: St, x: nat)
    requires OthersSame(s, t, x) && OthersSame(t, u, x)
    ensures OthersSame(s, u, x)
  {
  }

  lemma OthersSelf(s: St, x: nat)
    ensures OthersSame(s, s, x)
  {
  }

  /** One node was replaced. */
  lemma OthersUpdate(s: St, t: St, x: nat, mi: Mlmi)
    requires t.g.mlmi == s.g.mlmi[x := mi]
    ensures OthersSame(s, t, x) && x in t.g.mlmi && t.g.mlmi[x] == mi
  {
  }

  /** Layer `j` has the same nodes, of the same sizes. */
  ghost predicate KeptAt(s: St, t: St, j: nat) {
    j < |s.layers| && j < |t.layers| && t.layers[j] == s.layers[j] && LayerSizes(t, t.layers[j]) == LayerSizes(s, s.layers[j])
  }

  lemma KeptTrans(s: St, t: St, u: St, j: nat)
    requires KeptAt(s, t, j) && KeptAt(t, u, j)
    ensures KeptAt(s, u, j)
  {
    hide LayerSizes;
  }

  lemma KeptSizes(s: St, t: St, j: nat)
    requires KeptAt(s, t, j)
    ensures j < |s.layers| && j < |t.layers| && t.layers[j] == s.layers[j] && LayerSizes(t, t.layers[j]) == LayerSizes(s, s.layers[j])
  {
    hide LayerSizes;
  }

  lemma KeptSame(s: St, t: St, j: nat)
    requires j < |s.layers| && j < |t.layers| && t.layers[j] == s.layers[j]
    requires forall y :: y in s.layers[j] ==> (y in t.g.mlmi <==> y in s.g.mlmi) && (y in s.g.mlmi ==> t.g.mlmi[y] == s.g.mlmi[y])
    ensures KeptAt(s, t, j)
  {
    var a, b := LayerSizes(s, s.layers[j]), LayerSizes(t, t.layers[j]);
    forall i | 0 <= i < |a| ensures a[i] == b[i] { assert s.layers[j][i] in s.layers[j]; }
  }

  /** One more node at the end of a layer. */
  lemma SizesSnoc(s: St, t: St, layer: seq<nat>, x: nat)
    requires x in t.g.mlmi && x !in layer && (forall y :: y in layer ==> y in s.g.mlmi) && OthersSame(s, t, x)
    ensures LayerSizes(t, layer + [x]) == LayerSizes(s, layer) + [SizeOf(t, x)]
  {
    var a, b := LayerSizes(s, layer), LayerSizes(t, layer + [x]);
    forall i | 0 <= i < |a| ensures a[i] == b[i] { assert layer[i] in layer; }
  }

  /** One node of a layer has changed. */
  lemma SizesUpdate(s: St, t: St, layer: seq<nat>, i: nat)
    requires i < |layer| && NoRepeat(layer) && layer[i] in t.g.mlmi
    requires (forall y :: y in layer ==> y in s.g.mlmi) && OthersSame(s, t, layer[i])
    ensures LayerSizes(t, layer) == LayerSizes(s, layer)[i := SizeOf(t, layer[i])]
  {
    var a, b := LayerSizes(s, layer), LayerSizes(t, layer);
    forall j | 0 <= j < |a| && j != i ensures a[j] == b[j] { assert layer[j] in layer; }
  }

  // ----- cells and where they come from -----

  ghost predicate IsSource(st: St, m: nat, s: Source) {
    match s
    case Out(l, pos) => l < |st.layers| && Known(st, st.layers[l]) && pos < |Flat(st, st.layers[l], true)| && Flat(st, st.layers[l], true)[pos] == m
    case Program => m in st.g.progInputs
    case Blank => false
  }

  /** `s` names something before layer `at`. */
  predicate InFront(s: Source, at: nat) {
    s.Out? ==> s.layer < at
  }

  ghost predicate NodeDrawn(st: St, n: nat, w: Wiring, at: nat) {
    && n in st.g.mlmi && |st.g.mlmi[n].inputs| == |w.sources| && |st.g.mlmi[n].outputs| == w.outs
    && forall i :: 0 <= i < |w.sources| ==> InFront(w.sources[i], at) && IsSource(st, st.g.mlmi[n].inputs[i], w.sources[i])
  }

  ghost predicate LayerDrawn(st: St, l: nat, ws: seq<Wiring>) {
    l < |st.layers| && |st.layers[l]| == |ws| && forall i :: 0 <= i < |ws| ==> NodeDrawn(st, st.layers[l][i], ws[i], l)
  }

  /** The first layers of the graph are those of the topology. */
  ghost predicate Drawn(st: St, topo: seq<seq<Wiring>>) {
    |topo| <= |st.layers| && forall l :: 0 <= l < |topo| ==> LayerDrawn(st, l, topo[l])
  }

  /** All layers of the graph are those of the topology. */
  ghost predicate LaidOut(st: St, topo: seq<seq<Wiring>>) {
    |topo| == |st.layers| && Drawn(st, topo)
  }

  // ----- changes behind what is drawn -----

  /** The layers before `at` and their nodes are the same. */
  ghost predicate SameFront(s: St, t: St, at: nat) {
    && at <= |s.layers| && at <= |t.layers| && t.layers[..at] == s.layers[..at] && t.g.progInputs == s.g.progInputs
    && forall l, i :: 0 <= l < at && 0 <= i < |s.layers[l]| ==> SameNode(s, t, s.layers[l][i])
  }

  ghost predicate SameNode(s: St, t: St, n: nat) {
    n in s.g.mlmi ==> n in t.g.mlmi && t.g.mlmi[n] == s.g.mlmi[n]
  }

  lemma {:induction false} FlatKept(s: St, t: St, layer: seq<nat>, outputs: bool)
    requires Known(s, layer) && forall i :: 0 <= i < |layer| ==> SameNode(s, t, layer[i])
    ensures Known(t, layer) && Flat(t, layer, outputs) == Flat(s, layer, outputs)
    decreases |layer|
  {
    if layer != [] { FlatKept(s, t, layer[..|layer| - 1], outputs); }
  }

  lemma FrontAt(s: St, t: St, at: nat, l: nat)
    requires SameFront(s, t, at) && l < at
    ensures t.layers[l] == s.layers[l] && forall i :: 0 <= i < |s.layers[l]| ==> SameNode(s, t, s.layers[l][i])
  {
    hide SameNode;
    assert t.layers[..at][l] == s.layers[..at][l];
  }

  lemma SourceKept(s: St, t: St, at: nat, m: nat, src: Source)
    requires SameFront(s, t, at) && IsSource(s, m, src) && InFront(src, at)
    ensures IsSource(t, m, src)
  {
    if src.Out? {
      FrontAt(s, t, at, src.layer);
      hide SameFront; hide SameNode;
      FlatKept(s, t, s.layers[src.layer], true);
    }
  }

  lemma NodeKept(s: St, t: St, at: nat, n: nat, w: Wiring, l: nat)
    requires SameFront(s, t, at) && NodeDrawn(s, n, w, l) && l <= at && SameNode(s, t, n)
    ensures NodeDrawn(t, n, w, l)
  {
    hide SameFront; hide IsSource;
    forall i | 0 <= i < |w.sources| ensures IsSource(t, t.g.mlmi[n].inputs[i], w.sources[i]) { SourceKept(s, t, at, s.g.mlmi[n].inputs[i], w.sources[i]); }
  }

  lemma LayerKept(s: St, t: St, at: nat, l: nat, ws: seq<Wiring>)
    requires SameFront(s, t, at) && LayerDrawn(s, l, ws) && l < at
    ensures LayerDrawn(t, l, ws)
  {
    FrontAt(s, t, at, l);
    assert l < |t.layers| by { FrontSize(s, t, at); }
    hide SameFront; hide NodeDrawn;
    forall i | 0 <= i < |ws| ensures NodeDrawn(t, t.layers[l][i], ws[i], l) { NodeKept(s, t, at, s.layers[l][i], ws[i], l); }
  }

  lemma FrontSize(s: St, t: St, at: nat)
    requires SameFront(s, t, at)
    ensures at <= |s.layers| && at <= |t.layers|
  {
  }

  lemma DrawnKept(s: St, t: St, topo: seq<seq<Wiring>>)
    requires Drawn(s, topo) && SameFront(s, t, |topo|)
    ensures Drawn(t, topo)
  {
    hide LayerDrawn;
    FrontSize(s, t, |topo|);
    hide SameFront;
    forall l | 0 <= l < |topo| ensures LayerDrawn(t, l, topo[l]) { LayerKept(s, t, |topo|, l, topo[l]); }
  }

  lemma DrawnMore(st: St, topo: seq<seq<Wiring>>, ws: seq<Wiring>)
    requires Drawn(st, topo) && LayerDrawn(st, |topo|, ws)
    ensures Drawn(st, topo + [ws])
  {
    assert |topo| < |st.layers|;
    hide LayerDrawn;
  }

  lemma MakeLayerDrawn(st: St, l: nat, ws: seq<Wiring>)
    requires l < |st.layers| && |st.layers[l]| == |ws| && forall i :: 0 <= i < |ws| ==> NodeDrawn(st, st.layers[l][i], ws[i], l)
    ensures LayerDrawn(st, l, ws)
  {
    hide NodeDrawn;
  }
}
