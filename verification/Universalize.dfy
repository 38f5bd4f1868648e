/** `universalize` of compiler/src/universalization/universalizer.py: rectangularization, padding, masking, propagation of
    outputs, and routing networks, one after the other. */
module Universalize {
  import opened Options
  import opened IR
  import opened Graphs
  import opened Dfg
  import opened DfgSchedule
  import opened Copies
  import opened Tracking
  import opened Layerize
  import opened LayeredGraph
  import opened Rectangularize
  import opened UniversalOps
  import opened Universalizer
  import opened Masking
  import opened Propagation
  import opened Matching
  import opened Topology
  import opened Drawing
  import opened PermuteLayers
  import Bits

  /** `add_depth_padding`: one empty node per additional layer. */
  method AddDepthPadding(u: Universal, ghost g0: Graph, ghost first: nat, depth: nat)
    requires u.Valid(g0, first) && AllTight(u.st)
    modifies u
    ensures u.Valid(g0, first) && AllTight(u.st) && u.st.g.progInputs == old(u.st.g.progInputs) && |u.st.layers| >= |old(u.st.layers)|
    ensures (depth <= |old(u.st.layers)| ==> u.st == old(u.st)) && (depth > |old(u.st.layers)| ==> |u.st.layers| == depth) && (depth > |old(u.st.layers)| || old(u.st.g.nodes) != {} ==> u.st.g.nodes != {})
  {
    hide *;
    ghost var s0 := u.st;
    while |u.st.layers| < depth
      invariant u.Valid(g0, first) && AllTight(u.st) && u.st.g.progInputs == s0.g.progInputs && |u.st.layers| >= |s0.layers|
      invariant (|u.st.layers| <= depth || |u.st.layers| == |s0.layers|) && (|u.st.layers| == |s0.layers| ==> u.st == s0) && (|u.st.layers| > |s0.layers| || s0.g.nodes != {} ==> u.st.g.nodes != {})
      decreases depth - |u.st.layers|
    {
      u.ValidParts(g0, first);
      AppendedTight(g0, first, u.st, u.rho);
      InsertSound(g0, first, u.st, u.rho, |u.st.layers|);
      InsertWithin(u.st, |u.st.layers|, u.lim);
      var l := |u.st.layers|;
      u.st := InsertLayer(u.st, l);
      u.MakeValid(g0, first);
      u.ValidParts(g0, first);
      ghost var s, r := u.st, u.rho;
      AllBelow(g0, first, s, r);
      var x := u.Create(g0, first, l);
      OnlyLayerIs(s, u.st, r, r, l);
      TightNew(s, u.st, r, x, l);
    }
  }

  /** After rectangularization every node is tight. */
  lemma RectangularIsTight(g0: Graph, first: nat, st: St, rho: Origins)
    requires Sound(g0, first, st, rho) && NodesOk(st.g) && BackOk(st.g) && st.nl.Keys == st.g.nodes && Rectangular(st)
    ensures AllTight(st)
  {
    hide Sound; hide NodeOk; hide Assigns;
    forall n | n in st.g.nodes && n in st.g.mlmi && n in st.nl ensures NodeTight(st, n) { }
  }

  /** Program outputs are outputs of last-layer nodes only, and no node reads them. */
  ghost predicate OutputsLast(st: St)
    requires NodesOk(st.g) && BackOk(st.g) && st.nl.Keys == st.g.nodes
  {
    forall o :: o in st.g.progOutputs ==>
      && o in st.g.back && st.nl[st.g.back[o]] == |st.layers| - 1 && o in st.g.mlmi[st.g.back[o]].outputs
      && forall n :: n in st.g.nodes ==> o !in st.g.mlmi[n].inputs
  }

  lemma LastLayerOutputs(g0: Graph, first: nat, st: St, rho: Origins)
    requires Sound(g0, first, st, rho) && NodesOk(st.g) && BackOk(st.g) && st.nl.Keys == st.g.nodes && OutputsFrom(st, |st.layers| - 1) && |st.layers| >= 1
    ensures OutputsLast(st)
  {
    SoundParts(g0, first, st, rho);
    hide Sound; hide Tracks; hide NodeOk; hide FwdOk; hide Below; hide OriginsOk; hide Assigns;
    forall o | o in st.g.progOutputs
      ensures o in st.g.back && st.nl[st.g.back[o]] == |st.layers| - 1 && o in st.g.mlmi[st.g.back[o]].outputs
      ensures forall n :: n in st.g.nodes ==> o !in st.g.mlmi[n].inputs
    {
      assert Available(st.g, o) && Level(st, o) >= |st.layers| - 1;
      forall n | n in st.g.nodes ensures o !in st.g.mlmi[n].inputs {
        assert st.nl[n] < |st.layers|;
        if o in st.g.mlmi[n].inputs { InputKnown(g0, first, st, rho, n, o); }
      }
    }
  }

  /** The graph has the layers, nodes and edges of `count` layers of `w` full nodes each between `ins` masked inputs and
      `outs` revealed outputs, with a network between every two layers. */
  ghost predicate Uniform(st: St, le: nat, ins: nat, outs: nat, count: nat, w: nat) {
    le >= 1 && Bits.Pow2(le) >= 1 && LaidOut(st, Layout(le, PaddedSizes(Bits.Pow2(le), ins, outs, count, w)))
  }

  /** All that the universalized graph shows: the numbers of inputs and outputs, a depth and a width. */
  ghost predicate Universalized(st: St, le: nat, ins: nat, outs: nat, depth: nat, width: nat) {
    exists count, w :: count >= depth && w >= width && Uniform(st, le, ins, outs, count, w)
  }

  /** Two programs with as many inputs and distinct outputs, universalized to the same depth and width, become graphs that
      agree in everything but the instructions: layers, nodes, numbers of inputs and outputs, and where each input comes from. */
  lemma UniformAlike(a: St, b: St, le: nat, ins: nat, outs: nat, count: nat, w: nat)
    requires Uniform(a, le, ins, outs, count, w) && Uniform(b, le, ins, outs, count, w)
    ensures |a.layers| == |b.layers| && forall l :: 0 <= l < |a.layers| ==> AlikeAt(a, b, l)
  {
    hide Layout; hide PaddedSizes; hide NodeDrawn;
    var topo := Layout(le, PaddedSizes(Bits.Pow2(le), ins, outs, count, w));
    forall l | 0 <= l < |a.layers| ensures AlikeAt(a, b, l) {
      assert LayerDrawn(a, l, topo[l]) && LayerDrawn(b, l, topo[l]);
      forall i | 0 <= i < |a.layers[l]| ensures NodesAlike(a, b, a.layers[l][i], b.layers[l][i]) {
        NodesFrom(a, b, a.layers[l][i], b.layers[l][i], topo[l][i], l);
      }
    }
  }

  ghost predicate AlikeAt(a: St, b: St, l: nat) {
    l < |a.layers| && l < |b.layers| && |a.layers[l]| == |b.layers[l]| && forall i :: 0 <= i < |a.layers[l]| ==> NodesAlike(a, b, a.layers[l][i], b.layers[l][i])
  }

  /** The nodes have as many inputs and outputs, and each input comes from the same place. */
  ghost predicate NodesAlike(a: St, b: St, n: nat, m: nat) {
    && n in a.g.mlmi && m in b.g.mlmi && |a.g.mlmi[n].outputs| == |b.g.mlmi[m].outputs| && |a.g.mlmi[n].inputs| == |b.g.mlmi[m].inputs|
    && forall i :: 0 <= i < |a.g.mlmi[n].inputs| ==> SamePlace(a, b, a.g.mlmi[n].inputs[i], b.g.mlmi[m].inputs[i])
  }

  ghost predicate SamePlace(a: St, b: St, x: nat, y: nat) {
    exists s :: IsSource(a, x, s) && IsSource(b, y, s)
  }

  lemma NodesFrom(a: St, b: St, n: nat, m: nat, w: Wiring, l: nat)
    requires NodeDrawn(a, n, w, l) && NodeDrawn(b, m, w, l)
    ensures NodesAlike(a, b, n, m)
  {
    hide IsSource;
    forall i | 0 <= i < |w.sources| ensures SamePlace(a, b, a.g.mlmi[n].inputs[i], b.g.mlmi[m].inputs[i]) {
      assert IsSource(a, a.g.mlmi[n].inputs[i], w.sources[i]) && IsSource(b, b.g.mlmi[m].inputs[i], w.sources[i]);
    }
  }

  /** `universalize`, for every choice made on the way: when no pass raises, the graph is integral and acyclic, every node
      is within `l_in`, `l_out` and `s`, program outputs are produced only by nodes of the last layer and read by none,
      every model of the given graph carries over with the same outputs, and layers, nodes and edges depend on nothing but
      the numbers of inputs and outputs, the depth and the width. */
  method UniversalizeGraph(g: Graph, k: nat, nextId: nat, lim: Limits, le: nat, depth: nat, width: nat) returns (r: Option<St>, ghost rho: Origins)
    requires Integral(g) && NodesOk(g) && Acyclic(g.fwd) && Below(g, k) && (forall n :: n in g.mlmi ==> n < nextId) && (forall n :: n in g.nodes ==> NodeWithin(g.mlmi[n], lim))
    requires le >= 1 && lim.lin == lim.lout == Bits.Pow2(le) && lim.s >= lim.lin
    ensures r.Some? ==> g.progInputs != {} && Sound(g, k, r.value, rho) && NodesOk(r.value.g) && BackOk(r.value.g) && r.value.nl.Keys == r.value.g.nodes
    ensures r.Some? ==> Acyclic(r.value.g.fwd) && Within(r.value, lim) && OutputsLast(r.value)
    ensures r.Some? ==> Universalized(r.value, le, |g.progInputs|, |ToSet(g.progOutputs)|, depth, width)
    ensures r.Some? <==> g.progInputs != {} && (g.nodes != {} || g.progOutputs != [] || width > 0 || depth > 1)
  {
    hide *;
    rho := map[];
    if g.progInputs == {} { return None, rho; }
    var st;
    st, rho := Rectangularize.Rectangularize(g, k, nextId, lim);
    RectangularIsTight(g, k, st, rho);
    var u := new Universal(st, lim, rho);
    u.MakeValid(g, k);
    SameInputs(g, k, st, rho);
    AtLeastTwo(le);
    ghost var count, w := PadGraph(u, g, k, depth, width);
    ghost var full := u.st;
    KeepsParts(u, g, k);
    var ok := AddPermutation(u, g, k, le);
    if !ok { return None, rho; }
    u.ValidParts(g, k);
    SoundAcyclic(g, k, u.st, u.rho);
    LastLayerOutputs(g, k, u.st, u.rho);
    CapEqual(lim);
    MakeUniversalized(u.st, le, |g.progInputs|, |ToSet(g.progOutputs)|, depth, width, count, w);
    return Some(u.st), u.rho;
  }

  /** All passes between rectangularization and the networks. Afterwards the sizes of the nodes are known, and some layer
      gives the networks a position unless the program is empty and no padding was asked for. */
  method PadGraph(u: Universal, ghost g: Graph, ghost k: nat, depth: nat, width: nat) returns (ghost count: nat, ghost w: nat)
    requires u.Valid(g, k) && AllTight(u.st) && u.st.g.progInputs == g.progInputs != {} && u.lim.lin == u.lim.lout >= 2 && g.nodes <= u.st.g.nodes
    requires |u.st.layers| >= 1 && (g.nodes == {} ==> u.st.layers == [[]] && u.st.g.nodes == {})
    modifies u
    ensures Keeps(u, g, k) && |u.st.layers| == count + 2 && count >= depth && w >= width && Cap(u.lim) >= 1
    ensures SizesOf(u.st, u.st.layers) == PaddedSizes(Cap(u.lim), |g.progInputs|, |ToSet(g.progOutputs)|, count, w)
    ensures g.nodes != {} || g.progOutputs != [] || width > 0 || depth > 1 ==> WideEnough(u.st, u.st.layers, 0)
    ensures g.nodes == {} && g.progOutputs == [] && width == 0 && depth <= 1 ==> |u.st.layers| == 3 && u.st.layers[1] == [] && u.st.layers[2] == []
  {
    hide *;
    ghost var start := u.st;
    AddDepthPadding(u, g, k, depth);
    ghost var padded := u.st;
    var x := AddInputMaskingLayer(u, g, k);
    OutputsStart(u.st);
    u.ValidParts(g, k);
    SameInputs(g, k, u.st, u.rho);
    ghost var masked := u.st;
    PropagateOutputs(u, g, k);
    ghost var s := u.st;
    WiderAt(masked, s, x);
    MakeKeeps(u, g, k);
    u.ValidParts(g, k);
    if padded.g.nodes != {} {
      ghost var n :| n in padded.g.nodes;
      NodeStays(masked, s, n);
    }
    if masked.g.progOutputs != [] { OccupiedCrowds(s); }
    w := PadWidth(u, g, k, width, x);
    if Crowded(s) { CrowdedLayer(s, w); }
    EndSizes(masked, s, u.st);
    if g.nodes == {} && g.progOutputs == [] && width == 0 && depth <= 1 {
      assert |s.layers| == 3 && s.layers[1] == masked.layers[1..][0] && w == 0;
      assert u.st.layers[1] == [] && u.st.layers[2] == [];
    }
    KeepsParts(u, g, k);
    u.ValidParts(g, k);
    count := |padded.layers|;
    SizesPadded(u.st, u.lim, |g.progInputs|, |ToSet(g.progOutputs)|, count, w);
    if w > 0 { FullIsWide(g, k, u.st, u.rho, u.lim, x); }
  }

  /** `equalize_layers` and `match_layers_inputs_outputs`. */
  method PadWidth(u: Universal, ghost g: Graph, ghost k: nat, width: nat, x: nat) returns (w: nat)
    requires Keeps(u, g, k) && u.lim.lin == u.lim.lout >= 2 && |u.st.layers| >= 2
    requires x in u.st.nl && u.st.nl[x] == 0 && x in u.st.g.mlmi && |u.st.g.mlmi[x].outputs| >= u.lim.lin
    modifies u
    ensures Keeps(u, g, k) && |u.st.layers| == |old(u.st.layers)| && FullTo(u.st, u.lim, |u.st.layers| - 1) && u.st.g.progInputs == old(u.st.g.progInputs)
    ensures w >= width && forall j :: 1 <= j < |u.st.layers| - 1 ==> |u.st.layers[j]| == w && |old(u.st.layers)[j]| <= w
    ensures width == 0 && (forall j :: 1 <= j < |u.st.layers| - 1 ==> old(u.st.layers)[j] == []) ==> w == 0
    ensures x in u.st.nl && u.st.nl[x] == 0 && x in u.st.g.mlmi && |u.st.g.mlmi[x].outputs| >= u.lim.lin
    ensures KeptAt(old(u.st), u.st, 0) && KeptAt(old(u.st), u.st, |u.st.layers| - 1)
  {
    hide *;
    ghost var s := u.st;
    w := EqualizeLayers(u, g, k, width);
    ghost var even := u.st;
    WiderAt(s, even, x);
    KeepsParts(u, g, k);
    u.ValidParts(g, k);
    MatchLayers(u, g, k, x);
    WiderAt(even, u.st, x);
    KeptTrans(s, even, u.st, 0);
    KeptTrans(s, even, u.st, |s.layers| - 1);
  }

  lemma CapEqual(lim: Limits)
    requires lim.lin == lim.lout
    ensures Cap(lim) == lim.lin
  {
  }

  lemma MakeUniversalized(st: St, le: nat, ins: nat, outs: nat, depth: nat, width: nat, count: nat, w: nat)
    requires le >= 1 && Bits.Pow2(le) >= 1 && count >= depth && w >= width && LaidOut(st, Layout(le, PaddedSizes(Bits.Pow2(le), ins, outs, count, w)))
    ensures Universalized(st, le, ins, outs, depth, width)
  {
    hide LaidOut; hide Layout; hide PaddedSizes; hide Bits.Pow2;
    assert Uniform(st, le, ins, outs, count, w);
  }

  /** Padding the layers between leaves the first and the last as they were made. */
  lemma EndSizes(masked: St, s: St, full: St)
    requires KeptAt(masked, s, 0) && |s.layers| >= 2 && |s.layers| == |full.layers| && KeptAt(s, full, 0) && KeptAt(s, full, |s.layers| - 1)
    ensures |masked.layers| >= 1 && LayerSizes(full, full.layers[0]) == LayerSizes(masked, masked.layers[0])
    ensures LayerSizes(full, full.layers[|full.layers| - 1]) == LayerSizes(s, s.layers[|s.layers| - 1])
    ensures full.layers[|full.layers| - 1] == s.layers[|s.layers| - 1]
  {
    hide LayerSizes;
  }

  lemma FullSizes(st: St, lim: Limits, l: nat, w: nat)
    requires Full(st, lim, l) && |st.layers[l]| == w
    ensures LayerSizes(st, st.layers[l]) == seq(w, _ => Size(lim.lin, lim.lout))
  {
    var layer := st.layers[l];
    forall i | 0 <= i < w ensures SizeOf(st, layer[i]) == Size(lim.lin, lim.lout) { assert layer[i] in layer; }
  }

  lemma SizesPadded(st: St, lim: Limits, ins: nat, outs: nat, count: nat, w: nat)
    requires lim.lin == lim.lout && Cap(lim) >= 1 && |st.layers| == count + 2 && FullTo(st, lim, |st.layers| - 1) && forall j :: 1 <= j < |st.layers| - 1 ==> |st.layers[j]| == w
    requires LayerSizes(st, st.layers[0]) == FirstSizes(ins, Cap(lim), lim.lout) && LayerSizes(st, st.layers[count + 1]) == ChunkSizes(outs, Cap(lim))
    ensures SizesOf(st, st.layers) == PaddedSizes(Cap(lim), ins, outs, count, w)
  {
    hide LayerSizes; hide Full; hide FirstSizes; hide ChunkSizes;
    var a, b := SizesOf(st, st.layers), PaddedSizes(Cap(lim), ins, outs, count, w);
    assert |a| == |b|;
    forall j | 0 <= j < |a| ensures a[j] == b[j] {
      if 1 <= j <= count {
        assert Full(st, lim, j);
        FullSizes(st, lim, j, w);
      }
    }
  }

  lemma AtLeastTwo(le: nat)
    requires le >= 1
    ensures Bits.Pow2(le) >= 2
  {
    assert Bits.Pow2(le) == 2 * Bits.Pow2(le - 1);
  }

  /** Some node is between the first layer and the last. */
  ghost predicate Crowded(st: St) {
    exists n :: n in st.nl && 1 <= st.nl[n] < |st.layers| - 1
  }

  lemma NodeStays(s: St, t: St, n: nat)
    requires Wider(s, t) && n in s.nl && n in s.g.mlmi && InLayers(s.nl, s.layers) && s.nl[n] >= 1 && |t.layers| == |s.layers| + 1
    ensures Crowded(t)
  {
    assert n in t.nl && 1 <= t.nl[n] < |t.layers| - 1;
  }

  lemma CrowdedLayer(st: St, w: nat)
    requires Crowded(st) && InLayers(st.nl, st.layers) && forall j :: 1 <= j < |st.layers| - 1 ==> |st.layers[j]| <= w
    ensures w > 0
  {
    var n :| n in st.nl && 1 <= st.nl[n] < |st.layers| - 1;
    assert n in st.layers[st.nl[n]];
  }

  /** After padding, each layer but the last has at least two outputs. */
  lemma FullIsWide(g0: Graph, first: nat, st: St, rho: Origins, lim: Limits, x: nat)
    requires Sound(g0, first, st, rho) && |st.layers| >= 1 && FullTo(st, lim, |st.layers| - 1) && lim.lout >= 2
    requires x in st.nl && st.nl[x] == 0 && x in st.g.mlmi && |st.g.mlmi[x].outputs| >= 2 && forall j :: 1 <= j < |st.layers| - 1 ==> st.layers[j] != []
    ensures WideEnough(st, st.layers, 0)
  {
    SoundParts(g0, first, st, rho);
    hide Sound; hide Flat; hide Full; hide InLayers; hide FullTo;
    forall j | 0 <= j < |st.layers| - 1 ensures Known(st, st.layers[j]) && |Flat(st, st.layers[j], true)| >= 2 { FullLayer(g0, first, st, rho, lim, x, j); }
  }

  lemma FullLayer(g0: Graph, first: nat, st: St, rho: Origins, lim: Limits, x: nat, j: nat)
    requires Sound(g0, first, st, rho) && InLayers(st.nl, st.layers) && j < |st.layers| - 1 && FullTo(st, lim, |st.layers| - 1) && lim.lout >= 2
    requires x in st.nl && st.nl[x] == 0 && x in st.g.mlmi && |st.g.mlmi[x].outputs| >= 2 && (j >= 1 ==> st.layers[j] != [])
    ensures Known(st, st.layers[j]) && |Flat(st, st.layers[j], true)| >= 2
  {
    hide Sound; hide Flat; hide InLayers;
    LayerNodesKnown(g0, first, st, rho, j);
    InFirstLayer(st, x);
    assert j >= 1 ==> Full(st, lim, j);
    FlatLong(st, st.layers[j], if j == 0 then x else st.layers[j][0]);
  }

  lemma OccupiedCrowds(st: St)
    requires Occupied(st, |st.layers| - 2) && |st.layers| >= 3
    ensures Crowded(st)
  {
  }

  lemma OutputsStart(st: St)
    requires forall o :: o in st.g.progOutputs ==> Level(st, o) >= 0
    ensures OutputsFrom(st, 0)
  {
    hide Level;
  }

  lemma WiderAt(s: St, t: St, x: nat)
    requires Wider(s, t) && x in s.nl && x in s.g.mlmi
    ensures x in t.nl && t.nl[x] == s.nl[x] && x in t.g.mlmi && |t.g.mlmi[x].outputs| >= |s.g.mlmi[x].outputs|
  {
  }

  /** What the universalized program computes: emitted in any order that `to_LLIR` finds, its outputs are those of the
      graph it came from. */
  method EmitUniversal(g: Graph, k: nat, nextId: nat, lim: Limits, le: nat, depth: nat, width: nat) returns (r: Option<(St, seq<nat>)>)
    requires Integral(g) && NodesOk(g) && Acyclic(g.fwd) && Below(g, k) && (forall n :: n in g.mlmi ==> n < nextId) && (forall n :: n in g.nodes ==> NodeWithin(g.mlmi[n], lim))
    requires le >= 1 && lim.lin == lim.lout == Bits.Pow2(le) && lim.s >= lim.lin
    ensures r.Some? <==> g.progInputs != {} && (g.nodes != {} || g.progOutputs != [] || width > 0 || depth > 1)
    ensures r.Some? ==> NodesOk(r.value.0.g) && IsOrder(r.value.0.g, r.value.1) && |r.value.0.g.progOutputs| == |g.progOutputs|
    ensures r.Some? ==> Universalized(r.value.0, le, |g.progInputs|, |ToSet(g.progOutputs)|, depth, width)
    ensures r.Some? ==> forall ops: Ops, env: Env, val: Env, i :: 0 <= i < |g.progOutputs| && Models(ops, g, val) && AgreeOn(g.progInputs, env, val) ==>
      ListGives(ops, r.value.0.g, r.value.1, env, r.value.0.g.progOutputs[i], val(g.progOutputs[i]))
  {
    hide *;
    var u;
    ghost var rho;
    u, rho := UniversalizeGraph(g, k, nextId, lim, le, depth, width);
    if u.None? { return None; }
    var st := u.value;
    SoundParts(g, k, st, rho);
    TracksParts(g, k, st.g, rho, st.k);
    var order := ToLlir(st.g);
    forall ops: Ops, env: Env, val: Env, i | 0 <= i < |g.progOutputs| && Models(ops, g, val) && AgreeOn(g.progInputs, env, val)
      ensures ListGives(ops, st.g, order.value, env, st.g.progOutputs[i], val(g.progOutputs[i]))
    {
      AgreeIs(g.progInputs, env, val);
      TrackedOutputs(ops, g, k, st.g, rho, st.k, order.value, env, val, i);
      MakeListGives(ops, st.g, order.value, env, st.g.progOutputs[i]);
    }
    return Some((st, order.value));
  }

  ghost predicate AgreeOn(cells: set<nat>, env: Env, val: Env) {
    forall x :: x in cells ==> env(x) == val(x)
  }

  lemma AgreeIs(cells: set<nat>, env: Env, val: Env)
    requires AgreeOn(cells, env, val)
    ensures forall x :: x in cells ==> env(x) == val(x)
  {
  }
}
