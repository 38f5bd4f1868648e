/** `add_input_masking_layer` of compiler/src/universalization/universalizer.py: a first layer that copies the program
    inputs, which all other nodes then read instead. */
module Masking {
  import opened Dfg
  import opened Copies
  import opened Tracking
  import opened Layerize
  import opened LayeredGraph
  import opened Rectangularize
  import opened UniversalOps
  import opened Universalizer
  import opened Topology
  import opened Drawing

  /** `old_to_new_inputs`: each masked input has a copy of the same origin in layer 0. */
  ghost predicate MaskOk(st: St, rho: Origins, mask: map<nat, nat>)
    requires NodesOk(st.g) && BackOk(st.g)
  {
    forall m :: m in mask ==> m in st.g.progInputs && mask[m] < st.k && Available(st.g, mask[m]) && Level(st, mask[m]) == 0 && OriginOf(rho, mask[m]) == OriginOf(rho, m)
  }

  lemma MaskStays(s: St, t: St, rho: Origins, rho2: Origins, mask: map<nat, nat>, l: nat)
    requires NodesOk(s.g) && BackOk(s.g) && NodesOk(t.g) && BackOk(t.g) && MaskOk(s, rho, mask) && OnlyLayer(s, t, rho, rho2, l)
    requires (forall z: nat :: Available(s.g, z) && z < s.k ==> Available(t.g, z)) && forall m :: m in s.g.progInputs ==> m < s.k
    ensures MaskOk(t, rho2, mask)
  {
    hide NodeOk; hide BackOk; hide Available; hide Level; hide OriginOf;
  }

  lemma MaskMore(st: St, rho: Origins, mask: map<nat, nat>, m: nat, c: nat)
    requires NodesOk(st.g) && BackOk(st.g) && MaskOk(st, rho, mask)
    requires m in st.g.progInputs && c < st.k && Available(st.g, c) && Level(st, c) == 0 && OriginOf(rho, c) == OriginOf(rho, m)
    ensures MaskOk(st, rho, mask[m := c])
  {
    hide NodeOk; hide BackOk; hide Available; hide Level; hide OriginOf;
  }

  lemma InputsKnown(g0: Graph, first: nat, st: St, rho: Origins)
    requires Sound(g0, first, st, rho) && BackOk(st.g)
    ensures forall m :: m in st.g.progInputs ==> m < st.k && Available(st.g, m) && Level(st, m) == -1
  {
    SoundParts(g0, first, st, rho);
    TracksParts(g0, first, st.g, rho, st.k);
    hide Sound; hide Tracks; hide NodeOk; hide BackOk; hide FwdOk; hide Below; hide InLayers; hide Ordered; hide AvailableOk; hide OriginsOk; hide Carries;
  }

  /** A masking node: as many instructions as outputs, and inputs that are program inputs. */
  ghost predicate MaskNode(st: St, n: nat) {
    n in st.g.mlmi && |st.g.mlmi[n].instrs| == |st.g.mlmi[n].outputs| && |st.g.mlmi[n].inputs| <= |st.g.mlmi[n].outputs|
    && forall m :: m in st.g.mlmi[n].inputs ==> m in st.g.progInputs
  }

  ghost predicate MaskLayer(st: St) {
    forall n :: n in st.nl && st.nl[n] == 0 ==> MaskNode(st, n)
  }

  lemma MaskLayerNew(s: St, t: St, x: nat)
    requires MaskLayer(s) && t.nl.Keys == s.nl.Keys + {x} && x in t.nl && x in t.g.mlmi && t.g.mlmi[x] == Mlmi([], [], []) && (forall y :: y in s.nl ==> y in t.nl && t.nl[y] == s.nl[y])
    requires (forall y :: y in s.g.mlmi ==> y in t.g.mlmi && t.g.mlmi[y] == s.g.mlmi[y]) && t.g.progInputs == s.g.progInputs
    ensures MaskLayer(t)
  {
    forall n | n in t.nl && t.nl[n] == 0 ensures MaskNode(t, n) {
      if n != x { assert MaskNode(s, n); }
    }
  }

  lemma MaskLayerCopy(s: St, t: St, x: nat, c: nat, m: nat, zero: bool)
    requires MaskLayer(s) && t.nl == s.nl && x in s.nl && s.nl[x] == 0 && x in s.g.mlmi && t.g.mlmi == s.g.mlmi[x := CopiedNode(s.g.mlmi[x], c, m, zero)]
    requires t.g.progInputs == s.g.progInputs && (zero || m in s.g.progInputs)
    ensures MaskLayer(t)
  {
    forall n | n in t.nl && t.nl[n] == 0 ensures MaskNode(t, n) { assert MaskNode(s, n); }
  }

  lemma MaskSizes(st: St, n: nat)
    requires MaskLayer(st) && n in st.nl && st.nl[n] == 0
    ensures n in st.g.mlmi && |st.g.mlmi[n].instrs| == |st.g.mlmi[n].outputs| && |st.g.mlmi[n].inputs| <= |st.g.mlmi[n].outputs|
  {
    assert MaskNode(st, n);
  }

  /** The inner loop: fill one masking node. */
  method FillMaskNode(u: Universal, ghost g0: Graph, ghost first: nat, x: nat, mask0: map<nat, nat>, rest0: set<nat>) returns (mask: map<nat, nat>, rest: set<nat>)
    requires u.Valid(g0, first) && x in u.st.g.nodes && x in u.st.nl && u.st.nl[x] == 0 && x in u.st.g.mlmi && u.st.g.mlmi[x] == Mlmi([], [], []) && MaskLayer(u.st)
    requires NodesOk(u.st.g) && BackOk(u.st.g) && MaskOk(u.st, u.rho, mask0) && rest0 <= u.st.g.progInputs && rest0 != {}
    modifies u
    ensures u.Valid(g0, first) && OnlyLayer(old(u.st), u.st, old(u.rho), u.rho, 0) && rest < rest0 && mask.Keys == mask0.Keys + (rest0 - rest) && MaskLayer(u.st)
    ensures NodesOk(u.st.g) && BackOk(u.st.g) && MaskOk(u.st, u.rho, mask) && u.st.nl == old(u.st.nl) && x in u.st.g.mlmi && u.st.layers == old(u.st.layers)
    ensures MovedHere(u.st, x, |rest0|, |rest|, Cap(u.lim)) && OthersSame(old(u.st), u.st, x)
  {
    hide *;
    ghost var s0, r0 := u.st, u.rho;
    OnlyLayerSelf(u.st, u.rho, 0);
    u.ValidParts(g0, first);
    CapIs(u.lim);
    OthersSelf(s0, x);
    mask, rest := mask0, rest0;
    while rest != {} && |u.st.g.mlmi[x].inputs| < u.lim.lin && |u.st.g.mlmi[x].outputs| < u.lim.lout
      invariant u.Valid(g0, first) && OnlyLayer(s0, u.st, r0, u.rho, 0) && rest <= rest0 && mask.Keys == mask0.Keys + (rest0 - rest) && MaskLayer(u.st)
      invariant NodesOk(u.st.g) && BackOk(u.st.g) && MaskOk(u.st, u.rho, mask) && u.st.nl == s0.nl && x in u.st.g.mlmi && x in u.st.g.nodes
      invariant u.st.g.progInputs == s0.g.progInputs && u.st.layers == s0.layers
      invariant rest == rest0 ==> u.st.g.mlmi[x] == Mlmi([], [], [])
      invariant |u.st.g.mlmi[x].inputs| == |u.st.g.mlmi[x].outputs| == |rest0| - |rest| <= Cap(u.lim) && OthersSame(s0, u.st, x)
      decreases rest
    {
      ghost var s, r := u.st, u.rho;
      var m :| m in rest;
      u.ValidParts(g0, first);
      InputsKnown(g0, first, u.st, u.rho);
      MaskSizes(u.st, x);
      var c := u.Copy(g0, first, x, m, false);
      CopiedBoth(s.g.mlmi[x], c, m);
      OthersUpdate(s, u.st, x, CopiedNode(s.g.mlmi[x], c, m, false));
      OthersTrans(s0, s, u.st, x);
      MaskStays(s, u.st, r, u.rho, mask, 0);
      SameFor(s, u.st, r, u.rho, 0, m);
      MaskMore(u.st, u.rho, mask, m, c);
      MaskLayerCopy(s, u.st, x, c, m, false);
      OnlyLayerTrans(s0, s, u.st, r0, r, u.rho, 0);
      rest := rest - {m};
      mask := mask[m := c];
    }
    SizeIs(u.st, x);
    MakeMovedHere(u.st, x, |rest0|, |rest|, Cap(u.lim));
  }

  /** Node `x` copies `n - rest` cells: as many as there are, or as many as it can. */
  ghost predicate MovedHere(st: St, x: nat, n: nat, rest: nat, cap: nat) {
    rest <= n && SizeOf(st, x) == Size(n - rest, n - rest) && n - rest == if n <= cap then n else cap
  }

  lemma MakeMovedHere(st: St, x: nat, n: nat, rest: nat, cap: nat)
    requires rest <= n && SizeOf(st, x) == Size(n - rest, n - rest) && n - rest == if n <= cap then n else cap
    ensures MovedHere(st, x, n, rest, cap)
  {
    hide SizeOf;
  }

  lemma CapIs(lim: Limits)
    ensures Cap(lim) <= lim.lin && Cap(lim) <= lim.lout && (Cap(lim) == lim.lin || Cap(lim) == lim.lout)
  {
  }

  lemma SizeIs(st: St, x: nat)
    requires x in st.g.mlmi
    ensures SizeOf(st, x) == Size(|st.g.mlmi[x].inputs|, |st.g.mlmi[x].outputs|)
  {
  }

  lemma SameFor(s: St, t: St, rho: Origins, rho2: Origins, l: nat, m: nat)
    requires OnlyLayer(s, t, rho, rho2, l) && m < s.k
    ensures OriginOf(rho2, m) == OriginOf(rho, m) && Level(t, m) == Level(s, m) && t.g.progInputs == s.g.progInputs && t.g.progOutputs == s.g.progOutputs
  {
    hide Level; hide OriginOf;
  }

  /** The first loop: masking nodes until every program input has a copy. */
  method BuildMaskLayer(u: Universal, ghost g0: Graph, ghost first: nat) returns (mask: map<nat, nat>, x: nat)
    requires u.Valid(g0, first) && MaskLayer(u.st) && u.st.g.progInputs != {} && |u.st.layers| >= 1 && u.st.layers[0] == []
    modifies u
    ensures u.Valid(g0, first) && OnlyLayer(old(u.st), u.st, old(u.rho), u.rho, 0) && MaskLayer(u.st) && mask.Keys == u.st.g.progInputs
    ensures NodesOk(u.st.g) && BackOk(u.st.g) && MaskOk(u.st, u.rho, mask) && x in u.st.nl && u.st.nl[x] == 0 && x in u.st.g.nodes
    ensures Cap(u.lim) >= 1 && |u.st.layers| == |old(u.st.layers)| && LayerSizes(u.st, u.st.layers[0]) == ChunkSizes(|u.st.g.progInputs|, Cap(u.lim)) && u.st.layers[0] != [] && u.st.layers[0][0] == x
  {
    hide *;
    ghost var s0, r0 := u.st, u.rho;
    OnlyLayerSelf(u.st, u.rho, 0);
    u.ValidParts(g0, first);
    CapIs(u.lim);
    ghost var cap := Cap(u.lim);
    NoMask(u.st, u.rho);
    mask, x := map[], 0;
    var rest := u.st.g.progInputs;
    NoSizes(u.st, |rest|, cap);
    while rest != {}
      invariant u.Valid(g0, first) && OnlyLayer(s0, u.st, r0, u.rho, 0) && MaskLayer(u.st) && rest <= u.st.g.progInputs && mask.Keys == u.st.g.progInputs - rest
      invariant NodesOk(u.st.g) && BackOk(u.st.g) && MaskOk(u.st, u.rho, mask) && |u.st.layers| >= 1 && u.st.g.progInputs == s0.g.progInputs
      invariant rest != s0.g.progInputs ==> x in u.st.nl && u.st.nl[x] == 0 && x in u.st.g.nodes && u.st.layers[0] != [] && u.st.layers[0][0] == x
      invariant LayerSizes(u.st, u.st.layers[0]) + ChunkSizes(|rest|, cap) == ChunkSizes(|s0.g.progInputs|, cap) && |u.st.layers| == |s0.layers|
      invariant rest == s0.g.progInputs ==> u.st.layers[0] == []
      decreases rest
    {
      ghost var s, r := u.st, u.rho;
      u.ValidParts(g0, first);
      InputsKnown(g0, first, u.st, u.rho);
      LayerNodesKnown(g0, first, u.st, u.rho, 0);
      var node := u.Create(g0, first, 0);
      OnlyLayerIs(s, u.st, r, u.rho, 0);
      MaskStays(s, u.st, r, u.rho, mask, 0);
      MaskLayerNew(s, u.st, node);
      ghost var t := u.st;
      OnlyLayerTrans(s0, s, t, r0, r, u.rho, 0);
      if mask == map[] { x := node; }
      ghost var before := rest;
      mask, rest := FillMaskNode(u, g0, first, node, mask, rest);
      OnlyLayerIs(t, u.st, r, u.rho, 0);
      OnlyLayerTrans(s0, t, u.st, r0, r, u.rho, 0);
      CreatedOthers(s, t, u.st, node);
      SizesSnoc(s, u.st, s.layers[0], node);
      ChunksNext(u.st, node, LayerSizes(s, s.layers[0]), |before|, |rest|, cap);
      u.ValidParts(g0, first);
    }
    NoChunks(LayerSizes(u.st, u.st.layers[0]), cap);
  }

  lemma NoSizes(st: St, n: nat, cap: nat)
    requires |st.layers| >= 1 && st.layers[0] == [] && cap >= 1
    ensures LayerSizes(st, st.layers[0]) + ChunkSizes(n, cap) == ChunkSizes(n, cap)
  {
  }

  lemma NoChunks(sizes: seq<Size>, cap: nat)
    requires cap >= 1
    ensures sizes + ChunkSizes(0, cap) == sizes
  {
  }

  lemma CreatedOthers(s: St, t: St, u: St, x: nat)
    requires (forall y :: y in s.g.mlmi ==> y in t.g.mlmi && t.g.mlmi[y] == s.g.mlmi[y]) && OthersSame(t, u, x)
    ensures OthersSame(s, u, x)
  {
  }

  lemma ChunksNext(st: St, x: nat, sizes: seq<Size>, n: nat, rest: nat, cap: nat)
    requires cap >= 1 && n >= 1 && MovedHere(st, x, n, rest, cap)
    ensures sizes + ChunkSizes(n, cap) == sizes + [SizeOf(st, x)] + ChunkSizes(rest, cap)
  {
    hide SizeOf;
  }

  lemma NoMask(st: St, rho: Origins)
    requires NodesOk(st.g) && BackOk(st.g)
    ensures MaskOk(st, rho, map[])
  {
  }

  lemma OnlyLayerIs(s: St, t: St, rho: Origins, rho2: Origins, l: nat)
    requires OnlyLayer(s, t, rho, rho2, l)
    ensures s.k <= t.k && |t.layers| == |s.layers| && (forall y :: y in s.nl ==> y in t.nl && t.nl[y] == s.nl[y]) && (forall y :: y in t.nl && y !in s.nl ==> t.nl[y] == l)
    ensures (forall y :: y in s.g.mlmi && y in s.nl && s.nl[y] != l ==> y in t.g.mlmi && t.g.mlmi[y] == s.g.mlmi[y])
    ensures t.g.progInputs == s.g.progInputs && t.g.progOutputs == s.g.progOutputs
    ensures (forall j :: 0 <= j < |s.layers| && j != l ==> t.layers[j] == s.layers[j]) && Wider(s, t)
  {
    hide Level; hide OriginOf;
  }

  /** The padding of the first masking node with zeros. */
  method PadFirst(u: Universal, ghost g0: Graph, ghost first: nat, mask: map<nat, nat>, x: nat)
    requires u.Valid(g0, first) && MaskLayer(u.st) && NodesOk(u.st.g) && BackOk(u.st.g) && MaskOk(u.st, u.rho, mask) && x in u.st.nl && u.st.nl[x] == 0 && x in u.st.g.nodes
    modifies u
    ensures u.Valid(g0, first) && OnlyLayer(old(u.st), u.st, old(u.rho), u.rho, 0) && MaskLayer(u.st) && NodesOk(u.st.g) && BackOk(u.st.g) && MaskOk(u.st, u.rho, mask)
    ensures u.st.nl == old(u.st.nl) && x in u.st.g.mlmi && |u.st.g.mlmi[x].outputs| == u.lim.lout && u.st.g.nodes == old(u.st.g.nodes)
    ensures u.st.layers == old(u.st.layers) && x in old(u.st.g.mlmi) && u.st.g.mlmi[x].inputs == old(u.st.g.mlmi[x].inputs)
    ensures OthersSame(old(u.st), u.st, x)
  {
    hide *;
    ghost var s0, r0 := u.st, u.rho;
    OnlyLayerSelf(u.st, u.rho, 0);
    OthersSelf(s0, x);
    u.ValidParts(g0, first);
    MaskSizes(u.st, x);
    NodeWithinIs(u.st, x, u.lim);
    while |u.st.g.mlmi[x].outputs| != u.lim.lout
      invariant u.Valid(g0, first) && OnlyLayer(s0, u.st, r0, u.rho, 0) && MaskLayer(u.st) && NodesOk(u.st.g) && BackOk(u.st.g) && MaskOk(u.st, u.rho, mask)
      invariant u.st.nl == s0.nl && x in u.st.g.mlmi && |u.st.g.mlmi[x].outputs| <= u.lim.lout && u.st.g.nodes == s0.g.nodes
      invariant u.st.layers == s0.layers && u.st.g.mlmi[x].inputs == s0.g.mlmi[x].inputs && OthersSame(s0, u.st, x)
      decreases u.lim.lout - |u.st.g.mlmi[x].outputs|
    {
      ghost var s, r := u.st, u.rho;
      u.ValidParts(g0, first);
      InputsKnown(g0, first, u.st, u.rho);
      MaskSizes(u.st, x);
      var c := u.Copy(g0, first, x, 0, true);
      CopiedBoth(s.g.mlmi[x], c, 0);
      OthersUpdate(s, u.st, x, CopiedNode(s.g.mlmi[x], c, 0, true));
      OthersTrans(s0, s, u.st, x);
      MaskStays(s, u.st, r, u.rho, mask, 0);
      OnlyLayerIs(s, u.st, r, u.rho, 0);
      MaskLayerCopy(s, u.st, x, c, 0, true);
      OnlyLayerTrans(s0, s, u.st, r0, r, u.rho, 0);
    }
  }

  lemma NodeWithinIs(st: St, n: nat, lim: Limits)
    requires Within(st, lim) && n in st.g.nodes && n in st.g.mlmi
    ensures |st.g.mlmi[n].inputs| <= lim.lin && |st.g.mlmi[n].outputs| <= lim.lout && |st.g.mlmi[n].instrs| <= lim.s
  {
    assert NodeWithin(st.g.mlmi[n], lim);
  }

  // ----- reading the copies -----

  /** What a node may still read: the layer before it, or, in layer 1, program inputs among `rest`. */
  ghost predicate MaskPending(st: St, n: nat, rest: seq<nat>)
    requires n in st.g.mlmi && n in st.nl
  {
    forall m :: m in st.g.mlmi[n].inputs ==> Level(st, m) + 1 == st.nl[n] || (m in st.g.progInputs && st.nl[n] == 1 && m in rest)
  }

  lemma MaskPendingSkip(st: St, n: nat, inputs: seq<nat>, i: nat)
    requires n in st.g.mlmi && n in st.nl && i < |inputs| && MaskPending(st, n, inputs[i..])
    requires inputs[i] !in st.g.progInputs || inputs[i] !in st.g.mlmi[n].inputs
    ensures MaskPending(st, n, inputs[i + 1..])
  {
    hide Level;
    assert inputs[i..] == [inputs[i]] + inputs[i + 1..];
  }

  lemma MaskPendingRead(s: St, t: St, n: nat, m: nat, alt: nat, inputs: seq<nat>, i: nat)
    requires n in s.g.mlmi && n in s.nl && n in t.g.mlmi && n in t.nl && t.nl[n] == s.nl[n] && i < |inputs| && inputs[i] == m && MaskPending(s, n, inputs[i..])
    requires (forall z: nat :: Level(t, z) == Level(s, z)) && t.g.progInputs == s.g.progInputs
    requires t.g.mlmi[n].inputs == Replaced(s.g.mlmi[n].inputs, m, alt) && (m in s.g.mlmi[n].inputs ==> Level(t, alt) + 1 == t.nl[n])
    ensures MaskPending(t, n, inputs[i + 1..])
  {
    hide Level;
    assert inputs[i..] == [inputs[i]] + inputs[i + 1..];
    forall x | x in t.g.mlmi[n].inputs ensures Level(t, x) + 1 == t.nl[n] || (x in t.g.progInputs && t.nl[n] == 1 && x in inputs[i + 1..]) {
      ReplacedIn(s.g.mlmi[n].inputs, m, alt, x);
    }
  }

  lemma MaskPendingDone(st: St, n: nat, rest: seq<nat>)
    requires n in st.g.mlmi && n in st.nl && MaskPending(st, n, rest) && rest == []
    ensures NodeTight(st, n)
  {
    hide Level;
  }

  lemma MaskAt(st: St, rho: Origins, mask: map<nat, nat>, m: nat)
    requires NodesOk(st.g) && BackOk(st.g) && MaskOk(st, rho, mask) && m in mask
    ensures m in st.g.progInputs && Available(st.g, mask[m]) && Level(st, mask[m]) == 0 && OriginOf(rho, mask[m]) == OriginOf(rho, m)
  {
    hide NodeOk; hide BackOk; hide Available; hide Level; hide OriginOf;
  }

  lemma MaskKept(s: St, t: St, rho: Origins, mask: map<nat, nat>)
    requires NodesOk(s.g) && BackOk(s.g) && NodesOk(t.g) && BackOk(t.g) && MaskOk(s, rho, mask) && t.k == s.k && t.g.progInputs == s.g.progInputs
    requires (forall z: nat :: Level(t, z) == Level(s, z)) && (forall z: nat :: Available(s.g, z) ==> Available(t.g, z))
    ensures MaskOk(t, rho, mask)
  {
    hide NodeOk; hide BackOk; hide Available; hide Level; hide OriginOf;
  }

  lemma PendingRead(st: St, n: nat, rest: seq<nat>, m: nat)
    requires n in st.g.mlmi && n in st.nl && MaskPending(st, n, rest) && m in st.g.mlmi[n].inputs && Level(st, m) == -1 && st.nl[n] >= 1
    ensures st.nl[n] == 1
  {
    hide Level;
  }

  /** One node reads the copies of the program inputs it read. */
  method MaskOne(u: Universal, ghost g0: Graph, ghost first: nat, mask: map<nat, nat>, n: nat)
    requires u.Valid(g0, first) && NodesOk(u.st.g) && BackOk(u.st.g) && MaskOk(u.st, u.rho, mask) && mask.Keys == u.st.g.progInputs
    requires n in u.st.g.nodes && n in u.st.g.mlmi && n in u.st.nl && u.st.nl[n] >= 1 && MaskPending(u.st, n, u.st.g.mlmi[n].inputs)
    modifies u`st
    ensures u.Valid(g0, first) && NodesOk(u.st.g) && BackOk(u.st.g) && MaskOk(u.st, u.rho, mask) && mask.Keys == u.st.g.progInputs
    ensures n in u.st.g.mlmi && n in u.st.nl && NodeTight(u.st, n) && u.st.nl == old(u.st.nl) && u.st.layers == old(u.st.layers) && u.st.g.nodes == old(u.st.g.nodes)
    ensures (forall y :: y in old(u.st.g.mlmi) && y != n ==> y in u.st.g.mlmi && u.st.g.mlmi[y] == old(u.st.g.mlmi[y])) && (forall z: nat :: Level(u.st, z) == Level(old(u.st), z))
    ensures u.st.g.progOutputs == old(u.st.g.progOutputs) && u.st.k == old(u.st.k) && n in old(u.st.g.mlmi) && u.st.g.mlmi[n].outputs == old(u.st.g.mlmi[n].outputs)
    ensures NodesOk(old(u.st.g)) && BackOk(old(u.st.g)) && forall z: nat :: Available(old(u.st.g), z) ==> Available(u.st.g, z)
  {
    hide *;
    ghost var s0 := u.st;
    var inputs := u.st.g.mlmi[n].inputs;
    assert inputs[0..] == inputs;
    for i := 0 to |inputs|
      invariant u.Valid(g0, first) && NodesOk(u.st.g) && BackOk(u.st.g) && MaskOk(u.st, u.rho, mask) && mask.Keys == u.st.g.progInputs
      invariant n in u.st.g.mlmi && n in u.st.g.nodes && n in u.st.nl && u.st.nl == s0.nl && u.st.layers == s0.layers && u.st.g.nodes == s0.g.nodes && u.st.k == s0.k
      invariant u.st.g.progOutputs == s0.g.progOutputs && u.st.g.mlmi[n].outputs == s0.g.mlmi[n].outputs
      invariant (forall y :: y in s0.g.mlmi && y != n ==> y in u.st.g.mlmi && u.st.g.mlmi[y] == s0.g.mlmi[y]) && (forall z: nat :: Level(u.st, z) == Level(s0, z))
      invariant forall z: nat :: Available(s0.g, z) ==> Available(u.st.g, z)
      invariant MaskPending(u.st, n, inputs[i..])
    {
      var m := inputs[i];
      ghost var s := u.st;
      if m in mask && m in u.st.g.mlmi[n].inputs {
        u.ValidParts(g0, first);
        InputsKnown(g0, first, u.st, u.rho);
        MaskAt(u.st, u.rho, mask, m);
        PendingRead(u.st, n, inputs[i..], m);
        u.Read(g0, first, n, m, mask[m]);
        MaskKept(s, u.st, u.rho, mask);
        MaskPendingRead(s, u.st, n, m, mask[m], inputs, i);
      } else {
        MaskPendingSkip(u.st, n, inputs, i);
      }
    }
    MaskPendingDone(u.st, n, inputs[|inputs|..]);
  }

  // ----- the pass -----

  lemma InsertedPending(g0: Graph, first: nat, st: St, rho: Origins, n: nat)
    requires Sound(g0, first, st, rho) && BackOk(st.g) && AllTight(st) && n in st.g.nodes && n in st.g.mlmi
    ensures var t := InsertLayer(st, 0); n in t.nl && t.nl[n] >= 1 && t.g == st.g && MaskPending(t, n, t.g.mlmi[n].inputs)
  {
    SoundParts(g0, first, st, rho);
    InsertSound(g0, first, st, rho, 0);
    hide Sound; hide Tracks; hide NodeOk; hide BackOk; hide FwdOk; hide Below; hide InLayers; hide OriginsOk; hide Ordered;
    var t := InsertLayer(st, 0);
    assert NodeTight(st, n);
    forall m | m in st.g.mlmi[n].inputs ensures Level(t, m) + 1 == t.nl[n] || (m in t.g.progInputs && t.nl[n] == 1) {
      assert Available(st.g, m);
      LevelOfInput(st, m);
    }
  }

  /** An available cell before layer 0 is a program input. */
  lemma LevelOfInput(st: St, m: nat)
    requires NodesOk(st.g) && BackOk(st.g) && st.nl.Keys == st.g.nodes && Available(st.g, m)
    ensures Level(st, m) >= -1 && (Level(st, m) == -1 <==> m in st.g.progInputs)
  {
    hide NodeOk; hide Assigns;
  }

  lemma InsertedEmpty(st: St)
    ensures MaskLayer(InsertLayer(st, 0)) && InsertLayer(st, 0).layers[0] == [] && |InsertLayer(st, 0).layers| == |st.layers| + 1 && InsertLayer(st, 0).g == st.g && InsertLayer(st, 0).k == st.k && InsertLayer(st, 0).layers[1..] == st.layers
  {
  }

  lemma PendingStays(s: St, t: St, rho: Origins, rho2: Origins, n: nat)
    requires OnlyLayer(s, t, rho, rho2, 0) && n in s.g.mlmi && n in s.nl && s.nl[n] >= 1 && MaskPending(s, n, s.g.mlmi[n].inputs) && forall x :: x in s.g.mlmi[n].inputs ==> x < s.k
    ensures n in t.g.mlmi && n in t.nl && t.nl[n] == s.nl[n] && MaskPending(t, n, t.g.mlmi[n].inputs) && t.g.mlmi[n] == s.g.mlmi[n]
  {
    hide Level; hide OriginOf;
  }

  lemma PendingKept(s: St, t: St, n: nat)
    requires n in s.g.mlmi && n in s.nl && MaskPending(s, n, s.g.mlmi[n].inputs) && n in t.g.mlmi && t.g.mlmi[n] == s.g.mlmi[n] && t.nl == s.nl
    requires (forall z: nat :: Level(t, z) == Level(s, z)) && t.g.progInputs == s.g.progInputs
    ensures MaskPending(t, n, t.g.mlmi[n].inputs)
  {
    hide Level;
  }

  lemma TightKept(s: St, t: St, n: nat)
    requires n in s.g.mlmi && n in s.nl && NodeTight(s, n) && n in t.g.mlmi && t.g.mlmi[n] == s.g.mlmi[n] && t.nl == s.nl && forall z: nat :: Level(t, z) == Level(s, z)
    ensures NodeTight(t, n)
  {
    hide Level;
  }

  lemma MaskNodeTight(g0: Graph, first: nat, st: St, rho: Origins, n: nat)
    requires Sound(g0, first, st, rho) && BackOk(st.g) && MaskLayer(st) && n in st.nl && st.nl[n] == 0
    ensures n in st.g.mlmi && NodeTight(st, n)
  {
    hide Sound; hide NodeOk; hide Level; hide BackOk; hide Available;
    InputsKnown(g0, first, st, rho);
    assert MaskNode(st, n);
  }

  /** The program outputs after masking come from layers, not from the inputs. */
  lemma OutputsMasked(g0: Graph, first: nat, st: St, rho: Origins, mask: map<nat, nat>)
    requires Sound(g0, first, st, rho) && BackOk(st.g) && NodesOk(st.g) && MaskOk(st, rho, mask) && mask.Keys == st.g.progInputs
    ensures forall o :: o in RenamedOutputs(mask, st.g.progOutputs) ==> Level(st, o) >= 0
  {
    SoundParts(g0, first, st, rho);
    hide Sound; hide Tracks; hide NodeOk; hide Available; hide OriginOf; hide BackOk; hide FwdOk; hide Below; hide InLayers; hide Ordered; hide Level;
    var outs := RenamedOutputs(mask, st.g.progOutputs);
    forall i | 0 <= i < |outs| ensures Level(st, outs[i]) >= 0 {
      assert st.g.progOutputs[i] in st.g.progOutputs;
      LevelOfInput(st, st.g.progOutputs[i]);
    }
  }

  /** `add_input_masking_layer`: all layers are again tight, only the new first layer reads program inputs, one of its
      nodes has `l_out` outputs, and no program output is a program input. */
  method AddInputMaskingLayer(u: Universal, ghost g0: Graph, ghost first: nat) returns (x: nat)
    requires u.Valid(g0, first) && AllTight(u.st) && u.st.g.progInputs != {}
    modifies u
    ensures u.Valid(g0, first) && AllTight(u.st) && |u.st.layers| == |old(u.st.layers)| + 1
    ensures x in u.st.nl && u.st.nl[x] == 0 && x in u.st.g.mlmi && |u.st.g.mlmi[x].outputs| == u.lim.lout
    ensures (forall o :: o in u.st.g.progOutputs ==> Level(u.st, o) >= 0) && u.st.layers[1..] == old(u.st.layers) && forall n :: n in old(u.st.g.nodes) ==> n in u.st.nl && u.st.nl[n] >= 1
    ensures Cap(u.lim) >= 1 && u.st.g.progInputs == old(u.st.g.progInputs) && LayerSizes(u.st, u.st.layers[0]) == FirstSizes(|u.st.g.progInputs|, Cap(u.lim), u.lim.lout)
  {
    hide *;
    u.ValidParts(g0, first);
    ghost var s0 := u.st;
    forall n | n in s0.g.nodes ensures var t := InsertLayer(s0, 0); n in t.nl && t.nl[n] >= 1 && t.g == s0.g && MaskPending(t, n, t.g.mlmi[n].inputs) {
      InsertedPending(g0, first, s0, u.rho, n);
    }
    AllBelow(g0, first, s0, u.rho);
    InsertSound(g0, first, s0, u.rho, 0);
    InsertedEmpty(s0);
    InsertWithin(s0, 0, u.lim);
    u.st := InsertLayer(u.st, 0);
    u.MakeValid(g0, first);
    u.ValidParts(g0, first);
    ghost var s1, r1 := u.st, u.rho;
    var mask;
    mask, x := BuildMaskLayer(u, g0, first);
    ghost var s2, r2 := u.st, u.rho;
    u.ValidParts(g0, first);
    LayerNodesKnown(g0, first, s2, r2, 0);
    PadFirst(u, g0, first, mask, x);
    OnlyLayerIs(s2, u.st, r2, u.rho, 0);
    NoRepeatAt(s2, 0);
    FirstPadded(s2, u.st, x, Cap(u.lim), u.lim.lout);
    OnlyLayerIs(s2, u.st, r2, u.rho, 0);
    OnlyLayerTrans(s1, s2, u.st, r1, r2, u.rho, 0);
    OnlyLayerIs(s1, u.st, r1, u.rho, 0);
    assert u.st.layers[1..] == s1.layers[1..];
    ghost var s3 := u.st;
    u.ValidParts(g0, first);
    forall n | n in s0.g.nodes ensures n in s3.g.mlmi && n in s3.nl && s3.nl[n] >= 1 && MaskPending(s3, n, s3.g.mlmi[n].inputs) {
      PendingStays(s1, s3, r1, u.rho, n);
    }
    forall n | n in s3.nl && s3.nl[n] == 0 ensures n in s3.g.mlmi && NodeTight(s3, n) { MaskNodeTight(g0, first, s3, u.rho, n); }
    forall m | m in mask ensures Available(s3.g, mask[m]) && OriginOf(u.rho, mask[m]) == OriginOf(u.rho, m) { MaskAt(s3, u.rho, mask, m); }
    OutputsMasked(g0, first, s3, u.rho, mask);
    u.RenameOutputs(g0, first, mask);
    SetOutputsIs(s3, RenamedOutputs(mask, s3.g.progOutputs));
    ghost var s4 := u.st;
    MaskKept(s3, s4, u.rho, mask);
    forall n | n in s4.g.nodes && s4.nl[n] >= 1 ensures n in s4.g.mlmi && MaskPending(s4, n, s4.g.mlmi[n].inputs) { PendingKept(s3, s4, n); }
    forall n | n in s4.nl && s4.nl[n] == 0 ensures n in s4.g.mlmi && NodeTight(s4, n) { TightKept(s3, s4, n); }
    u.ValidParts(g0, first);
    LayerNodesKnown(g0, first, s4, u.rho, 0);
    RewireLayers(u, g0, first, mask);
    FirstUnchanged(s3, u.st);
    KeptSizes(s3, u.st, 0);
    SameInputs(g0, first, s0, r1);
    u.ValidParts(g0, first);
    SameInputs(g0, first, u.st, u.rho);
  }

  lemma NoRepeatAt(st: St, l: nat)
    requires InLayers(st.nl, st.layers) && l < |st.layers|
    ensures NoRepeat(st.layers[l])
  {
  }

  lemma SameInputs(g0: Graph, first: nat, st: St, rho: Origins)
    requires Sound(g0, first, st, rho)
    ensures st.g.progInputs == g0.progInputs && |st.g.progOutputs| == |g0.progOutputs|
  {
    hide *;
    SoundParts(g0, first, st, rho);
    TracksParts(g0, first, st.g, rho, st.k);
  }

  /** Padding changes the outputs of the first node only. */
  lemma FirstPadded(s: St, t: St, x: nat, cap: nat, lout: nat)
    requires |s.layers| >= 1 && t.layers == s.layers && s.layers[0] != [] && s.layers[0][0] == x && NoRepeat(s.layers[0]) && cap >= 1
    requires LayerSizes(s, s.layers[0]) == ChunkSizes(|s.g.progInputs|, cap) && t.g.progInputs == s.g.progInputs
    requires x in s.g.mlmi && x in t.g.mlmi && |t.g.mlmi[x].outputs| == lout && t.g.mlmi[x].inputs == s.g.mlmi[x].inputs && (forall y :: y in s.layers[0] ==> y in s.g.mlmi)
    requires OthersSame(s, t, x)
    ensures LayerSizes(t, t.layers[0]) == FirstSizes(|t.g.progInputs|, cap, lout)
  {
    SizesUpdate(s, t, s.layers[0], 0);
    var chunks := LayerSizes(s, s.layers[0]);
    assert chunks[0] == SizeOf(s, x);
    assert chunks[0 := SizeOf(t, x)] == [SizeOf(t, x)] + chunks[1..];
  }

  lemma FirstUnchanged(s: St, t: St)
    requires |s.layers| >= 1 && t.layers == s.layers && forall y :: y in s.layers[0] ==> y in s.g.mlmi && y in t.g.mlmi && t.g.mlmi[y] == s.g.mlmi[y]
    ensures KeptAt(s, t, 0)
  {
    KeptSame(s, t, 0);
  }

  lemma InsertWithin(st: St, at: nat, lim: Limits)
    requires Within(st, lim) && at <= |st.layers|
    ensures Within(InsertLayer(st, at), lim)
  {
    hide NodeWithin;
  }

  /** The last loop: every other node reads the copies. */
  method RewireLayers(u: Universal, ghost g0: Graph, ghost first: nat, mask: map<nat, nat>)
    requires u.Valid(g0, first) && NodesOk(u.st.g) && BackOk(u.st.g) && MaskOk(u.st, u.rho, mask) && mask.Keys == u.st.g.progInputs && u.st.nl.Keys == u.st.g.nodes
    requires forall n :: n in u.st.g.nodes && u.st.nl[n] >= 1 ==> n in u.st.g.mlmi && MaskPending(u.st, n, u.st.g.mlmi[n].inputs)
    requires forall n :: n in u.st.nl && u.st.nl[n] == 0 ==> n in u.st.g.mlmi && NodeTight(u.st, n)
    modifies u`st
    ensures u.Valid(g0, first) && AllTight(u.st) && u.st.nl == old(u.st.nl) && u.st.layers == old(u.st.layers) && u.st.g.progOutputs == old(u.st.g.progOutputs)
    ensures (forall z: nat :: Level(u.st, z) == Level(old(u.st), z)) && forall y :: y in old(u.st.g.mlmi) ==> y in u.st.g.mlmi && u.st.g.mlmi[y].outputs == old(u.st.g.mlmi[y].outputs)
    ensures forall y :: y in old(u.st.g.mlmi) && y in u.st.nl && u.st.nl[y] == 0 ==> y in u.st.g.mlmi && u.st.g.mlmi[y] == old(u.st.g.mlmi[y])
  {
    hide *;
    ghost var s0 := u.st;
    var rest := set n | n in u.st.nl && u.st.nl[n] >= 1;
    while rest != {}
      invariant u.Valid(g0, first) && NodesOk(u.st.g) && BackOk(u.st.g) && MaskOk(u.st, u.rho, mask) && mask.Keys == u.st.g.progInputs
      invariant u.st.nl == s0.nl && u.st.layers == s0.layers && u.st.g.nodes == s0.g.nodes && u.st.g.progOutputs == s0.g.progOutputs
      invariant (forall z: nat :: Level(u.st, z) == Level(s0, z)) && (forall y :: y in s0.g.mlmi ==> y in u.st.g.mlmi && u.st.g.mlmi[y].outputs == s0.g.mlmi[y].outputs)
      invariant rest <= u.st.g.nodes && forall n :: n in rest ==> n in u.st.g.mlmi && u.st.nl[n] >= 1 && MaskPending(u.st, n, u.st.g.mlmi[n].inputs)
      invariant forall n :: n in u.st.nl && n !in rest ==> n in u.st.g.mlmi && NodeTight(u.st, n)
      invariant forall y :: y in s0.g.mlmi && y in s0.nl && s0.nl[y] == 0 ==> y in u.st.g.mlmi && u.st.g.mlmi[y] == s0.g.mlmi[y]
      decreases rest
    {
      var node :| node in rest;
      ghost var s := u.st;
      MaskOne(u, g0, first, mask, node);
      rest := rest - {node};
      forall n | n in rest ensures n in u.st.g.mlmi && MaskPending(u.st, n, u.st.g.mlmi[n].inputs) { PendingKept(s, u.st, n); }
      forall n | n in u.st.nl && n !in rest ensures n in u.st.g.mlmi && NodeTight(u.st, n) {
        if n != node { TightKept(s, u.st, n); }
      }
    }
    MakeAllTight(u.st);
  }

  lemma MakeAllTight(st: St)
    requires forall n :: n in st.nl ==> n in st.g.mlmi && NodeTight(st, n)
    ensures AllTight(st)
  {
    hide NodeTight;
  }
}
