/** `propagate_outputs_to_last_layer` of compiler/src/universalization/universalizer.py: the program outputs are copied
    from layer to layer, and a final layer returns them. */
module Propagation {
  import opened Options
  import opened Dfg
  import opened DfgSchedule
  import opened Copies
  import opened Tracking
  import opened Layerize
  import opened LayeredGraph
  import opened Rectangularize
  import opened UniversalOps
  import opened Universalizer
  import opened Masking
  import opened Topology
  import opened Drawing

  // ----- layers stay tight -----

  lemma TightCopy(s: St, t: St, rho: Origins, rho2: Origins, n: nat, c: nat, m: nat, zero: bool)
    requires AllTight(s) && n in s.nl && n in s.g.nodes && n in s.g.mlmi && OnlyLayer(s, t, rho, rho2, s.nl[n]) && t.nl == s.nl && t.g.nodes == s.g.nodes
    requires t.g.mlmi == s.g.mlmi[n := CopiedNode(s.g.mlmi[n], c, m, zero)] && (zero || (m < s.k && Level(s, m) + 1 == s.nl[n]))
    requires forall y, x :: y in s.g.nodes && y in s.g.mlmi && x in s.g.mlmi[y].inputs ==> x < s.k
    ensures AllTight(t)
  {
    hide Level; hide OriginOf;
    forall y | y in t.g.nodes && y in t.g.mlmi && y in t.nl ensures NodeTight(t, y) {
      assert NodeTight(s, y);
      forall x | x in t.g.mlmi[y].inputs ensures Level(t, x) + 1 == t.nl[y] {
        assert x in s.g.mlmi[y].inputs || (y == n && x == m && !zero);
      }
    }
  }

  lemma TightNew(s: St, t: St, rho: Origins, x: nat, l: nat)
    requires AllTight(s) && OnlyLayer(s, t, rho, rho, l) && t.nl.Keys == s.nl.Keys + {x} && x in t.g.mlmi && t.g.mlmi[x] == Mlmi([], [], []) && s.nl.Keys == s.g.nodes
    requires (forall y :: y in s.g.mlmi ==> y in t.g.mlmi && t.g.mlmi[y] == s.g.mlmi[y]) && (forall y :: y in s.nl ==> y in s.g.mlmi)
    requires forall y, z :: y in s.g.nodes && y in s.g.mlmi && z in s.g.mlmi[y].inputs ==> z < s.k
    ensures AllTight(t)
  {
    hide Level; hide OriginOf;
    forall y | y in t.g.nodes && y in t.g.mlmi && y in t.nl ensures NodeTight(t, y) {
      if y in s.nl { assert NodeTight(s, y); }
    }
  }

  // ----- one output -----

  predicate Roomy(n: Mlmi, lim: Limits) {
    |n.inputs| < lim.lin && |n.outputs| < lim.lout && |n.instrs| < lim.s
  }

  /** A node of the layer with room. */
  method FindRoomy(st: St, lim: Limits, l: nat) returns (r: Option<nat>)
    requires l < |st.layers| && forall y :: y in st.layers[l] ==> y in st.g.mlmi
    ensures r.Some? ==> r.value in st.layers[l] && Roomy(st.g.mlmi[r.value], lim)
    ensures r.None? ==> forall y :: y in st.layers[l] ==> !Roomy(st.g.mlmi[y], lim)
  {
    var layer := st.layers[l];
    for i := 0 to |layer|
      invariant forall j :: 0 <= j < i ==> !Roomy(st.g.mlmi[layer[j]], lim)
    {
      if Roomy(st.g.mlmi[layer[i]], lim) { return Some(layer[i]); }
    }
    return None;
  }

  // ----- how the outputs fill a new layer -----

  /** The nodes of layer `l` copy `c` cells, and all nodes but the last are full. */
  ghost predicate Chunked(st: St, l: nat, cap: nat, c: nat) {
    && cap >= 1 && l < |st.layers| && LayerSizes(st, st.layers[l]) == ChunkSizes(c, cap)
    && forall n :: n in st.layers[l] ==> n in st.g.mlmi && |st.g.mlmi[n].instrs| == |st.g.mlmi[n].outputs|
  }

  lemma ChunkedEmpty(st: St, l: nat, cap: nat)
    requires cap >= 1 && l < |st.layers| && st.layers[l] == []
    ensures Chunked(st, l, cap, 0)
  {
  }

  lemma ChunkedSizes(st: St, l: nat, cap: nat, c: nat)
    requires Chunked(st, l, cap, c)
    ensures cap >= 1 && l < |st.layers| && LayerSizes(st, st.layers[l]) == ChunkSizes(c, cap)
  {
    hide ChunkSizes; hide LayerSizes;
  }

  lemma ChunkedSame(s: St, t: St, l: nat, cap: nat, c: nat)
    requires t.layers == s.layers && t.g.mlmi == s.g.mlmi && Chunked(s, l, cap, c)
    ensures Chunked(t, l, cap, c)
  {
    hide ChunkSizes;
    assert LayerSizes(t, t.layers[l]) == LayerSizes(s, s.layers[l]);
  }

  /** One more of each. */
  ghost predicate Grown(n: Mlmi, mi: Mlmi) {
    |mi.inputs| == |n.inputs| + 1 && |mi.outputs| == |n.outputs| + 1 && |mi.instrs| == |n.instrs| + 1
  }

  /** A node with room is the last of a chunked layer. */
  lemma RoomyIsLast(st: St, l: nat, lim: Limits, c: nat, i: nat)
    requires Chunked(st, l, Cap(lim), c) && i < |st.layers[l]| && st.layers[l][i] in st.g.mlmi && Roomy(st.g.mlmi[st.layers[l][i]], lim)
    ensures i == |st.layers[l]| - 1 && LayerSizes(st, st.layers[l])[i].ins < Cap(lim) && LayerSizes(st, st.layers[l])[i] == SizeOf(st, st.layers[l][i])
  {
    hide ChunkSizes;
    ChunksAre(c, Cap(lim));
  }

  lemma NoneRoomy(st: St, l: nat, lim: Limits, c: nat)
    requires Chunked(st, l, Cap(lim), c) && lim.s >= Cap(lim) && forall y :: y in st.layers[l] ==> y in st.g.mlmi && !Roomy(st.g.mlmi[y], lim)
    ensures var s := ChunkSizes(c, Cap(lim)); s == [] || s[|s| - 1].ins == Cap(lim)
  {
    hide ChunkSizes;
    ChunksAre(c, Cap(lim));
    var layer := st.layers[l];
    if layer != [] {
      var n := layer[|layer| - 1];
      assert n in layer;
      assert LayerSizes(st, layer)[|layer| - 1] == SizeOf(st, n);
    }
  }

  lemma OneMoreCell(s: St, t: St, layer: seq<nat>, i: nat)
    requires NoRepeat(layer) && i < |layer| && (forall y :: y in layer ==> y in s.g.mlmi) && layer[i] in t.g.mlmi && OthersSame(s, t, layer[i])
    requires layer[i] in s.g.mlmi && Grown(s.g.mlmi[layer[i]], t.g.mlmi[layer[i]])
    ensures var z := SizeOf(s, layer[i]); LayerSizes(t, layer) == LayerSizes(s, layer)[i := Size(z.ins + 1, z.outs + 1)]
  {
    SizesUpdate(s, t, layer, i);
  }

  ghost predicate Balanced(st: St, layer: seq<nat>) {
    forall n :: n in layer ==> n in st.g.mlmi && |st.g.mlmi[n].instrs| == |st.g.mlmi[n].outputs|
  }

  lemma BalancedGrown(s: St, t: St, layer: seq<nat>, x: nat)
    requires Balanced(s, layer) && OthersSame(s, t, x) && x in t.g.mlmi && (x in layer ==> Grown(s.g.mlmi[x], t.g.mlmi[x]))
    ensures Balanced(t, layer)
  {
  }

  lemma ChunkedParts(st: St, l: nat, cap: nat, c: nat)
    requires Chunked(st, l, cap, c)
    ensures cap >= 1 && l < |st.layers| && LayerSizes(st, st.layers[l]) == ChunkSizes(c, cap) && Balanced(st, st.layers[l])
  {
    hide ChunkSizes; hide LayerSizes;
  }

  lemma MakeChunked(st: St, l: nat, cap: nat, c: nat)
    requires cap >= 1 && l < |st.layers| && LayerSizes(st, st.layers[l]) == ChunkSizes(c, cap) && Balanced(st, st.layers[l])
    ensures Chunked(st, l, cap, c)
  {
    hide ChunkSizes; hide LayerSizes;
  }

  lemma BalancedKnown(st: St, layer: seq<nat>)
    requires Balanced(st, layer)
    ensures forall y :: y in layer ==> y in st.g.mlmi
  {
  }

  lemma EqualSize(st: St, n: nat, c: nat, cap: nat, i: nat)
    requires cap >= 1 && i < |ChunkSizes(c, cap)| && ChunkSizes(c, cap)[i] == SizeOf(st, n) && i == |ChunkSizes(c, cap)| - 1
    ensures SizeOf(st, n).ins == SizeOf(st, n).outs
  {
    hide ChunkSizes; hide SizeOf;
    ChunksAre(c, cap);
  }

  /** A copy into a node with room. */
  lemma ChunkedTake(s: St, t: St, l: nat, lim: Limits, c: nat, n: nat)
    requires Chunked(s, l, Cap(lim), c) && n in s.layers[l] && n in s.g.mlmi && Roomy(s.g.mlmi[n], lim) && NoRepeat(s.layers[l]) && t.layers == s.layers
    requires OthersSame(s, t, n) && n in t.g.mlmi && Grown(s.g.mlmi[n], t.g.mlmi[n])
    ensures Chunked(t, l, Cap(lim), c + 1)
  {
    hide *;
    ChunkedParts(s, l, Cap(lim), c);
    var layer := s.layers[l];
    BalancedKnown(s, layer);
    var i :| 0 <= i < |layer| && layer[i] == n;
    RoomyIsLast(s, l, lim, c, i);
    SizesLength(s, layer);
    EqualSize(s, n, c, Cap(lim), i);
    OneMoreCell(s, t, layer, i);
    ChunksGrow(c, Cap(lim));
    BalancedGrown(s, t, layer, n);
    MakeChunked(t, l, Cap(lim), c + 1);
  }

  lemma SizesLength(st: St, layer: seq<nat>)
    ensures |LayerSizes(st, layer)| == |layer|
  {
    hide SizeOf;
  }

  /** A copy into a new node, when no other has room. */
  lemma ChunkedCreate(s: St, t: St, l: nat, lim: Limits, c: nat, x: nat)
    requires Chunked(s, l, Cap(lim), c) && lim.s >= Cap(lim) && forall y :: y in s.layers[l] ==> y in s.g.mlmi && !Roomy(s.g.mlmi[y], lim)
    requires x !in s.g.mlmi && OthersSame(s, t, x) && x in t.g.mlmi && Grown(Mlmi([], [], []), t.g.mlmi[x]) && l < |t.layers| && t.layers[l] == s.layers[l] + [x]
    ensures Chunked(t, l, Cap(lim), c + 1)
  {
    hide *;
    ChunkedParts(s, l, Cap(lim), c);
    var layer := s.layers[l];
    BalancedKnown(s, layer);
    NoneRoomy(s, l, lim, c);
    assert x !in layer;
    SizesSnoc(s, t, layer, x);
    OneCell(t, x);
    ChunksGrow(c, Cap(lim));
    BalancedSnoc(s, t, layer, x);
    MakeChunked(t, l, Cap(lim), c + 1);
  }

  lemma OneCell(st: St, x: nat)
    requires x in st.g.mlmi && Grown(Mlmi([], [], []), st.g.mlmi[x])
    ensures SizeOf(st, x) == Size(1, 1) && |st.g.mlmi[x].instrs| == |st.g.mlmi[x].outputs|
  {
  }

  lemma BalancedSnoc(s: St, t: St, layer: seq<nat>, x: nat)
    requires Balanced(s, layer) && OthersSame(s, t, x) && x !in layer && x in t.g.mlmi && |t.g.mlmi[x].instrs| == |t.g.mlmi[x].outputs|
    ensures Balanced(t, layer + [x])
  {
  }

  lemma CapFits(lim: Limits)
    requires lim.lin >= 1 && lim.lout >= 1 && lim.s >= lim.lin
    ensures 1 <= Cap(lim) <= lim.s
  {
  }

  /** `new_outputs`: for outputs of the layer before, their copies in this layer. */
  ghost predicate MovedOk(st: St, rho: Origins, moved: map<nat, nat>, l: nat)
    requires NodesOk(st.g) && BackOk(st.g)
  {
    forall m :: m in moved ==> m < st.k && moved[m] < st.k && Available(st.g, moved[m]) && Level(st, moved[m]) == l && OriginOf(rho, moved[m]) == OriginOf(rho, m)
  }

  lemma MovedStays(s: St, t: St, rho: Origins, rho2: Origins, moved: map<nat, nat>, l: nat)
    requires NodesOk(s.g) && BackOk(s.g) && NodesOk(t.g) && BackOk(t.g) && MovedOk(s, rho, moved, l) && OnlyLayer(s, t, rho, rho2, l)
    requires forall z: nat :: Available(s.g, z) && z < s.k ==> Available(t.g, z)
    ensures MovedOk(t, rho2, moved, l)
  {
    hide NodeOk; hide BackOk; hide Available; hide Level; hide OriginOf;
  }

  lemma MovedMore(st: St, rho: Origins, moved: map<nat, nat>, l: nat, m: nat, c: nat)
    requires NodesOk(st.g) && BackOk(st.g) && MovedOk(st, rho, moved, l) && m < st.k && c < st.k && Available(st.g, c) && Level(st, c) == l && OriginOf(rho, c) == OriginOf(rho, m)
    ensures MovedOk(st, rho, moved[m := c], l)
  {
    hide NodeOk; hide BackOk; hide Available; hide Level; hide OriginOf;
  }

  /** A cell that can be taken into layer `l`. */
  ghost predicate Takeable(st: St, m: nat, l: nat)
    requires NodesOk(st.g) && BackOk(st.g)
  {
    m < st.k && Available(st.g, m) && Level(st, m) + 1 == l
  }

  lemma TakeableStays(s: St, t: St, rho: Origins, rho2: Origins, m: nat, l: nat)
    requires NodesOk(s.g) && BackOk(s.g) && NodesOk(t.g) && BackOk(t.g) && OnlyLayer(s, t, rho, rho2, l) && Takeable(s, m, l)
    requires forall z: nat :: Available(s.g, z) && z < s.k ==> Available(t.g, z)
    ensures Takeable(t, m, l)
  {
    hide NodeOk; hide BackOk; hide Available; hide Level; hide OriginOf;
  }

  /** `add_input_output_to_node` on a node with room. */
  method TakeInto(u: Universal, ghost g0: Graph, ghost first: nat, ghost l: nat, n: nat, m: nat, moved0: map<nat, nat>) returns (moved: map<nat, nat>)
    requires u.Valid(g0, first) && AllTight(u.st) && NodesOk(u.st.g) && BackOk(u.st.g) && n in u.st.g.nodes && n in u.st.g.mlmi && n in u.st.nl && u.st.nl[n] == l
    requires Takeable(u.st, m, l) && MovedOk(u.st, u.rho, moved0, l) && Roomy(u.st.g.mlmi[n], u.lim)
    modifies u
    ensures u.Valid(g0, first) && AllTight(u.st) && NodesOk(u.st.g) && BackOk(u.st.g) && OnlyLayer(old(u.st), u.st, old(u.rho), u.rho, l)
    ensures moved.Keys == moved0.Keys + {m} && MovedOk(u.st, u.rho, moved, l) && u.st.nl == old(u.st.nl) && u.st.g.nodes == old(u.st.g.nodes)
    ensures NodesOk(old(u.st.g)) && BackOk(old(u.st.g)) && forall z: nat :: Available(old(u.st.g), z) && z < old(u.st.k) ==> Available(u.st.g, z)
    ensures n in u.st.g.mlmi && u.st.layers == old(u.st.layers)
    ensures n in old(u.st.g.mlmi) && OthersSame(old(u.st), u.st, n) && Grown(old(u.st.g.mlmi[n]), u.st.g.mlmi[n])
  {
    hide *;
    ghost var s, r := u.st, u.rho;
    u.ValidParts(g0, first);
    TakeableIs(s, m, l);
    RoomyIs(s.g.mlmi[n], u.lim);
    AllBelow(g0, first, s, r);
    var c := u.Copy(g0, first, n, m, false);
    OthersUpdate(s, u.st, n, CopiedNode(s.g.mlmi[n], c, m, false));
    CopyGrows(s.g.mlmi[n], c, m);
    TightCopy(s, u.st, r, u.rho, n, c, m, false);
    MovedStays(s, u.st, r, u.rho, moved0, l);
    SameFor(s, u.st, r, u.rho, l, m);
    MovedMore(u.st, u.rho, moved0, l, m, c);
    moved := moved0[m := c];
  }

  lemma CopyGrows(n: Mlmi, c: nat, m: nat)
    ensures Grown(n, CopiedNode(n, c, m, false))
  {
    CopiedBoth(n, c, m);
  }

  lemma TakeableIs(st: St, m: nat, l: nat)
    requires NodesOk(st.g) && BackOk(st.g) && Takeable(st, m, l)
    ensures m < st.k && Available(st.g, m) && Level(st, m) + 1 == l
  {
    hide NodeOk; hide BackOk; hide Available; hide Level;
  }

  lemma RoomyIs(n: Mlmi, lim: Limits)
    ensures Roomy(n, lim) <==> |n.inputs| < lim.lin && |n.outputs| < lim.lout && |n.instrs| < lim.s
  {
  }

  /** One output is taken into layer `l`, in a node with room or in a new one. */
  method Take(u: Universal, ghost g0: Graph, ghost first: nat, l: nat, m: nat, moved0: map<nat, nat>, ghost count: nat) returns (moved: map<nat, nat>)
    requires u.Valid(g0, first) && AllTight(u.st) && NodesOk(u.st.g) && BackOk(u.st.g) && l < |u.st.layers| && Takeable(u.st, m, l) && MovedOk(u.st, u.rho, moved0, l)
    modifies u
    ensures u.Valid(g0, first) && AllTight(u.st) && NodesOk(u.st.g) && BackOk(u.st.g) && OnlyLayer(old(u.st), u.st, old(u.rho), u.rho, l)
    ensures moved.Keys == moved0.Keys + {m} && MovedOk(u.st, u.rho, moved, l)
    ensures Chunked(old(u.st), l, Cap(u.lim), count) ==> Chunked(u.st, l, Cap(u.lim), count + 1)
    ensures NodesOk(old(u.st.g)) && BackOk(old(u.st.g)) && forall z: nat :: Available(old(u.st.g), z) && z < old(u.st.k) ==> Available(u.st.g, z)
  {
    hide *;
    ghost var s, r := u.st, u.rho;
    u.ValidParts(g0, first);
    LayerNodesKnown(g0, first, u.st, u.rho, l);
    NoRepeatAt(s, l);
    CapFits(u.lim);
    var candidate := FindRoomy(u.st, u.lim, l);
    if candidate.Some? {
      moved := TakeInto(u, g0, first, l, candidate.value, m, moved0);
      if Chunked(s, l, Cap(u.lim), count) { ChunkedTake(s, u.st, l, u.lim, count, candidate.value); }
    } else {
      AllBelow(g0, first, s, r);
      var x := u.Create(g0, first, l);
      ghost var t := u.st;
      TightNew(s, t, r, x, l);
      MovedStays(s, t, r, r, moved0, l);
      TakeableStays(s, t, r, r, m, l);
      RoomyIs(u.st.g.mlmi[x], u.lim);
      u.ValidParts(g0, first);
      OnlyLayerIs(s, t, r, r, l);
      moved := TakeInto(u, g0, first, l, x, m, moved0);
      OnlyLayerTrans(s, t, u.st, r, r, u.rho, l);
      CreatedOthers(s, t, u.st, x);
      if Chunked(s, l, Cap(u.lim), count) { ChunkedCreate(s, u.st, l, u.lim, count, x); }
    }
  }

  /** The loop over the outputs to take: each gets a copy in layer `l`. */
  method TakeAll(u: Universal, ghost g0: Graph, ghost first: nat, l: nat, toTake: set<nat>) returns (moved: map<nat, nat>)
    requires u.Valid(g0, first) && AllTight(u.st) && NodesOk(u.st.g) && BackOk(u.st.g) && l < |u.st.layers| && forall m :: m in toTake ==> Takeable(u.st, m, l)
    modifies u
    ensures u.Valid(g0, first) && AllTight(u.st) && NodesOk(u.st.g) && BackOk(u.st.g) && OnlyLayer(old(u.st), u.st, old(u.rho), u.rho, l)
    ensures moved.Keys == toTake && MovedOk(u.st, u.rho, moved, l) && (toTake == {} ==> u.st == old(u.st))
    ensures Chunked(old(u.st), l, Cap(u.lim), 0) ==> Chunked(u.st, l, Cap(u.lim), |toTake|)
    ensures NodesOk(old(u.st.g)) && BackOk(old(u.st.g)) && forall z: nat :: Available(old(u.st.g), z) && z < old(u.st.k) ==> Available(u.st.g, z)
  {
    hide *;
    ghost var s0, r0 := u.st, u.rho;
    OnlyLayerSelf(s0, r0, l);
    NothingMoved(s0, r0, l);
    moved := map[];
    var rest := toTake;
    ghost var taken := 0;
    while rest != {}
      invariant u.Valid(g0, first) && AllTight(u.st) && NodesOk(u.st.g) && BackOk(u.st.g) && OnlyLayer(s0, u.st, r0, u.rho, l) && |u.st.layers| == |s0.layers|
      invariant rest <= toTake && moved.Keys == toTake - rest && MovedOk(u.st, u.rho, moved, l)
      invariant (forall m :: m in rest ==> Takeable(u.st, m, l)) && forall z: nat :: Available(s0.g, z) && z < s0.k ==> Available(u.st.g, z)
      invariant s0.k <= u.st.k && (rest == toTake ==> u.st == s0)
      invariant Chunked(s0, l, Cap(u.lim), 0) ==> Chunked(u.st, l, Cap(u.lim), taken)
      invariant taken + |rest| == |toTake|
      decreases rest
    {
      var m :| m in rest;
      ghost var s, r := u.st, u.rho;
      rest := rest - {m};
      moved := Take(u, g0, first, l, m, moved, taken);
      taken := taken + 1;
      OnlyLayerIs(s, u.st, r, u.rho, l);
      OnlyLayerTrans(s0, s, u.st, r0, r, u.rho, l);
      forall x | x in rest ensures Takeable(u.st, x, l) { TakeableStays(s, u.st, r, u.rho, x, l); }
    }
  }

  lemma NothingMoved(st: St, rho: Origins, l: nat)
    requires NodesOk(st.g) && BackOk(st.g)
    ensures MovedOk(st, rho, map[], l)
  {
  }

  // ----- layer by layer -----

  /** No program output is defined before layer `l`. */
  ghost predicate OutputsFrom(st: St, l: int) {
    forall o :: o in st.g.progOutputs ==> Level(st, o) >= l
  }

  /** The outputs of the nodes of layer `l` that are program outputs. */
  method CollectOutputs(st: St, l: nat, ghost g0: Graph, ghost first: nat, ghost rho: Origins) returns (r: set<nat>)
    requires Sound(g0, first, st, rho) && BackOk(st.g) && l < |st.layers|
    ensures forall m :: m in r <==> m in st.g.progOutputs && Level(st, m) == l
  {
    hide *;
    SoundParts(g0, first, st, rho);
    LayerNodesKnown(g0, first, st, rho, l);
    r := {};
    var layer := st.layers[l];
    forall m ensures !InSome(st, layer[..0], m) { InNone(st, layer[..0], m); }
    for i := 0 to |layer|
      invariant forall m :: m in r <==> m in st.g.progOutputs && InSome(st, layer[..i], m)
    {
      r := r + OutputsOf(st.g.mlmi[layer[i]], st.g.progOutputs);
      forall m ensures InSome(st, layer[..i + 1], m) <==> InSome(st, layer[..i], m) || m in st.g.mlmi[layer[i]].outputs { InSomeNext(st, layer, i, m); }
    }
    assert layer[..|layer|] == layer;
    forall m | m in st.g.progOutputs ensures InSome(st, layer, m) <==> Level(st, m) == l { InLayerIs(g0, first, st, rho, l, m); }
  }

  function OutputsOf(n: Mlmi, outs: seq<nat>): (r: set<nat>)
    ensures forall m :: m in r <==> m in n.outputs && m in outs
  {
    set m | m in n.outputs && m in outs
  }

  ghost predicate InSome(st: St, layer: seq<nat>, m: nat) {
    exists i :: 0 <= i < |layer| && layer[i] in st.g.mlmi && m in st.g.mlmi[layer[i]].outputs
  }

  lemma InNone(st: St, layer: seq<nat>, m: nat)
    requires layer == []
    ensures !InSome(st, layer, m)
  {
  }

  lemma InSomeNext(st: St, layer: seq<nat>, i: nat, m: nat)
    requires i < |layer| && layer[i] in st.g.mlmi
    ensures InSome(st, layer[..i + 1], m) <==> InSome(st, layer[..i], m) || m in st.g.mlmi[layer[i]].outputs
  {
    var a, b := layer[..i], layer[..i + 1];
    if InSome(st, a, m) {
      var j :| 0 <= j < |a| && a[j] in st.g.mlmi && m in st.g.mlmi[a[j]].outputs;
      assert b[j] == a[j];
    }
    if m in st.g.mlmi[layer[i]].outputs { assert b[i] == layer[i]; }
    if InSome(st, b, m) {
      var j :| 0 <= j < |b| && b[j] in st.g.mlmi && m in st.g.mlmi[b[j]].outputs;
      assert j < i ==> a[j] == b[j];
    }
  }

  lemma InLayerIs(g0: Graph, first: nat, st: St, rho: Origins, l: nat, m: nat)
    requires Sound(g0, first, st, rho) && BackOk(st.g) && l < |st.layers| && m in st.g.progOutputs
    ensures InSome(st, st.layers[l], m) <==> Level(st, m) == l
  {
    SoundParts(g0, first, st, rho);
    hide Sound; hide Tracks; hide NodeOk; hide FwdOk; hide Below; hide Ordered; hide OriginsOk; hide Assigns;
    var layer := st.layers[l];
    assert Available(st.g, m);
    if InSome(st, layer, m) {
      var i :| 0 <= i < |layer| && layer[i] in st.g.mlmi && m in st.g.mlmi[layer[i]].outputs;
      assert layer[i] in layer;
      OutputAssigned(st.g, layer[i], m);
    }
    if Level(st, m) == l {
      var n := st.g.back[m];
      assert n in layer;
      var i :| 0 <= i < |layer| && layer[i] == n;
    }
  }

  lemma OutputsTakeable(g0: Graph, first: nat, st: St, rho: Origins, l: nat, toTake: set<nat>)
    requires Sound(g0, first, st, rho) && BackOk(st.g) && NodesOk(st.g) && forall m :: m in toTake ==> m in st.g.progOutputs && Level(st, m) + 1 == l
    ensures forall m :: m in toTake ==> Takeable(st, m, l)
  {
    SoundParts(g0, first, st, rho);
    hide Sound; hide Tracks; hide NodeOk; hide BackOk; hide FwdOk; hide Below; hide Ordered; hide OriginsOk; hide Level; hide Available; hide InLayers;
    forall m | m in toTake ensures Takeable(st, m, l) {
      assert Available(st.g, m);
      AvailableBelow(st.g, st.k, m);
    }
  }

  /** The loop body for layer `l`: afterwards no program output is defined before it. */
  method PropagateLayer(u: Universal, ghost g0: Graph, ghost first: nat, l: nat, toTake: set<nat>)
    requires u.Valid(g0, first) && AllTight(u.st) && l < |u.st.layers| && OutputsFrom(u.st, l - 1)
    requires forall m :: m in toTake <==> m in u.st.g.progOutputs && Level(u.st, m) + 1 == l
    modifies u
    ensures u.Valid(g0, first) && AllTight(u.st) && OutputsFrom(u.st, l) && |u.st.layers| == |old(u.st.layers)|
    ensures |u.st.g.progOutputs| == |old(u.st.g.progOutputs)| && (toTake == {} ==> u.st.layers == old(u.st.layers))
    ensures u.st.g.progInputs == old(u.st.g.progInputs) && Wider(old(u.st), u.st)
    ensures (l >= 1 || toTake == {} ==> KeptAt(old(u.st), u.st, 0)) && (Chunked(old(u.st), l, Cap(u.lim), 0) ==> Chunked(u.st, l, Cap(u.lim), |toTake|))
  {
    hide *;
    ghost var s, r := u.st, u.rho;
    u.ValidParts(g0, first);
    OutputsTakeable(g0, first, s, r, l, toTake);
    OutputsBelowK(g0, first, s, r);
    var moved := TakeAll(u, g0, first, l, toTake);
    OnlyLayerIs(s, u.st, r, u.rho, l);
    ghost var t := u.st;
    forall m | m in moved ensures Available(t.g, moved[m]) && OriginOf(u.rho, moved[m]) == OriginOf(u.rho, m) && Level(t, moved[m]) == l { MovedAt(t, u.rho, moved, l, m); }
    u.RenameOutputs(g0, first, moved);
    SetOutputsIs(t, RenamedOutputs(moved, t.g.progOutputs));
    TightOutputs(t, RenamedOutputs(moved, t.g.progOutputs));
    u.ValidParts(g0, first);
    MovedFrom(s, t, u.st, r, u.rho, moved, l);
    WiderSame(t, u.st);
    WiderTrans(s, t, u.st);
    SameOutputCount(g0, first, s, r, u.st, u.rho);
    if l >= 1 || toTake == {} {
      if l >= 1 { OtherKept(g0, first, s, t, r, u.rho, l, 0); } else { KeptSame(s, t, 0); }
      KeptSame(t, u.st, 0);
      KeptTrans(s, t, u.st, 0);
    }
    if Chunked(s, l, Cap(u.lim), 0) { ChunkedSame(t, u.st, l, Cap(u.lim), |toTake|); }
  }

  /** A change of one layer keeps the sizes of the others. */
  lemma OtherKept(g0: Graph, first: nat, s: St, t: St, rho: Origins, rho2: Origins, l: nat, j: nat)
    requires Sound(g0, first, s, rho) && OnlyLayer(s, t, rho, rho2, l) && j < |s.layers| && j != l
    ensures KeptAt(s, t, j)
  {
    LayerNodesKnown(g0, first, s, rho, j);
    hide Level; hide OriginOf; hide Sound;
    KeptSame(s, t, j);
  }

  lemma WiderSame(s: St, t: St)
    requires t.nl == s.nl && t.g.mlmi == s.g.mlmi
    ensures Wider(s, t)
  {
  }

  lemma OutputsBelowK(g0: Graph, first: nat, st: St, rho: Origins)
    requires Sound(g0, first, st, rho) && BackOk(st.g)
    ensures forall o :: o in st.g.progOutputs ==> o < st.k
  {
    SoundParts(g0, first, st, rho);
    hide Sound; hide Tracks; hide NodeOk; hide BackOk; hide FwdOk; hide Ordered; hide OriginsOk; hide Level; hide Available; hide InLayers; hide NodeBelow;
  }

  lemma MovedAt(st: St, rho: Origins, moved: map<nat, nat>, l: nat, m: nat)
    requires NodesOk(st.g) && BackOk(st.g) && MovedOk(st, rho, moved, l) && m in moved
    ensures Available(st.g, moved[m]) && Level(st, moved[m]) == l && OriginOf(rho, moved[m]) == OriginOf(rho, m)
  {
    hide NodeOk; hide BackOk; hide Available; hide Level; hide OriginOf;
  }

  lemma TightOutputs(st: St, outs: seq<nat>)
    requires AllTight(st)
    ensures AllTight(SetOutputs(st, outs))
  {
    forall n | n in st.g.nodes && n in st.g.mlmi && n in st.nl ensures NodeTight(SetOutputs(st, outs), n) { assert NodeTight(st, n); }
  }

  lemma MovedFrom(s: St, t: St, v: St, rho: Origins, rho2: Origins, moved: map<nat, nat>, l: nat)
    requires OnlyLayer(s, t, rho, rho2, l) && OutputsFrom(s, l - 1) && (forall o :: o in s.g.progOutputs ==> o < s.k)
    requires v == SetOutputs(t, RenamedOutputs(moved, t.g.progOutputs)) && (forall z: nat :: Level(v, z) == Level(t, z))
    requires (forall m :: m in moved.Keys <==> m in s.g.progOutputs && Level(s, m) + 1 == l) && forall m :: m in moved ==> Level(t, moved[m]) == l
    ensures OutputsFrom(v, l)
  {
    hide Level; hide OriginOf;
    var outs := RenamedOutputs(moved, t.g.progOutputs);
    forall i | 0 <= i < |outs| ensures Level(v, outs[i]) >= l {
      var o := t.g.progOutputs[i];
      assert o in s.g.progOutputs;
    }
  }

  // ----- the pass -----

  /** Some node is in layer `l`. */
  ghost predicate Occupied(st: St, l: int) {
    exists n :: n in st.nl && n in st.g.mlmi && st.nl[n] == l
  }

  lemma OccupiedStays(s: St, t: St, l: int)
    requires Wider(s, t) && Occupied(s, l)
    ensures Occupied(t, l)
  {
    var n :| n in s.nl && n in s.g.mlmi && s.nl[n] == l;
    assert t.nl[n] == l;
  }

  lemma SameOutputCount(g0: Graph, first: nat, s: St, r: Origins, t: St, r2: Origins)
    requires Sound(g0, first, s, r) && Sound(g0, first, t, r2)
    ensures |s.g.progOutputs| == |t.g.progOutputs|
  {
    hide *;
    SoundParts(g0, first, s, r);
    SoundParts(g0, first, t, r2);
    TracksParts(g0, first, s.g, r, s.k);
    TracksParts(g0, first, t.g, r2, t.k);
  }

  lemma OutputOccupies(g0: Graph, first: nat, st: St, rho: Origins, l: nat)
    requires Sound(g0, first, st, rho) && BackOk(st.g) && st.g.progOutputs != [] && OutputsFrom(st, l) && |st.layers| == l + 1
    ensures Occupied(st, l)
  {
    SoundParts(g0, first, st, rho);
    hide Sound; hide Tracks; hide NodeOk; hide FwdOk; hide Below; hide Ordered; hide OriginsOk; hide Assigns;
    var o := st.g.progOutputs[0];
    assert o in st.g.progOutputs;
    assert Available(st.g, o) && Level(st, o) >= l;
    assert st.nl[st.g.back[o]] == l;
  }

  lemma AppendedTight(g0: Graph, first: nat, st: St, rho: Origins)
    requires Sound(g0, first, st, rho) && BackOk(st.g) && AllTight(st)
    ensures var t := InsertLayer(st, |st.layers|); AllTight(t) && t.g == st.g && t.nl == st.nl && t.layers == st.layers + [[]] && (forall m: nat :: Level(t, m) == Level(st, m))
  {
    SoundParts(g0, first, st, rho);
    hide Sound; hide Tracks; hide NodeOk; hide BackOk; hide FwdOk; hide Below; hide Ordered; hide OriginsOk; hide AvailableOk;
    var t := InsertLayer(st, |st.layers|);
    assert t.nl == st.nl;
    forall n | n in t.g.nodes && n in t.g.mlmi && n in t.nl ensures NodeTight(t, n) { assert NodeTight(st, n); }
  }

  /** `propagate_outputs_to_last_layer`: afterwards all program outputs are defined in the last layer, which is new. */
  method PropagateOutputs(u: Universal, ghost g0: Graph, ghost first: nat)
    requires u.Valid(g0, first) && AllTight(u.st) && OutputsFrom(u.st, 0) && |u.st.layers| >= 1
    modifies u
    ensures u.Valid(g0, first) && AllTight(u.st) && |u.st.layers| == |old(u.st.layers)| + 1 && OutputsFrom(u.st, |u.st.layers| - 1)
    ensures u.st.g.progInputs == old(u.st.g.progInputs) && Wider(old(u.st), u.st) && (old(u.st.g.progOutputs) != [] ==> Occupied(u.st, |u.st.layers| - 2))
    ensures old(u.st.g.progOutputs) == [] ==> u.st.layers == old(u.st.layers) + [[]]
    ensures KeptAt(old(u.st), u.st, 0) && Cap(u.lim) >= 1 && LayerSizes(u.st, u.st.layers[|u.st.layers| - 1]) == ChunkSizes(|ToSet(g0.progOutputs)|, Cap(u.lim))
  {
    hide *;
    ghost var s0 := u.st;
    WiderSame(s0, s0);
    KeptSame(s0, s0, 0);
    var count := |u.st.layers|;
    var toTake: set<nat> := {};
    for l := 0 to count
      invariant u.Valid(g0, first) && AllTight(u.st) && |u.st.layers| == count && OutputsFrom(u.st, if l == 0 then 0 else l - 1) && u.st.g.progInputs == s0.g.progInputs
      invariant (l > 0 ==> forall m :: m in toTake <==> m in u.st.g.progOutputs && Level(u.st, m) + 1 == l) && (l == 0 ==> toTake == {}) && Wider(s0, u.st)
      invariant |u.st.g.progOutputs| == |s0.g.progOutputs| && (s0.g.progOutputs == [] ==> u.st.layers == s0.layers)
      invariant KeptAt(s0, u.st, 0)
    {
      ghost var s := u.st;
      if l == 0 { NothingToTake(u.st); }
      PropagateLayer(u, g0, first, l, toTake);
      KeptTrans(s0, s, u.st, 0);
      WiderTrans(s0, s, u.st);
      u.ValidParts(g0, first);
      toTake := CollectOutputs(u.st, l, g0, first, u.rho);
    }
    ghost var s := u.st;
    u.ValidParts(g0, first);
    AppendedTight(g0, first, u.st, u.rho);
    InsertSound(g0, first, u.st, u.rho, |u.st.layers|);
    InsertWithin(u.st, |u.st.layers|, u.lim);
    u.st := InsertLayer(u.st, |u.st.layers|);
    u.MakeValid(g0, first);
    SameFrom(s, u.st, count - 1);
    WiderSame(s, u.st);
    WiderTrans(s0, s, u.st);
    ghost var t := u.st;
    if s0.g.progOutputs != [] {
      OutputOccupies(g0, first, s, u.rho, count - 1);
      OccupiedStays(s, t, count - 1);
    }
    u.ValidParts(g0, first);
    CapFits(u.lim);
    ChunkedEmpty(t, count, Cap(u.lim));
    KeptSame(s, t, 0);
    KeptTrans(s0, s, t, 0);
    AllTaken(g0, first, s, u.rho, count, toTake);
    PropagateLayer(u, g0, first, count, toTake);
    KeptTrans(s0, t, u.st, 0);
    ChunkedSizes(u.st, count, Cap(u.lim), |toTake|);
    if s0.g.progOutputs != [] { OccupiedStays(t, u.st, count - 1); }
    WiderTrans(s0, t, u.st);
  }

  /** The final layer takes every distinct program output. */
  lemma AllTaken(g0: Graph, first: nat, st: St, rho: Origins, count: nat, toTake: set<nat>)
    requires Sound(g0, first, st, rho) && BackOk(st.g) && |st.layers| == count >= 1 && OutputsFrom(st, count - 1)
    requires forall m :: m in toTake <==> m in st.g.progOutputs && Level(st, m) + 1 == count
    ensures |toTake| == |ToSet(g0.progOutputs)|
  {
    SoundParts(g0, first, st, rho);
    DistinctOutputs(g0, first, st.g, rho, st.k);
    hide Sound; hide Tracks; hide NodeOk; hide BackOk; hide FwdOk; hide Below; hide Ordered; hide OriginsOk; hide Available; hide AvailableOk;
    assert toTake == ToSet(st.g.progOutputs);
  }

  lemma NothingToTake(st: St)
    requires OutputsFrom(st, 0)
    ensures OutputsFrom(st, -1) && forall m :: m in st.g.progOutputs ==> Level(st, m) + 1 != 0
  {
    hide Level;
  }

  lemma SameFrom(s: St, t: St, l: int)
    requires OutputsFrom(s, l) && t.g == s.g && forall m: nat :: Level(t, m) == Level(s, m)
    ensures OutputsFrom(t, l)
  {
    hide Level;
  }
}
