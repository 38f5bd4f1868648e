/** The universalized graph without its values: how many nodes each layer has, how many outputs each node has, and from
    where each of its inputs comes. `add_permutation` of compiler/src/universalization/universalizer.py makes it a function
    of the sizes of the layers alone. */
module Topology {
  import opened Bits
  import opened Permutations
  import opened Rotations
  import opened Shapes
  import BigEndian

  /** An output of a layer, counted over all nodes of the layer in order; a program input; the zero that pads. */
  datatype Source = Out(layer: nat, pos: nat) | Program | Blank

  /** One node: where its inputs come from, and how many outputs it has. */
  datatype Wiring = Wiring(sources: seq<Source>, outs: nat)

  /** A network under construction: the layers so far, one node each, and what its lines are. */
  datatype Net = Net(layers: seq<seq<Wiring>>, lines: seq<Source>)

  datatype Size = Size(ins: nat, outs: nat)

  // ----- the network -----

  /** The lines of a window. */
  function Window(lines: seq<Source>, s: Span): (r: seq<Source>)
    ensures |r| == s.size && forall i :: 0 <= i < s.size ==> r[i] == if s.off + i < |lines| then lines[s.off + i] else Blank
  {
    seq(s.size, i requires 0 <= i < s.size => if s.off + i < |lines| then lines[s.off + i] else Blank)
  }

  /** The padding is not an input of a node. */
  function Filled(lines: seq<Source>): seq<Source> {
    if lines == [] then [] else
      var rest := Filled(lines[..|lines| - 1]);
      if lines[|lines| - 1].Blank? then rest else rest + [lines[|lines| - 1]]
  }

  /** The lines of a window become the outputs of the node of layer `at`. */
  function Renewed(lines: seq<Source>, s: Span, at: nat): (r: seq<Source>)
    ensures |r| == |lines| && forall j :: 0 <= j < |lines| ==> r[j] == if Holds(s, j) then Out(at, j - s.off) else lines[j]
  {
    seq(|lines|, j requires 0 <= j < |lines| => if Holds(s, j) then Out(at, j - s.off) else lines[j])
  }

  function Rerouted(lines: seq<Source>, w: seq<nat>): (r: seq<Source>)
    ensures |r| == |w| && forall j :: 0 <= j < |w| ==> r[j] == if w[j] < |lines| then lines[w[j]] else Blank
  {
    seq(|w|, j requires 0 <= j < |w| => if w[j] < |lines| then lines[w[j]] else Blank)
  }

  /** A window is one node in a layer of its own. */
  function AfterSpan(net: Net, at: nat, s: Span): Net {
    Net(net.layers + [[Wiring(Filled(Window(net.lines, s)), s.size)]], Renewed(net.lines, s, at + |net.layers|))
  }

  function AfterSpans(net: Net, at: nat, spans: seq<Span>): Net {
    if spans == [] then net else AfterSpan(AfterSpans(net, at, spans[..|spans| - 1]), at, spans[|spans| - 1])
  }

  function AfterOutline(net: Net, at: nat, o: Outline): Net {
    match o
    case Wires(w) => Net(net.layers, Rerouted(net.lines, w))
    case Windows(spans) => AfterSpans(net, at, spans)
  }

  function AfterShape(net: Net, at: nat, shape: seq<Outline>): Net {
    if shape == [] then net else AfterOutline(AfterShape(net, at, shape[..|shape| - 1]), at, shape[|shape| - 1])
  }

  /** The `ins` outputs of the layer before, padded. */
  function Entering(before: nat, ins: nat, size: nat): (r: seq<Source>)
    ensures |r| == size && forall j :: 0 <= j < size ==> r[j] == if j < ins then Out(before, j) else Blank
  {
    seq(size, j requires 0 <= j < size => if j < ins then Out(before, j) else Blank)
  }

  /** The network between a layer with `ins` outputs and a layer with `outs` inputs. */
  function Network(le: nat, before: nat, ins: nat, outs: nat): Net
    requires le >= 1
  {
    var m := BigEndian.CeilLog2(if ins >= outs then ins else outs);
    AfterShape(Net([], Entering(before, ins, Pow2(m))), before + 1, DropIdle(BdbShape(m, le)))
  }

  // ----- the whole graph -----

  function TotalIns(sizes: seq<Size>): nat {
    if sizes == [] then 0 else TotalIns(sizes[..|sizes| - 1]) + sizes[|sizes| - 1].ins
  }

  function TotalOuts(sizes: seq<Size>): nat {
    if sizes == [] then 0 else TotalOuts(sizes[..|sizes| - 1]) + sizes[|sizes| - 1].outs
  }

  /** The layer behind a network: its nodes read the lines one after the other. */
  function Behind(sizes: seq<Size>, lines: seq<Source>): (r: seq<Wiring>)
    ensures |r| == |sizes|
  {
    if sizes == [] then [] else
      var k := |sizes| - 1;
      Behind(sizes[..k], lines) + [Wiring(Window(lines, Span(TotalIns(sizes[..k]), sizes[k].ins)), sizes[k].outs)]
  }

  /** The first layer reads program inputs. */
  function FirstLayer(sizes: seq<Size>): (r: seq<Wiring>)
    ensures |r| == |sizes| && forall k :: 0 <= k < |sizes| ==> r[k] == Wiring(seq(sizes[k].ins, _ => Program), sizes[k].outs)
  {
    seq(|sizes|, k requires 0 <= k < |sizes| => Wiring(seq(sizes[k].ins, _ => Program), sizes[k].outs))
  }

  /** All layers, when a network is inserted between every two of them. */
  function Layout(le: nat, sizes: seq<seq<Size>>): seq<seq<Wiring>>
    requires le >= 1
  {
    if sizes == [] then []
    else if |sizes| == 1 then [FirstLayer(sizes[0])]
    else
      var k := |sizes| - 1;
      var front := Layout(le, sizes[..k]);
      var net := Network(le, if front == [] then 0 else |front| - 1, TotalOuts(sizes[k - 1]), TotalIns(sizes[k]));
      front + net.layers + [Behind(sizes[k], net.lines)]
  }

  // ----- the sizes before the networks -----

  /** `n` cells, at most `cap` of them in a node: every node copies what it reads. */
  function ChunkSizes(n: nat, cap: nat): seq<Size>
    requires cap >= 1
  {
    if n == 0 then [] else if n <= cap then [Size(n, n)] else [Size(cap, cap)] + ChunkSizes(n - cap, cap)
  }

  /** The masking layer: one node has `outs` outputs. */
  function FirstSizes(n: nat, cap: nat, outs: nat): seq<Size>
    requires cap >= 1
  {
    var chunks := ChunkSizes(n, cap);
    if chunks == [] then [] else [Size(chunks[0].ins, outs)] + chunks[1..]
  }

  /** The sizes that masking, propagation and padding produce: from the numbers of inputs and distinct outputs, and from the
      number of layers between the first and the last and their width. */
  function PaddedSizes(cap: nat, ins: nat, outs: nat, depth: nat, width: nat): seq<seq<Size>>
    requires cap >= 1
  {
    [FirstSizes(ins, cap, cap)] + seq(depth, _ => seq(width, _ => Size(cap, cap))) + [ChunkSizes(outs, cap)]
  }

  /** All nodes but the last are full. */
  lemma {:induction false} ChunksAre(n: nat, cap: nat)
    requires cap >= 1
    ensures var s := ChunkSizes(n, cap); (n == 0 <==> s == []) && (forall i :: 0 <= i < |s| - 1 ==> s[i] == Size(cap, cap))
    ensures var s := ChunkSizes(n, cap); s != [] ==> var z := s[|s| - 1]; z.ins == z.outs && 1 <= z.ins <= cap
    decreases n
  {
    if n > cap { ChunksAre(n - cap, cap); }
  }

  /** One more cell goes into the last node, or into a new one when that is full. */
  lemma {:induction false} ChunksGrow(n: nat, cap: nat)
    requires cap >= 1
    ensures var s := ChunkSizes(n, cap); var k := |s| - 1;
      ChunkSizes(n + 1, cap) == if s == [] || s[k].ins == cap then s + [Size(1, 1)] else s[k := Size(s[k].ins + 1, s[k].ins + 1)]
    decreases n
  {
    var s := ChunkSizes(n, cap);
    if n > cap {
      ChunksGrow(n - cap, cap);
      ChunksAre(n - cap, cap);
      var t := ChunkSizes(n - cap, cap);
      assert s == [Size(cap, cap)] + t && s[|s| - 1] == t[|t| - 1];
    }
  }

  // ----- what the network is -----

  /** Number of nodes of a network: one for each window. */
  function NodeCount(shape: seq<Outline>): nat {
    if shape == [] then 0 else
      NodeCount(shape[..|shape| - 1]) + match shape[|shape| - 1] case Wires(_) => 0 case Windows(spans) => |spans|
  }

  lemma {:induction false} SpansAdd(net: Net, at: nat, spans: seq<Span>)
    ensures |AfterSpans(net, at, spans).layers| == |net.layers| + |spans| && |AfterSpans(net, at, spans).lines| == |net.lines|
    ensures forall l :: |net.layers| <= l < |net.layers| + |spans| ==> |AfterSpans(net, at, spans).layers[l]| == 1
    decreases |spans|
  {
    if spans != [] { SpansAdd(net, at, spans[..|spans| - 1]); }
  }

  /** Every window of a network is a layer with one node. */
  lemma {:induction false} ShapeAdds(net: Net, at: nat, shape: seq<Outline>)
    ensures |AfterShape(net, at, shape).layers| == |net.layers| + NodeCount(shape)
    ensures forall l :: |net.layers| <= l < |net.layers| + NodeCount(shape) ==> |AfterShape(net, at, shape).layers[l]| == 1
    decreases |shape|
  {
    hide AfterSpan; hide AfterSpans;
    if shape != [] {
      var k := |shape| - 1;
      ShapeAdds(net, at, shape[..k]);
      if shape[k].Windows? {
        SpansAdd(AfterShape(net, at, shape[..k]), at, shape[k].spans);
        SpansFront(AfterShape(net, at, shape[..k]), at, shape[k].spans);
      }
    }
  }

  /** A network has one layer for each window that `optimize` leaves, with one node in it. */
  lemma NetworkLayers(le: nat, before: nat, ins: nat, outs: nat)
    requires le >= 1
    ensures var net := Network(le, before, ins, outs);
      |net.layers| == NodeCount(DropIdle(BdbShape(BigEndian.CeilLog2(if ins >= outs then ins else outs), le))) && forall l :: 0 <= l < |net.layers| ==> |net.layers[l]| == 1
  {
    hide *;
    var m := BigEndian.CeilLog2(if ins >= outs then ins else outs);
    NetworkIs(le, before, ins, outs);
    ShapeAdds(Net([], Entering(before, ins, Pow2(m))), before + 1, DropIdle(BdbShape(m, le)));
  }

  lemma {:induction false} SpansFront(net: Net, at: nat, spans: seq<Span>)
    ensures |AfterSpans(net, at, spans).layers| >= |net.layers| && AfterSpans(net, at, spans).layers[..|net.layers|] == net.layers
    decreases |spans|
  {
    if spans != [] { SpansFront(net, at, spans[..|spans| - 1]); }
  }

  // ----- nothing passes by the network -----

  /** Line `j` is an output of a node that was inserted from layer `at` on. */
  predicate FromInside(net: Net, at: nat, j: nat) {
    j < |net.lines| && net.lines[j].Out? && at <= net.lines[j].layer < at + |net.layers|
  }

  ghost predicate Inside(net: Net, at: nat) {
    forall j :: 0 <= j < |net.lines| ==> FromInside(net, at, j)
  }

  lemma {:induction false} SpansTake(net: Net, at: nat, spans: seq<Span>, j: nat)
    requires j < |net.lines| && (SomeHolds(spans, j) || FromInside(net, at, j))
    ensures FromInside(AfterSpans(net, at, spans), at, j)
    decreases |spans|
  {
    SpansAdd(net, at, spans);
    if spans != [] {
      var k := |spans| - 1;
      SpansAdd(net, at, spans[..k]);
      if !Holds(spans[k], j) {
        HeldEarlier(spans, j);
        SpansTake(net, at, spans[..k], j);
      }
    }
  }

  lemma HeldEarlier(spans: seq<Span>, j: nat)
    requires spans != [] && !Holds(spans[|spans| - 1], j)
    ensures SomeHolds(spans, j) ==> SomeHolds(spans[..|spans| - 1], j)
  {
    if SomeHolds(spans, j) {
      var k :| 0 <= k < |spans| && Holds(spans[k], j);
      assert spans[..|spans| - 1][k] == spans[k];
    }
  }

  ghost predicate HasTiling(shape: seq<Outline>, n: nat) {
    exists k :: 0 <= k < |shape| && shape[k].Windows? && Tiles(shape[k].spans, n)
  }

  lemma TilesHold(spans: seq<Span>, n: nat)
    requires Tiles(spans, n)
    ensures forall j: nat :: j < n ==> SomeHolds(spans, j)
  {
    hide SomeHolds;
  }

  lemma RotationIs(m: nat, wiring: seq<nat>)
    requires IsTurn(m, wiring)
    ensures |wiring| == Pow2(m) && InRange(wiring, Pow2(m))
  {
    var s :| 0 <= s < m && wiring == IndexRotation(m, s);
  }

  lemma WiresKeepInside(net: Net, at: nat, w: seq<nat>)
    requires Inside(net, at) && InRange(w, |net.lines|)
    ensures Inside(AfterOutline(net, at, Wires(w)), at)
  {
    var next := AfterOutline(net, at, Wires(w));
    forall j | 0 <= j < |w| ensures FromInside(next, at, j) { assert FromInside(net, at, w[j]); }
  }

  /** Once the windows of a row tile the positions, every line is an output of the network, and stays one. */
  lemma {:induction false} ShapeSeals(m: nat, net: Net, at: nat, shape: seq<Outline>)
    requires Turns(m, shape) && |net.lines| == Pow2(m)
    ensures |AfterShape(net, at, shape).lines| == Pow2(m)
    ensures HasTiling(shape, Pow2(m)) ==> Inside(AfterShape(net, at, shape), at)
    decreases |shape|
  {
    hide *;
    ShapeStep(net, at, shape);
    if shape != [] {
      var k := |shape| - 1;
      TurnsPrefix(m, shape);
      TilingLast(shape, Pow2(m));
      ShapeSeals(m, net, at, shape[..k]);
      var mid := AfterShape(net, at, shape[..k]);
      match shape[k] {
        case Wires(w) =>
          RotationIs(m, w);
          WiresSize(mid, at, w);
          if HasTiling(shape, Pow2(m)) { WiresKeepInside(mid, at, w); }
        case Windows(spans) =>
          SpansAdd(mid, at, spans);
          WindowsAre(mid, at, spans);
          if Tiles(spans, Pow2(m)) { TilesHold(spans, Pow2(m)); }
          if HasTiling(shape, Pow2(m)) {
            forall j: nat | j < Pow2(m) ensures FromInside(AfterSpans(mid, at, spans), at, j) {
              if !Tiles(spans, Pow2(m)) { InsideAt(mid, at, j); }
              SpansTake(mid, at, spans, j);
            }
            MakeInside(AfterSpans(mid, at, spans), at);
          }
      }
    } else { NoTiling(Pow2(m)); }
  }

  lemma ShapeStep(net: Net, at: nat, shape: seq<Outline>)
    ensures shape == [] ==> AfterShape(net, at, shape) == net
    ensures shape != [] ==> AfterShape(net, at, shape) == AfterOutline(AfterShape(net, at, shape[..|shape| - 1]), at, shape[|shape| - 1])
  {
  }

  lemma TurnsPrefix(m: nat, shape: seq<Outline>)
    requires Turns(m, shape) && shape != []
    ensures Turns(m, shape[..|shape| - 1]) && (shape[|shape| - 1].Wires? ==> IsTurn(m, shape[|shape| - 1].wiring))
  {
    hide IsTurn;
  }

  lemma TilingLast(shape: seq<Outline>, n: nat)
    requires shape != []
    ensures var o := shape[|shape| - 1]; HasTiling(shape, n) <==> HasTiling(shape[..|shape| - 1], n) || (o.Windows? && Tiles(o.spans, n))
  {
    hide Tiles;
    var k := |shape| - 1;
    if HasTiling(shape[..k], n) {
      var i :| 0 <= i < k && shape[..k][i].Windows? && Tiles(shape[..k][i].spans, n);
      assert shape[i] == shape[..k][i];
    }
    if HasTiling(shape, n) {
      var i :| 0 <= i < |shape| && shape[i].Windows? && Tiles(shape[i].spans, n);
      assert i < k ==> shape[..k][i] == shape[i];
    }
  }

  lemma NoTiling(n: nat)
    ensures !HasTiling([], n)
  {
  }

  lemma WiresSize(net: Net, at: nat, w: seq<nat>)
    ensures |AfterOutline(net, at, Wires(w)).lines| == |w|
  {
  }

  lemma WindowsAre(net: Net, at: nat, spans: seq<Span>)
    ensures AfterOutline(net, at, Windows(spans)) == AfterSpans(net, at, spans)
  {
  }

  lemma InsideAt(net: Net, at: nat, j: nat)
    requires Inside(net, at) && j < |net.lines|
    ensures FromInside(net, at, j)
  {
    hide FromInside;
  }

  lemma MakeInside(net: Net, at: nat)
    requires forall j: nat :: j < |net.lines| ==> FromInside(net, at, j)
    ensures Inside(net, at)
  {
    hide FromInside;
  }

  lemma BenesHasTiling(m: nat, le: nat)
    requires le >= 1
    ensures HasTiling(BenesShape(m, le), Pow2(m))
  {
    hide *;
    BenesTiles(m, le);
    SomeWindows(m, le);
    var k :| 0 <= k < |BenesShape(m, le)| && BenesShape(m, le)[k].Windows?;
    TilingAt(BenesShape(m, le), Pow2(m), k);
  }

  lemma SomeWindows(m: nat, le: nat)
    requires le >= 1
    ensures exists k :: 0 <= k < |BenesShape(m, le)| && BenesShape(m, le)[k].Windows?
  {
    hide IndexRotation; hide Pow2; hide Cuts;
    if le >= m { assert BenesShape(m, le)[0].Windows?; } else {
      var bits := BandBits(m, le);
      var rows := BandRows(m, le, bits);
      assert rows[|rows| - 1].Windows?;
      assert BenesShape(m, le)[|rows| - 1] == rows[|rows| - 1];
    }
  }

  lemma TilingAt(shape: seq<Outline>, n: nat, k: nat)
    requires AllTile(shape, n) && k < |shape| && shape[k].Windows?
    ensures HasTiling(shape, n)
  {
    hide Tiles;
  }

  lemma {:induction false} TilingKept(shape: seq<Outline>, n: nat)
    requires HasTiling(shape, n)
    ensures HasTiling(DropIdle(shape), n)
    decreases |shape|
  {
    hide Tiles;
    var k := |shape| - 1;
    TilingLast(shape, n);
    if shape[k].Windows? && Tiles(shape[k].spans, n) {
      var d := DropIdle(shape);
      assert d[|d| - 1] == shape[k];
    } else {
      TilingKept(shape[..k], n);
      if !IsIdle(shape[k]) {
        var d := DropIdle(shape);
        assert d[..|d| - 1] == DropIdle(shape[..k]);
        TilingLast(d, n);
      }
    }
  }

  lemma TilingAppend(a: seq<Outline>, b: seq<Outline>, n: nat)
    requires HasTiling(a, n)
    ensures HasTiling(a + b, n)
  {
    hide Tiles;
    var k :| 0 <= k < |a| && a[k].Windows? && Tiles(a[k].spans, n);
    assert (a + b)[k] == a[k];
  }

  /** Every line behind a network is an output of one of its nodes: no cell passes by. */
  lemma NetworkSeals(le: nat, before: nat, ins: nat, outs: nat)
    requires le >= 1
    ensures var net := Network(le, before, ins, outs); Inside(net, before + 1) && outs <= |net.lines| && ins <= |net.lines|
  {
    hide *;
    var m := BigEndian.CeilLog2(if ins >= outs then ins else outs);
    BdbTurns(m, le);
    IdleKept(BdbShape(m, le), m, Pow2(m));
    BenesHasTiling(m, le);
    BdbParts(m, le);
    TilingAppend(BenesShape(m, le), DupShape(m, le), Pow2(m));
    TilingAppend(BenesShape(m, le) + DupShape(m, le), BenesShape(m, le), Pow2(m));
    TilingKept(BdbShape(m, le), Pow2(m));
    ShapeSeals(m, Net([], Entering(before, ins, Pow2(m))), before + 1, DropIdle(BdbShape(m, le)));
    NetworkIs(le, before, ins, outs);
  }

  lemma NetworkIs(le: nat, before: nat, ins: nat, outs: nat)
    requires le >= 1
    ensures var m := BigEndian.CeilLog2(if ins >= outs then ins else outs);
      ins <= Pow2(m) && outs <= Pow2(m) && |Entering(before, ins, Pow2(m))| == Pow2(m)
      && Network(le, before, ins, outs) == AfterShape(Net([], Entering(before, ins, Pow2(m))), before + 1, DropIdle(BdbShape(m, le)))
  {
    hide Pow2; hide BdbShape; hide DropIdle; hide AfterShape;
  }

  /** Every input of a node behind a network is an output of one of the nodes of that network. */
  lemma {:induction false} BehindReads(le: nat, before: nat, ins: nat, outs: nat, sizes: seq<Size>, k: nat, i: nat)
    requires le >= 1 && TotalIns(sizes) <= outs && k < |sizes| && i < sizes[k].ins
    ensures var net := Network(le, before, ins, outs); var w := Behind(sizes, net.lines)[k];
      |w.sources| == sizes[k].ins && w.sources[i].Out? && before < w.sources[i].layer <= before + |net.layers|
    decreases |sizes|
  {
    hide Network; hide Pow2;
    var net := Network(le, before, ins, outs);
    var last := |sizes| - 1;
    if k < last {
      BehindReads(le, before, ins, outs, sizes[..last], k, i);
    } else {
      NetworkSeals(le, before, ins, outs);
      InsideAt(net, before + 1, TotalIns(sizes[..k]) + i);
    }
  }
}
