/** The insertion of routing networks: `add_permutation` of compiler/src/universalization/universalizer.py. Every group
    of a secret row becomes a node of MOVs; the nodes behind the network read the wires at its end. */
module Permuting {
  import opened Dfg
  import opened Copies
  import opened LayeredGraph
  import opened UniversalOps
  import opened Universalizer
  import opened Masking
  import opened Rows
  import opened Shapes
  import opened Topology
  import opened Drawing
  import Permutations
  import BenesMulti

  // ----- wires -----

  /** A position of the network: a cell, or the constant zero that pads the inputs. */
  datatype Wire = Cell(m: nat) | Null

  ghost function WireOrigin(rho: Origins, w: Wire): Origin {
    match w case Cell(m) => OriginOf(rho, m) case Null => Zero
  }

  ghost function WireOrigins(rho: Origins, ws: seq<Wire>): (r: seq<Origin>)
    ensures |r| == |ws| && forall i :: 0 <= i < |ws| ==> r[i] == WireOrigin(rho, ws[i])
  {
    seq(|ws|, i requires 0 <= i < |ws| => WireOrigin(rho, ws[i]))
  }

  ghost predicate WireOk(st: St, w: Wire, at: nat)
    requires NodesOk(st.g) && BackOk(st.g)
  {
    w.Cell? ==> w.m < st.k && Available(st.g, w.m) && 0 <= Level(st, w.m) < at
  }

  ghost predicate WiresOk(st: St, ws: seq<Wire>, at: nat)
    requires NodesOk(st.g) && BackOk(st.g)
  {
    forall i :: 0 <= i < |ws| ==> WireOk(st, ws[i], at)
  }

  // ----- what inserting layers changes -----

  function Moved(l: int, at: nat, d: nat): int {
    if l >= at then l + d else l
  }

  /** `d` layers were inserted at `at`; old nodes and cells are otherwise as before. */
  ghost predicate Inserted(s: St, t: St, rho: Origins, rho2: Origins, at: nat, d: nat) {
    && s.k <= t.k && |t.layers| == |s.layers| + d && s.g.nodes <= t.g.nodes
    && (forall y :: y in s.nl ==> y in t.nl && t.nl[y] == Moved(s.nl[y], at, d))
    && (forall y :: y in s.g.mlmi ==> y in t.g.mlmi && t.g.mlmi[y] == s.g.mlmi[y])
    && (forall x: nat :: x < s.k ==> Level(t, x) == Moved(Level(s, x), at, d) && OriginOf(rho2, x) == OriginOf(rho, x))
    && t.g.progInputs == s.g.progInputs && t.g.progOutputs == s.g.progOutputs
  }

  lemma InsertedTrans(s: St, t: St, u: St, rho: Origins, rho2: Origins, rho3: Origins, at: nat, d: nat, e: nat)
    requires Inserted(s, t, rho, rho2, at, d) && Inserted(t, u, rho2, rho3, at + d, e)
    ensures Inserted(s, u, rho, rho3, at, d + e)
  {
    hide Level; hide OriginOf;
  }

  lemma InsertedNone(s: St, rho: Origins, at: nat)
    ensures Inserted(s, s, rho, rho, at, 0)
  {
    hide Level; hide OriginOf;
  }

  lemma InsertedLayer(s: St, rho: Origins, at: nat)
    requires at <= |s.layers| && forall m: nat :: Level(InsertLayer(s, at), m) == if Level(s, m) >= at then Level(s, m) + 1 else Level(s, m)
    ensures Inserted(s, InsertLayer(s, at), rho, rho, at, 1)
  {
    hide Level; hide OriginOf;
  }

  lemma WireMoves(s: St, t: St, rho: Origins, rho2: Origins, at: nat, d: nat, w: Wire)
    requires NodesOk(s.g) && BackOk(s.g) && NodesOk(t.g) && BackOk(t.g) && Inserted(s, t, rho, rho2, at, d) && WireOk(s, w, at)
    requires forall z: nat :: Available(s.g, z) && z < s.k ==> Available(t.g, z)
    ensures WireOk(t, w, at) && WireOrigin(rho2, w) == WireOrigin(rho, w)
  {
    hide NodeOk; hide BackOk; hide Available; hide Level; hide OriginOf;
  }

  // ----- wires and the lines of the topology -----

  ghost predicate IsLine(st: St, w: Wire, line: Source, at: nat) {
    match w
    case Null => line.Blank?
    case Cell(m) => line.Out? && line.layer < at && IsSource(st, m, line)
  }

  ghost predicate Lined(st: St, ws: seq<Wire>, lines: seq<Source>, at: nat) {
    |ws| == |lines| && forall j :: 0 <= j < |ws| ==> IsLine(st, ws[j], lines[j], at)
  }

  /** The graph is drawn up to the last layer of the network, and the wires are its lines. */
  ghost predicate Laid(st: St, topo: seq<seq<Wiring>>, net: Net, ws: seq<Wire>) {
    Drawn(st, topo + net.layers) && Lined(st, ws, net.lines, |topo| + |net.layers|)
  }

  /** Node `x` moves the window of the group: it reads the cells of the window, and its outputs are the new wires. */
  ghost predicate NodePlaced(s: St, t: St, at: nat, ws0: seq<Wire>, ws: seq<Wire>, g: Group, x: nat) {
    && at <= |s.layers| && t.layers == s.layers[..at] + [[x]] + s.layers[at..] && x in t.g.mlmi && t.g.progInputs == s.g.progInputs
    && (forall y :: y in s.g.mlmi ==> SameNode(s, t, y))
    && g.off + |g.shuffle| <= |ws0| == |ws| && t.g.mlmi[x].inputs == CellsOf(ws0[g.off..g.off + |g.shuffle|])
    && Copied(ws, ws0, t.g.mlmi[x].outputs, g.off) && |t.g.mlmi[x].outputs| == |g.shuffle|
  }

  /** The first wires of the window are the outputs, all others are as before. */
  ghost predicate Copied(ws: seq<Wire>, ws0: seq<Wire>, outputs: seq<nat>, off: nat) {
    |ws| == |ws0| && forall j :: 0 <= j < |ws| ==> ws[j] == if off <= j < off + |outputs| then Cell(outputs[j - off]) else ws0[j]
  }

  ghost predicate GroupPlaced(s: St, t: St, at: nat, ws0: seq<Wire>, ws: seq<Wire>, g: Group) {
    exists x :: NodePlaced(s, t, at, ws0, ws, g, x)
  }

  /** The cells come from where the list says. */
  ghost predicate AreSources(st: St, cells: seq<nat>, sources: seq<Source>, at: nat) {
    |cells| == |sources| && forall i :: 0 <= i < |sources| ==> InFront(sources[i], at) && IsSource(st, cells[i], sources[i])
  }

  lemma {:induction false} CellsLined(st: St, ws: seq<Wire>, lines: seq<Source>, at: nat)
    requires Lined(st, ws, lines, at)
    ensures AreSources(st, CellsOf(ws), Filled(lines), at)
    decreases |ws|
  {
    hide *;
    LinedLast(st, ws, lines, at);
    if ws == [] {
      NoCells();
      NoSources(st, at);
    } else {
      var k := |ws| - 1;
      CellsSnoc(ws);
      FilledSnoc(lines);
      CellsLined(st, ws[..k], lines[..k], at);
      if ws[k].Cell? { SourcesSnoc(st, CellsOf(ws[..k]), Filled(lines[..k]), at, ws[k].m, lines[k]); }
    }
  }

  lemma LinedLast(st: St, ws: seq<Wire>, lines: seq<Source>, at: nat)
    requires Lined(st, ws, lines, at)
    ensures |ws| == |lines| && (ws != [] ==> Lined(st, ws[..|ws| - 1], lines[..|ws| - 1], at))
    ensures ws != [] ==> var w := ws[|ws| - 1]; var line := lines[|ws| - 1]; (w.Null? <==> line.Blank?) && (w.Cell? ==> InFront(line, at) && IsSource(st, w.m, line))
  {
    hide IsSource;
    if ws != [] { assert IsLine(st, ws[|ws| - 1], lines[|ws| - 1], at); }
    hide IsLine;
  }

  lemma NoCells()
    ensures CellsOf([]) == [] && Filled([]) == []
  {
  }

  lemma CellsSnoc(ws: seq<Wire>)
    requires ws != []
    ensures var k := |ws| - 1; CellsOf(ws) == if ws[k].Cell? then CellsOf(ws[..k]) + [ws[k].m] else CellsOf(ws[..k])
  {
  }

  lemma FilledSnoc(lines: seq<Source>)
    requires lines != []
    ensures var k := |lines| - 1; Filled(lines) == if lines[k].Blank? then Filled(lines[..k]) else Filled(lines[..k]) + [lines[k]]
  {
  }

  lemma NoSources(st: St, at: nat)
    ensures AreSources(st, [], [], at)
  {
  }

  lemma SourcesSnoc(st: St, cells: seq<nat>, sources: seq<Source>, at: nat, m: nat, src: Source)
    requires AreSources(st, cells, sources, at) && InFront(src, at) && IsSource(st, m, src)
    ensures AreSources(st, cells + [m], sources + [src], at)
  {
    hide InFront; hide IsSource;
  }

  lemma LinedWindow(st: St, ws: seq<Wire>, lines: seq<Source>, at: nat, s: Span)
    requires Lined(st, ws, lines, at) && s.off + s.size <= |ws|
    ensures Lined(st, ws[s.off..s.off + s.size], Window(lines, s), at)
  {
    hide IsLine;
    forall j | 0 <= j < s.size ensures IsLine(st, ws[s.off..s.off + s.size][j], Window(lines, s)[j], at) {
      var k := s.off + j;
      assert IsLine(st, ws[k], lines[k], at);
    }
  }

  lemma PlacedFront(s: St, t: St, at: nat, ws0: seq<Wire>, ws: seq<Wire>, g: Group, x: nat)
    requires NodePlaced(s, t, at, ws0, ws, g, x)
    ensures SameFront(s, t, at) && at < |t.layers| && t.layers[at] == [x] && t.layers[at + 1..] == s.layers[at..]
    ensures x in t.g.mlmi && t.g.mlmi[x].inputs == CellsOf(ws0[g.off..g.off + |g.shuffle|]) && |t.g.mlmi[x].outputs| == |g.shuffle| && g.off + |g.shuffle| <= |ws0| == |ws|
    ensures Copied(ws, ws0, t.g.mlmi[x].outputs, g.off)
  {
    hide CellsOf; hide SameNode; hide Copied;
    forall l, i | 0 <= l < at && 0 <= i < |s.layers[l]| ensures SameNode(s, t, s.layers[l][i]) { SameUnknown(s, t, s.layers[l][i]); }
  }

  lemma SameUnknown(s: St, t: St, n: nat)
    ensures n !in s.g.mlmi ==> SameNode(s, t, n)
  {
  }

  lemma FlatOne(st: St, x: nat)
    requires x in st.g.mlmi
    ensures Known(st, [x]) && Flat(st, [x], true) == st.g.mlmi[x].outputs
  {
    assert [x][..0] == [];
  }

  lemma OutputIsSource(st: St, l: nat, x: nat, i: nat)
    requires l < |st.layers| && st.layers[l] == [x] && x in st.g.mlmi && i < |st.g.mlmi[x].outputs|
    ensures IsSource(st, st.g.mlmi[x].outputs[i], Out(l, i))
  {
    FlatOne(st, x);
  }

  lemma LineMoves(s: St, t: St, at: nat, w: Wire, line: Source)
    requires SameFront(s, t, at) && IsLine(s, w, line, at)
    ensures IsLine(t, w, line, at + 1) && IsLine(t, w, line, at)
  {
    hide SameFront; hide IsSource;
    if w.Cell? { SourceKept(s, t, at, w.m, line); }
  }

  lemma LinesRenewed(s: St, t: St, at: nat, ws0: seq<Wire>, ws: seq<Wire>, lines: seq<Source>, off: nat, x: nat)
    requires Lined(s, ws0, lines, at) && SameFront(s, t, at) && at < |t.layers| && t.layers[at] == [x] && x in t.g.mlmi && Copied(ws, ws0, t.g.mlmi[x].outputs, off)
    ensures Lined(t, ws, Renewed(lines, Span(off, |t.g.mlmi[x].outputs|), at), at + 1)
  {
    hide SameFront; hide IsSource;
    var outputs := t.g.mlmi[x].outputs;
    var next := Renewed(lines, Span(off, |outputs|), at);
    forall j | 0 <= j < |ws| ensures IsLine(t, ws[j], next[j], at + 1) {
      if off <= j < off + |outputs| {
        OutputIsSource(t, at, x, j - off);
      } else {
        LineMoves(s, t, at, ws0[j], lines[j]);
      }
    }
  }

  /** The node of a group reads the lines of its window. */
  lemma PlacedNode(s: St, t: St, at: nat, ws0: seq<Wire>, ws: seq<Wire>, g: Group, lines: seq<Source>, x: nat)
    requires NodePlaced(s, t, at, ws0, ws, g, x) && Lined(s, ws0, lines, at)
    ensures NodeDrawn(t, x, Wiring(Filled(Window(lines, Span(g.off, |g.shuffle|))), |g.shuffle|), at)
  {
    hide *;
    var span := Span(g.off, |g.shuffle|);
    PlacedFront(s, t, at, ws0, ws, g, x);
    LinedWindow(s, ws0, lines, at, span);
    CellsLined(s, ws0[g.off..g.off + |g.shuffle|], Window(lines, span), at);
    NodeFrom(s, t, x, Wiring(Filled(Window(lines, span)), span.size), at);
  }

  /** A placed group continues the network by one layer. */
  lemma GroupLaid(s: St, t: St, topo: seq<seq<Wiring>>, net: Net, at: nat, ws0: seq<Wire>, ws: seq<Wire>, g: Group)
    requires Laid(s, topo, net, ws0) && at == |topo| + |net.layers| && GroupPlaced(s, t, at, ws0, ws, g)
    ensures Laid(t, topo, AfterSpan(net, |topo|, Span(g.off, |g.shuffle|)), ws) && at <= |s.layers| && at < |t.layers| && t.layers[at + 1..] == s.layers[at..]
  {
    hide NodePlaced; hide Laid; hide AfterSpan;
    var x :| NodePlaced(s, t, at, ws0, ws, g, x);
    hide *;
    PlacedLaid(s, t, topo, net, at, ws0, ws, g, x);
  }

  lemma PlacedLaid(s: St, t: St, topo: seq<seq<Wiring>>, net: Net, at: nat, ws0: seq<Wire>, ws: seq<Wire>, g: Group, x: nat)
    requires Laid(s, topo, net, ws0) && at == |topo| + |net.layers| && NodePlaced(s, t, at, ws0, ws, g, x)
    ensures Laid(t, topo, AfterSpan(net, |topo|, Span(g.off, |g.shuffle|)), ws) && at <= |s.layers| && at < |t.layers| && t.layers[at + 1..] == s.layers[at..]
  {
    hide *;
    LaidParts(s, topo, net, ws0);
    PlacedFront(s, t, at, ws0, ws, g, x);
    FrontSize(s, t, at);
    PlacedNode(s, t, at, ws0, ws, g, net.lines, x);
    LinesRenewed(s, t, at, ws0, ws, net.lines, g.off, x);
    NodeLaid(s, t, topo, net, x, ws, Span(g.off, |g.shuffle|));
  }

  lemma NodeLaid(s: St, t: St, topo: seq<seq<Wiring>>, net: Net, x: nat, ws: seq<Wire>, span: Span)
    requires Drawn(s, topo + net.layers) && SameFront(s, t, |topo| + |net.layers|) && |topo| + |net.layers| < |t.layers| && t.layers[|topo| + |net.layers|] == [x]
    requires NodeDrawn(t, x, Wiring(Filled(Window(net.lines, span)), span.size), |topo| + |net.layers|)
    requires Lined(t, ws, Renewed(net.lines, span, |topo| + |net.layers|), |topo| + |net.layers| + 1)
    ensures Laid(t, topo, AfterSpan(net, |topo|, span), ws)
  {
    hide *;
    var w := Wiring(Filled(Window(net.lines, span)), span.size);
    NodeBehind(s, t, topo + net.layers, x, w);
    AppendAssoc(topo, net.layers, [w]);
    AfterSpanIs(net, |topo|, span);
    MakeLaid(t, topo, AfterSpan(net, |topo|, span), ws);
  }

  lemma NodeBehind(s: St, t: St, topo: seq<seq<Wiring>>, x: nat, w: Wiring)
    requires Drawn(s, topo) && SameFront(s, t, |topo|) && |topo| < |t.layers| && t.layers[|topo|] == [x] && NodeDrawn(t, x, w, |topo|)
    ensures Drawn(t, topo + [[w]])
  {
    hide *;
    DrawnKept(s, t, topo);
    OneNodeDrawn(t, |topo|, x, w);
    DrawnMore(t, topo, [w]);
  }

  lemma AppendAssoc(topo: seq<seq<Wiring>>, layers: seq<seq<Wiring>>, ws: seq<Wiring>)
    ensures topo + layers + [ws] == topo + (layers + [ws])
  {
  }

  lemma LaidParts(st: St, topo: seq<seq<Wiring>>, net: Net, ws: seq<Wire>)
    requires Laid(st, topo, net, ws)
    ensures Drawn(st, topo + net.layers) && Lined(st, ws, net.lines, |topo| + |net.layers|) && |ws| == |net.lines| && |topo| + |net.layers| <= |st.layers|
  {
    hide LayerDrawn; hide IsLine;
  }

  lemma MakeLaid(st: St, topo: seq<seq<Wiring>>, net: Net, ws: seq<Wire>)
    requires Drawn(st, topo + net.layers) && Lined(st, ws, net.lines, |topo| + |net.layers|)
    ensures Laid(st, topo, net, ws)
  {
    hide Drawn; hide Lined;
  }

  lemma AfterSpanIs(net: Net, at: nat, s: Span)
    ensures AfterSpan(net, at, s) == Net(net.layers + [[Wiring(Filled(Window(net.lines, s)), s.size)]], Renewed(net.lines, s, at + |net.layers|))
  {
  }

  lemma NodeFrom(s: St, t: St, x: nat, w: Wiring, at: nat)
    requires SameFront(s, t, at) && x in t.g.mlmi && |t.g.mlmi[x].outputs| == w.outs && AreSources(s, t.g.mlmi[x].inputs, w.sources, at)
    ensures NodeDrawn(t, x, w, at)
  {
    hide SameFront; hide IsSource; hide InFront;
    forall i | 0 <= i < |w.sources| ensures IsSource(t, t.g.mlmi[x].inputs[i], w.sources[i]) { SourceKept(s, t, at, t.g.mlmi[x].inputs[i], w.sources[i]); }
  }

  lemma OneNodeDrawn(st: St, l: nat, x: nat, w: Wiring)
    requires l < |st.layers| && st.layers[l] == [x] && NodeDrawn(st, x, w, l)
    ensures LayerDrawn(st, l, [w])
  {
    hide NodeDrawn;
  }

  // ----- one group -----

  /** `[ m for m in inputs[off:off+len(p)] if isinstance(m, MemOperand) ]` */
  function CellsOf(ws: seq<Wire>): (r: seq<nat>)
    ensures |r| <= |ws| && (forall m :: m in r <==> Cell(m) in ws)
  {
    if ws == [] then [] else
      var rest := CellsOf(ws[..|ws| - 1]);
      if ws[|ws| - 1].Cell? then rest + [ws[|ws| - 1].m] else rest
  }

  ghost predicate Ready(u: Universal, g0: Graph, first: nat, x: nat, at: nat)
    reads u
  {
    u.Valid(g0, first) && NodesOk(u.st.g) && BackOk(u.st.g) && x in u.st.g.nodes && x in u.st.g.mlmi && x in u.st.nl && u.st.nl[x] == at
  }

  /** The input list of a new node. */
  method GiveInputs(u: Universal, ghost g0: Graph, ghost first: nat, x: nat, ghost at: nat, cells: seq<nat>)
    requires Ready(u, g0, first, x, at) && u.st.g.mlmi[x] == Mlmi([], [], []) && |cells| <= u.lim.lin && forall m :: m in cells ==> WireOk(u.st, Cell(m), at)
    modifies u`st
    ensures Ready(u, g0, first, x, at) && OnlyLayer(old(u.st), u.st, u.rho, u.rho, at) && u.st.g.mlmi[x] == Mlmi([], cells, []) && u.st.k == old(u.st.k) && u.st.nl == old(u.st.nl)
    ensures u.st.g.nodes == old(u.st.g.nodes) && u.st.layers == old(u.st.layers) && forall y :: y in old(u.st.g.mlmi) && y != x ==> y in u.st.g.mlmi && u.st.g.mlmi[y] == old(u.st.g.mlmi[y])
    ensures NodesOk(old(u.st.g)) && BackOk(old(u.st.g)) && (forall z: nat :: Available(old(u.st.g), z) ==> Available(u.st.g, z)) && (forall z: nat :: Level(u.st, z) == Level(old(u.st), z))
  {
    hide *;
    ghost var s0 := u.st;
    ReadyParts(u, g0, first, x, at);
    OnlyLayerSelf(s0, u.rho, at);
    assert cells[..0] == [];
    for i := 0 to |cells|
      invariant Ready(u, g0, first, x, at) && OnlyLayer(s0, u.st, u.rho, u.rho, at) && x in u.st.g.mlmi && u.st.g.mlmi[x] == Mlmi([], cells[..i], []) && u.st.k == s0.k && u.st.nl == s0.nl
      invariant u.st.g.nodes == s0.g.nodes && u.st.layers == s0.layers && forall y :: y in s0.g.mlmi && y != x ==> y in u.st.g.mlmi && u.st.g.mlmi[y] == s0.g.mlmi[y]
      invariant NodesOk(u.st.g) && BackOk(u.st.g) && (forall z: nat :: Available(s0.g, z) ==> Available(u.st.g, z)) && (forall z: nat :: Level(u.st, z) == Level(s0, z))
    {
      ghost var s := u.st;
      ReadyParts(u, g0, first, x, at);
      u.ValidParts(g0, first);
      var m := cells[i];
      WireIs(s0, m, at);
      MakeCanCopyAny(s, x, m, false);
      AddInputSound(g0, first, s, u.rho, x, m);
      AddInputIs(s, x, m);
      InputWithin(s, x, m, u.lim);
      u.st := AddInput(u.st, x, m);
      SoundParts(g0, first, u.st, u.rho);
      u.MakeValid(g0, first);
      OneNodeOnly(s, u.st, u.rho, u.rho, x, at);
      OnlyLayerTrans(s0, s, u.st, u.rho, u.rho, u.rho, at);
      MakeReady(u, g0, first, x, at);
      assert cells[..i] + [m] == cells[..i + 1];
    }
    assert cells[..|cells|] == cells;
  }

  lemma ReadyParts(u: Universal, g0: Graph, first: nat, x: nat, at: nat)
    requires Ready(u, g0, first, x, at)
    ensures u.Valid(g0, first) && NodesOk(u.st.g) && BackOk(u.st.g) && x in u.st.g.nodes && x in u.st.g.mlmi && x in u.st.nl && u.st.nl[x] == at
  {
    hide NodesOk; hide BackOk; hide Universal.Valid;
  }

  lemma MakeReady(u: Universal, g0: Graph, first: nat, x: nat, at: nat)
    requires u.Valid(g0, first) && NodesOk(u.st.g) && BackOk(u.st.g) && x in u.st.g.nodes && x in u.st.g.mlmi && x in u.st.nl && u.st.nl[x] == at
    ensures Ready(u, g0, first, x, at)
  {
    hide NodesOk; hide BackOk; hide Universal.Valid;
  }

  lemma WireIs(st: St, m: nat, at: nat)
    requires NodesOk(st.g) && BackOk(st.g) && WireOk(st, Cell(m), at)
    ensures m < st.k && Available(st.g, m) && 0 <= Level(st, m) < at
  {
    hide NodeOk; hide BackOk; hide Available; hide Level;
  }

  lemma InputWithin(st: St, n: nat, m: nat, lim: Limits)
    requires Within(st, lim) && n in st.g.nodes && n in st.g.mlmi && |st.g.mlmi[n].inputs| < lim.lin
    ensures Within(AddInput(st, n, m), lim)
  {
    hide EdgeFor;
    assert NodeWithin(st.g.mlmi[n], lim);
    forall y | y in st.g.nodes && y in st.g.mlmi && y != n ensures NodeWithin(st.g.mlmi[y], lim) { }
  }

  /** One MOV of a group: the new cell is a copy of the wire. */
  method MoveWire(u: Universal, ghost g0: Graph, ghost first: nat, x: nat, ghost at: nat, w: Wire) returns (c: nat)
    requires Ready(u, g0, first, x, at) && WireOk(u.st, w, at) && |u.st.g.mlmi[x].outputs| < u.lim.lout && |u.st.g.mlmi[x].instrs| < u.lim.s
    requires w.Cell? ==> w.m in u.st.g.mlmi[x].inputs
    modifies u
    ensures Ready(u, g0, first, x, at) && OnlyLayer(old(u.st), u.st, old(u.rho), u.rho, at) && u.st.nl == old(u.st.nl) && u.st.g.nodes == old(u.st.g.nodes) && u.st.layers == old(u.st.layers)
    ensures WireOk(u.st, Cell(c), at + 1) && OriginOf(u.rho, c) == WireOrigin(old(u.rho), w) && c == old(u.st.k)
    ensures x in old(u.st.g.mlmi) && u.st.g.mlmi[x].inputs == old(u.st.g.mlmi[x].inputs) && u.st.g.mlmi[x].outputs == old(u.st.g.mlmi[x].outputs) + [c]
    ensures |u.st.g.mlmi[x].instrs| == |old(u.st.g.mlmi[x].instrs)| + 1 && forall y :: y in old(u.st.g.mlmi) && y != x ==> y in u.st.g.mlmi && u.st.g.mlmi[y] == old(u.st.g.mlmi[y])
    ensures NodesOk(old(u.st.g)) && BackOk(old(u.st.g)) && (forall z: nat :: Available(old(u.st.g), z) && z < old(u.st.k) ==> Available(u.st.g, z))
  {
    hide *;
    ghost var s, r0 := u.st, u.rho;
    ReadyParts(u, g0, first, x, at);
    u.ValidParts(g0, first);
    var zero := w.Null?;
    var m := if w.Cell? then w.m else 0;
    if w.Cell? { WireIs(s, m, at); }
    MakeCanCopyAny(s, x, m, zero);
    CopySound(g0, first, s, u.rho, x, m, zero, false, false);
    CopyIs(s, x, m, zero, false, false);
    MovedNode(s, x, m, zero);
    MoveWithin(s, x, m, zero, u.lim);
    c := u.st.k;
    ghost var o := if zero then Zero else OriginOf(u.rho, m);
    u.st := CopyInto(u.st, x, m, zero, false, false);
    u.rho := u.rho[c := o];
    WireOriginIs(r0, w, m);
    SoundParts(g0, first, u.st, u.rho);
    OriginsGrow(r0, c, o, m);
    OneNodeOnly(s, u.st, r0, u.rho, x, at);
    u.MakeValid(g0, first);
    MakeReady(u, g0, first, x, at);
    MakeWire(u.st, c, at + 1);
  }

  lemma WireOriginIs(rho: Origins, w: Wire, m: nat)
    ensures WireOrigin(rho, w) == if w.Cell? then OriginOf(rho, w.m) else Zero
  {
    hide OriginOf;
  }

  lemma MakeWire(st: St, c: nat, at: nat)
    requires NodesOk(st.g) && BackOk(st.g) && c < st.k && Available(st.g, c) && 0 <= Level(st, c) < at
    ensures WireOk(st, Cell(c), at)
  {
    hide NodeOk; hide BackOk; hide Available; hide Level;
  }

  lemma MovedNode(s: St, x: nat, m: nat, zero: bool)
    requires x in s.g.mlmi && (zero || m in s.g.mlmi[x].inputs)
    ensures var t := CopyInto(s, x, m, zero, false, false);
      && x in t.g.mlmi && t.g.mlmi == s.g.mlmi[x := t.g.mlmi[x]] && t.g.mlmi[x].inputs == s.g.mlmi[x].inputs && t.g.mlmi[x].outputs == s.g.mlmi[x].outputs + [s.k]
      && |t.g.mlmi[x].instrs| == |s.g.mlmi[x].instrs| + 1 && t.g.nodes == s.g.nodes && t.g.progInputs == s.g.progInputs && t.g.progOutputs == s.g.progOutputs
  {
    hide EdgeFor;
  }

  lemma MoveWithin(s: St, x: nat, m: nat, zero: bool, lim: Limits)
    requires Within(s, lim) && x in s.g.nodes && x in s.g.mlmi && NodesOk(s.g) && Below(s.g, s.k) && (zero || m in s.g.mlmi[x].inputs)
    requires |s.g.mlmi[x].outputs| < lim.lout && |s.g.mlmi[x].instrs| < lim.s
    ensures Within(CopyInto(s, x, m, zero, false, false), lim)
  {
    MovedNode(s, x, m, zero);
    hide EdgeFor; hide CopyInto; hide NodeOk;
    var t := CopyInto(s, x, m, zero, false, false);
    assert NodeBelow(s.g.mlmi[x], s.k);
    MovedWithin(s.g.mlmi[x], t.g.mlmi[x], s.k, lim);
    hide NodeWithin;
  }

  lemma MovedWithin(n: Mlmi, mi: Mlmi, k: nat, lim: Limits)
    requires NodeWithin(n, lim) && |n.outputs| < lim.lout && |n.instrs| < lim.s && k !in n.outputs
    requires mi.inputs == n.inputs && mi.outputs == n.outputs + [k] && |mi.instrs| == |n.instrs| + 1
    ensures NodeWithin(mi, lim)
  {
  }

  /** Wires `off..off+i` have been replaced by the copies of the group. */
  ghost predicate Partly(rho: Origins, before: seq<Origin>, ws: seq<Wire>, g: Group, i: nat) {
    && |ws| == |before| && g.off + |g.shuffle| <= |ws| && i <= |g.shuffle| && Permutations.InRange(g.shuffle, |g.shuffle|)
    && (forall j {:trigger ws[j]} :: 0 <= j < |ws| ==> WireOrigin(rho, ws[j]) == if g.off <= j < g.off + i then before[g.off + g.shuffle[j - g.off]] else before[j])
  }

  lemma PartlyNext(rho: Origins, rho2: Origins, before: seq<Origin>, ws: seq<Wire>, g: Group, i: nat, c: nat)
    requires Partly(rho, before, ws, g, i) && i < |g.shuffle| && (forall j :: 0 <= j < |ws| ==> WireOrigin(rho2, ws[j]) == WireOrigin(rho, ws[j]))
    requires OriginOf(rho2, c) == before[g.off + g.shuffle[i]]
    ensures Partly(rho2, before, ws[g.off + i := Cell(c)], g, i + 1)
  {
    hide OriginOf;
    var w2 := ws[g.off + i := Cell(c)];
    forall j | 0 <= j < |w2| ensures WireOrigin(rho2, w2[j]) == if g.off <= j < g.off + i + 1 then before[g.off + g.shuffle[j - g.off]] else before[j] {
      if j == g.off + i { assert j - g.off == i; }
    }
  }

  lemma PartlyDone(rho: Origins, before: seq<Origin>, ws: seq<Wire>, g: Group)
    requires Partly(rho, before, ws, g, |g.shuffle|) && GroupFits(|ws|, g)
    ensures WireOrigins(rho, ws) == Permutations.Gather(before, GroupMap(|ws|, g))
  {
    hide OriginOf; hide WireOrigin;
    var m := GroupMap(|ws|, g);
    forall j | 0 <= j < |ws| ensures WireOrigins(rho, ws)[j] == Permutations.Gather(before, m)[j] { }
  }

  /** Positions that were cells, or come from cells, are cells. */
  ghost predicate CellsStay(before: seq<Wire>, ws: seq<Wire>, p: seq<nat>)
    requires |before| == |ws| == |p| && Permutations.InRange(p, |ws|)
  {
    forall j :: 0 <= j < |ws| && before[p[j]].Cell? ==> ws[j].Cell?
  }

  ghost predicate WindowCells(ws: seq<Wire>, before: seq<Wire>, g: Group, i: nat) {
    |ws| == |before| && forall j :: 0 <= j < |ws| ==> if g.off <= j < g.off + i then ws[j].Cell? else ws[j] == before[j]
  }

  /** `apply_secret_perm`: a node of MOVs for one group, in a layer of its own. */
  method AddGroup(u: Universal, ghost g0: Graph, ghost first: nat, at: nat, ws0: seq<Wire>, g: Group) returns (ws: seq<Wire>)
    requires u.Valid(g0, first) && NodesOk(u.st.g) && BackOk(u.st.g) && at <= |u.st.layers| && WiresOk(u.st, ws0, at) && GroupFits(|ws0|, g)
    requires |g.shuffle| <= u.lim.lin && |g.shuffle| <= u.lim.lout
    modifies u
    ensures u.Valid(g0, first) && NodesOk(u.st.g) && BackOk(u.st.g) && Inserted(old(u.st), u.st, old(u.rho), u.rho, at, 1) && |ws| == |ws0| && WiresOk(u.st, ws, at + 1)
    ensures WireOrigins(u.rho, ws) == Permutations.Gather(WireOrigins(old(u.rho), ws0), GroupMap(|ws0|, g))
    ensures WindowCells(ws, ws0, g, |g.shuffle|) && GroupPlaced(old(u.st), u.st, at, ws0, ws, g)
  {
    hide *;
    ghost var s0, r0 := u.st, u.rho;
    ghost var before := WireOrigins(u.rho, ws0);
    u.ValidParts(g0, first);
    FitsIs(|ws0|, g);
    InsertSound(g0, first, s0, u.rho, at);
    InsertedLayer(s0, u.rho, at);
    InsertWithin(s0, at, u.lim);
    InsertIs(s0, at);
    u.st := InsertLayer(u.st, at);
    u.MakeValid(g0, first);
    ghost var s1 := u.st;
    var x := u.Create(g0, first, at);
    ghost var s2 := u.st;
    MakeReady(u, g0, first, x, at);
    StaysThen(s0, s1, s2, r0, r0, r0, at, x);
    CreatedLayers(s0, s1, s2, r0, x, at);
    ghost var window := ws0[g.off..g.off + |g.shuffle|];
    var cells := CellsOf(ws0[g.off..g.off + |g.shuffle|]);
    forall m | m in cells ensures WireOk(s2, Cell(m), at) { WireInside(s0, s2, r0, r0, at, 1, ws0, g.off, |g.shuffle|, m); }
    GiveInputs(u, g0, first, x, at, cells);
    StaysThen(s0, s2, u.st, r0, r0, r0, at, x);
    ws := ws0;
    ReadyParts(u, g0, first, x, at);
    StartGroup(r0, ws0, before, g);
    NothingCopied(ws0, g.off);
    forall j | 0 <= j < |ws0| ensures WireOk(u.st, ws0[j], at) && WireOk(u.st, ws0[j], at + 1) && WireOrigin(u.rho, ws0[j]) == WireOrigin(r0, ws0[j]) {
      WireAt(s0, ws0, at, j);
      WireMoves(s0, u.st, r0, r0, at, 1, ws0[j]);
      WireLater(u.st, ws0[j], at);
    }
    for i := 0 to |g.shuffle|
      invariant Ready(u, g0, first, x, at) && NodesOk(u.st.g) && BackOk(u.st.g) && Inserted(s0, u.st, r0, u.rho, at, 1) && |ws| == |ws0| && x in u.st.g.mlmi
      invariant u.st.g.mlmi[x].inputs == cells && |u.st.g.mlmi[x].outputs| == i && |u.st.g.mlmi[x].instrs| == i && x !in s0.g.mlmi
      invariant (forall j :: 0 <= j < |ws0| ==> WireOk(u.st, ws0[j], at) && WireOrigin(u.rho, ws0[j]) == WireOrigin(r0, ws0[j])) && (forall j :: 0 <= j < |ws| ==> WireOk(u.st, ws[j], at + 1))
      invariant Partly(u.rho, before, ws, g, i) && WindowCells(ws, ws0, g, i)
      invariant u.st.layers == s2.layers && Copied(ws, ws0, u.st.g.mlmi[x].outputs, g.off)
    {
      ghost var s, r := u.st, u.rho;
      var w := ws0[g.off + g.shuffle[i]];
      ReadyParts(u, g0, first, x, at);
      u.ValidParts(g0, first);
      assert w in window by { assert window[g.shuffle[i]] == w; }
      var c := MoveWire(u, g0, first, x, at, w);
      StaysThen(s0, s, u.st, r0, r, u.rho, at, x);
      ReadyParts(u, g0, first, x, at);
      forall j | 0 <= j < |ws0| ensures WireOk(u.st, ws0[j], at) && WireOrigin(u.rho, ws0[j]) == WireOrigin(r0, ws0[j]) { WireKept(s, u.st, r, u.rho, at, ws0[j], at); }
      forall j | 0 <= j < |ws| ensures WireOk(u.st, ws[j], at + 1) && WireOrigin(u.rho, ws[j]) == WireOrigin(r, ws[j]) { WireKept(s, u.st, r, u.rho, at, ws[j], at + 1); }
      OriginsAt(r0, ws0, g.off + g.shuffle[i]);
      PartlyNext(r, u.rho, before, ws, g, i, c);
      WindowNext(ws, ws0, g, i, c);
      CopiedNext(ws, ws0, s.g.mlmi[x].outputs, g.off, c);
      ws := ws[g.off + i := Cell(c)];
    }
    PartlyDone(u.rho, before, ws, g);
    ReadyParts(u, g0, first, x, at);
    MakeWires(u.st, ws, at + 1);
    MakePlaced(s0, u.st, r0, u.rho, at, ws0, ws, g, x);
  }

  /** The new layer holds the new node alone. */
  lemma CreatedLayers(s0: St, s1: St, s2: St, rho: Origins, x: nat, at: nat)
    requires at <= |s0.layers| && s1 == InsertLayer(s0, at) && OnlyLayer(s1, s2, rho, rho, at) && |s1.layers| == |s0.layers| + 1 && s2.layers[at] == s1.layers[at] + [x]
    ensures s2.layers == s0.layers[..at] + [[x]] + s0.layers[at..]
  {
    OnlyLayerIs(s1, s2, rho, rho, at);
    hide OnlyLayer;
    var made := s0.layers[..at] + [[x]] + s0.layers[at..];
    assert |s2.layers| == |made|;
    forall j | 0 <= j < |made| ensures s2.layers[j] == made[j] { }
  }

  lemma NothingCopied(ws: seq<Wire>, off: nat)
    ensures Copied(ws, ws, [], off)
  {
  }

  lemma CopiedNext(ws: seq<Wire>, ws0: seq<Wire>, outputs: seq<nat>, off: nat, c: nat)
    requires Copied(ws, ws0, outputs, off) && off + |outputs| < |ws|
    ensures Copied(ws[off + |outputs| := Cell(c)], ws0, outputs + [c], off)
  {
  }

  lemma MakePlaced(s: St, t: St, rho: Origins, rho2: Origins, at: nat, ws0: seq<Wire>, ws: seq<Wire>, g: Group, x: nat)
    requires Inserted(s, t, rho, rho2, at, 1) && at <= |s.layers| && t.layers == s.layers[..at] + [[x]] + s.layers[at..] && x in t.g.mlmi
    requires g.off + |g.shuffle| <= |ws0| == |ws| && t.g.mlmi[x].inputs == CellsOf(ws0[g.off..g.off + |g.shuffle|])
    requires Copied(ws, ws0, t.g.mlmi[x].outputs, g.off) && |t.g.mlmi[x].outputs| == |g.shuffle|
    ensures GroupPlaced(s, t, at, ws0, ws, g)
  {
    hide Level; hide OriginOf; hide Copied; hide CellsOf;
    assert NodePlaced(s, t, at, ws0, ws, g, x);
  }

  lemma WireLater(st: St, w: Wire, at: nat)
    requires NodesOk(st.g) && BackOk(st.g) && WireOk(st, w, at)
    ensures WireOk(st, w, at + 1)
  {
    hide NodeOk; hide BackOk; hide Available; hide Level;
  }

  lemma FitsIs(n: nat, g: Group)
    requires GroupFits(n, g)
    ensures g.off + |g.shuffle| <= n && Permutations.InRange(g.shuffle, |g.shuffle|) && forall i :: 0 <= i < |g.shuffle| ==> g.shuffle[i] < |g.shuffle|
  {
  }

  lemma InsertIs(st: St, at: nat)
    requires at <= |st.layers|
    ensures InsertLayer(st, at).g == st.g && InsertLayer(st, at).k == st.k && |InsertLayer(st, at).layers| == |st.layers| + 1
  {
  }

  /** A step that changes only the new node `x` keeps the relation to the state before the insertion. */
  lemma StaysThen(s0: St, s: St, t: St, r0: Origins, r: Origins, r2: Origins, at: nat, x: nat)
    requires Inserted(s0, s, r0, r, at, 1) && OnlyLayer(s, t, r, r2, at) && s.g.nodes <= t.g.nodes && x !in s0.g.mlmi
    requires forall y :: y in s.g.mlmi && y != x ==> y in t.g.mlmi && t.g.mlmi[y] == s.g.mlmi[y]
    ensures Inserted(s0, t, r0, r2, at, 1)
  {
    hide Level; hide OriginOf;
  }

  lemma WireAt(st: St, ws: seq<Wire>, at: nat, j: nat)
    requires NodesOk(st.g) && BackOk(st.g) && WiresOk(st, ws, at) && j < |ws|
    ensures WireOk(st, ws[j], at)
  {
    hide NodeOk; hide BackOk; hide WireOk;
  }

  lemma MakeWires(st: St, ws: seq<Wire>, at: nat)
    requires NodesOk(st.g) && BackOk(st.g) && forall j :: 0 <= j < |ws| ==> WireOk(st, ws[j], at)
    ensures WiresOk(st, ws, at)
  {
    hide NodeOk; hide BackOk; hide WireOk;
  }

  lemma WireInside(s: St, t: St, rho: Origins, rho2: Origins, at: nat, d: nat, ws: seq<Wire>, off: nat, n: nat, m: nat)
    requires NodesOk(s.g) && BackOk(s.g) && NodesOk(t.g) && BackOk(t.g) && Inserted(s, t, rho, rho2, at, d) && WiresOk(s, ws, at) && off + n <= |ws| && m in CellsOf(ws[off..off + n])
    requires forall z: nat :: Available(s.g, z) && z < s.k ==> Available(t.g, z)
    ensures WireOk(t, Cell(m), at)
  {
    hide *;
    CellsAre(ws[off..off + n], m);
    var j :| 0 <= j < n && ws[off..off + n][j] == Cell(m);
    WireAt(s, ws, at, off + j);
    WireMoves(s, t, rho, rho2, at, d, Cell(m));
  }

  lemma CellsAre(ws: seq<Wire>, m: nat)
    ensures m in CellsOf(ws) <==> Cell(m) in ws
  {
  }

  lemma WireKept(s: St, t: St, rho: Origins, rho2: Origins, at: nat, w: Wire, lim: nat)
    requires NodesOk(s.g) && BackOk(s.g) && NodesOk(t.g) && BackOk(t.g) && OnlyLayer(s, t, rho, rho2, at) && WireOk(s, w, lim)
    requires forall z: nat :: Available(s.g, z) && z < s.k ==> Available(t.g, z)
    ensures WireOk(t, w, lim) && WireOrigin(rho2, w) == WireOrigin(rho, w)
  {
    hide NodeOk; hide BackOk; hide Available; hide Level; hide OriginOf;
  }

  lemma OriginsAt(rho: Origins, ws: seq<Wire>, j: nat)
    requires j < |ws|
    ensures WireOrigins(rho, ws)[j] == WireOrigin(rho, ws[j])
  {
  }

  lemma StartGroup(rho: Origins, ws: seq<Wire>, before: seq<Origin>, g: Group)
    requires before == WireOrigins(rho, ws) && GroupFits(|ws|, g)
    ensures Partly(rho, before, ws, g, 0) && WindowCells(ws, ws, g, 0)
  {
    hide WireOrigin;
  }

  lemma WindowNext(ws: seq<Wire>, before: seq<Wire>, g: Group, i: nat, c: nat)
    requires WindowCells(ws, before, g, i) && g.off + i < |ws|
    ensures WindowCells(ws[g.off + i := Cell(c)], before, g, i + 1)
  {
  }

  // ----- rows -----

  /** Where the routing stands: the wires hold what the index map `p` says, and cells have not become constants. */
  ghost predicate Routed(rho0: Origins, ws0: seq<Wire>, rho: Origins, ws: seq<Wire>, p: seq<nat>) {
    && |ws| == |ws0| == |p| && Permutations.InRange(p, |ws|)
    && WireOrigins(rho, ws) == Permutations.Gather(WireOrigins(rho0, ws0), p) && CellsStay(ws0, ws, p)
  }

  lemma RoutedStart(rho: Origins, ws: seq<Wire>)
    ensures Routed(rho, ws, rho, ws, Permutations.Identity(|ws|))
  {
    hide WireOrigin;
    Permutations.GatherIdentity(WireOrigins(rho, ws));
  }

  lemma RoutedGroup(rho0: Origins, ws0: seq<Wire>, rho: Origins, ws: seq<Wire>, p: seq<nat>, rho2: Origins, ws2: seq<Wire>, g: Group)
    requires Routed(rho0, ws0, rho, ws, p) && GroupFits(|ws|, g) && |ws2| == |ws|
    requires WireOrigins(rho2, ws2) == Permutations.Gather(WireOrigins(rho, ws), GroupMap(|ws|, g)) && WindowCells(ws2, ws, g, |g.shuffle|)
    ensures Routed(rho0, ws0, rho2, ws2, Permutations.Gather(p, GroupMap(|ws|, g)))
  {
    hide WireOrigin;
    var m := GroupMap(|ws|, g);
    Permutations.GatherAssoc(WireOrigins(rho0, ws0), p, m);
    var q := Permutations.Gather(p, m);
    forall j | 0 <= j < |ws2| && ws0[q[j]].Cell? ensures ws2[j].Cell? { assert q[j] == p[m[j]]; }
  }

  lemma RoutedPublic(rho0: Origins, ws0: seq<Wire>, rho: Origins, ws: seq<Wire>, p: seq<nat>, w: seq<nat>)
    requires Routed(rho0, ws0, rho, ws, p) && |w| == |ws| && Permutations.InRange(w, |ws|)
    ensures Routed(rho0, ws0, rho, Permutations.Gather(ws, w), Permutations.Gather(p, w))
  {
    hide WireOrigin;
    var ws2, q := Permutations.Gather(ws, w), Permutations.Gather(p, w);
    Permutations.GatherAssoc(WireOrigins(rho0, ws0), p, w);
    assert WireOrigins(rho, ws2) == Permutations.Gather(WireOrigins(rho, ws), w);
  }

  ghost predicate GroupsFit(n: nat, gs: seq<Group>, size: nat) {
    forall k :: 0 <= k < |gs| ==> GroupFits(n, gs[k]) && |gs[k].shuffle| <= size
  }

  /** One secret row: its groups one after the other. */
  method AddGroups(u: Universal, ghost g0: Graph, ghost first: nat, at: nat, ws0: seq<Wire>, gs: seq<Group>, ghost p: seq<nat>, ghost r0: Origins, ghost base: seq<Wire>, ghost topo: seq<seq<Wiring>>, ghost net: Net) returns (ws: seq<Wire>, d: nat)
    requires u.Valid(g0, first) && NodesOk(u.st.g) && BackOk(u.st.g) && at <= |u.st.layers| && WiresOk(u.st, ws0, at) && Routed(r0, base, u.rho, ws0, p)
    requires GroupsFit(|ws0|, gs, if u.lim.lin <= u.lim.lout then u.lim.lin else u.lim.lout)
    requires Laid(u.st, topo, net, ws0) && at == |topo| + |net.layers|
    modifies u
    ensures u.Valid(g0, first) && NodesOk(u.st.g) && BackOk(u.st.g) && Inserted(old(u.st), u.st, old(u.rho), u.rho, at, d) && |ws| == |ws0| && WiresOk(u.st, ws, at + d)
    ensures (forall k :: 0 <= k < |gs| ==> GroupFits(|ws0|, gs[k])) && Routed(r0, base, u.rho, ws, Permutations.Gather(p, GroupsMap(|ws0|, gs)))
    ensures Laid(u.st, topo, AfterSpans(net, |topo|, SpansOf(gs)), ws) && d == |gs|
    ensures at + d <= |u.st.layers| && u.st.layers[at + d..] == old(u.st.layers)[at..]
  {
    hide *;
    ghost var s0, q0 := u.st, u.rho;
    GroupsAll(|ws0|, gs, if u.lim.lin <= u.lim.lout then u.lim.lin else u.lim.lout);
    RoutedSizes(r0, base, u.rho, ws0, p);
    ws, d := ws0, 0;
    InsertedNone(s0, q0, at);
    NoGroups(|ws0|, p, gs);
    NoSpans(net, |topo|, gs);
    RangeIs(GroupsMap(|ws0|, []), |ws0|);
    for i := 0 to |gs|
      invariant u.Valid(g0, first) && NodesOk(u.st.g) && BackOk(u.st.g) && Inserted(s0, u.st, q0, u.rho, at, d) && d == i && |ws| == |ws0| && WiresOk(u.st, ws, at + d)
      invariant |u.st.layers| == |s0.layers| + d && |p| == |ws0| && Permutations.InRange(p, |ws0|) && (forall k :: 0 <= k < |gs[..i]| ==> GroupFits(|ws0|, gs[..i][k]))
      invariant forall j :: 0 <= j < |ws0| ==> GroupsMap(|ws0|, gs[..i])[j] < |p|
      invariant Routed(r0, base, u.rho, ws, Permutations.Gather(p, GroupsMap(|ws0|, gs[..i])))
      invariant Laid(u.st, topo, AfterSpans(net, |topo|, SpansOf(gs[..i])), ws) && |AfterSpans(net, |topo|, SpansOf(gs[..i])).layers| == |net.layers| + i
      invariant at + d <= |u.st.layers| && u.st.layers[at + d..] == s0.layers[at..]
    {
      ghost var s, r, w, n := u.st, u.rho, ws, AfterSpans(net, |topo|, SpansOf(gs[..i]));
      ws := AddGroup(u, g0, first, at + d, ws, gs[i]);
      InsertedSize(s, u.st, r, u.rho, at + d, 1);
      InsertedTrans(s0, s, u.st, q0, r, u.rho, at, d, 1);
      RoutedGroup(r0, base, r, w, Permutations.Gather(p, GroupsMap(|ws0|, gs[..i])), u.rho, ws, gs[i]);
      GroupLaid(s, u.st, topo, n, at + d, w, ws, gs[i]);
      NextSpan(net, |topo|, gs, i);
      GroupsSnoc(|ws0|, gs[..i], gs[i]);
      RangeIs(GroupMap(|ws0|, gs[i]), |ws0|);
      RangeIs(GroupsMap(|ws0|, gs[..i] + [gs[i]]), |ws0|);
      Permutations.GatherAssoc(p, GroupsMap(|ws0|, gs[..i]), GroupMap(|ws0|, gs[i]));
      assert gs[..i] + [gs[i]] == gs[..i + 1];
      d := d + 1;
    }
    assert gs[..|gs|] == gs;
  }

  lemma NoSpans(net: Net, at: nat, gs: seq<Group>)
    ensures AfterSpans(net, at, SpansOf(gs[..0])) == net
  {
  }

  lemma NextSpan(net: Net, at: nat, gs: seq<Group>, i: nat)
    requires i < |gs|
    ensures AfterSpans(net, at, SpansOf(gs[..i + 1])) == AfterSpan(AfterSpans(net, at, SpansOf(gs[..i])), at, Span(gs[i].off, |gs[i].shuffle|))
    ensures |AfterSpans(net, at, SpansOf(gs[..i + 1])).layers| == |AfterSpans(net, at, SpansOf(gs[..i])).layers| + 1
  {
    hide Filled; hide Window; hide Renewed;
    assert SpansOf(gs[..i + 1])[..i] == SpansOf(gs[..i]);
  }

  lemma RangeIs(p: seq<nat>, n: nat)
    ensures Permutations.InRange(p, n) <==> forall j :: 0 <= j < |p| ==> p[j] < n
  {
  }

  lemma GroupsAll(n: nat, gs: seq<Group>, size: nat)
    requires GroupsFit(n, gs, size)
    ensures forall k :: 0 <= k < |gs| ==> GroupFits(n, gs[k]) && |gs[k].shuffle| <= size
  {
    hide GroupFits;
  }

  lemma RoutedSizes(rho0: Origins, ws0: seq<Wire>, rho: Origins, ws: seq<Wire>, p: seq<nat>)
    requires Routed(rho0, ws0, rho, ws, p)
    ensures |ws| == |ws0| == |p| && Permutations.InRange(p, |ws|)
  {
  }

  lemma NoGroups(n: nat, p: seq<nat>, gs: seq<Group>)
    requires |p| == n && Permutations.InRange(p, n)
    ensures gs[..0] == [] && Permutations.Gather(p, GroupsMap(n, [])) == p
  {
    Permutations.GatherIdentity(p);
  }

  lemma InsertedSize(s: St, t: St, rho: Origins, rho2: Origins, at: nat, d: nat)
    requires Inserted(s, t, rho, rho2, at, d)
    ensures |t.layers| == |s.layers| + d && s.k <= t.k
  {
    hide Level; hide OriginOf;
  }

  ghost predicate RowsFit(n: nat, rows: seq<Row>, size: nat) {
    Fits(n, rows) && BenesMulti.WindowsBelow(rows, size)
  }

  lemma RowAt(n: nat, rows: seq<Row>, size: nat, i: nat)
    requires RowsFit(n, rows, size) && i < |rows|
    ensures Fits(n, rows) && RowFits(n, rows[i]) && (rows[i].Secret? ==> GroupsFit(n, rows[i].groups, size)) && (rows[i].Public? ==> |rows[i].wiring| == n && Permutations.InRange(rows[i].wiring, n))
    ensures Fits(n, rows[..i]) && Fits(n, rows[..i + 1])
  {
    hide GroupFits;
    assert RowFits(n, rows[i]);
    assert BenesMulti.RowBelow(rows[i], size);
    FitsPrefix(n, rows, i);
    FitsPrefix(n, rows, i + 1);
  }

  lemma FitsPrefix(n: nat, rows: seq<Row>, i: nat)
    requires Fits(n, rows) && i <= |rows|
    ensures Fits(n, rows[..i])
  {
    hide RowFits;
  }

  /** The rows of the network: wiring between nodes is a renaming of wires, secret rows are nodes. Which nodes there are and
      what they read is the topology of the shape of the program. */
  method AddRows(u: Universal, ghost g0: Graph, ghost first: nat, at: nat, ws0: seq<Wire>, rows: seq<Row>, ghost topo: seq<seq<Wiring>>, ghost lines: seq<Source>) returns (ws: seq<Wire>, d: nat)
    requires u.Valid(g0, first) && NodesOk(u.st.g) && BackOk(u.st.g) && at <= |u.st.layers| && WiresOk(u.st, ws0, at)
    requires RowsFit(|ws0|, rows, if u.lim.lin <= u.lim.lout then u.lim.lin else u.lim.lout)
    requires Laid(u.st, topo, Net([], lines), ws0) && at == |topo|
    modifies u
    ensures u.Valid(g0, first) && NodesOk(u.st.g) && BackOk(u.st.g) && Inserted(old(u.st), u.st, old(u.rho), u.rho, at, d) && |ws| == |ws0| && WiresOk(u.st, ws, at + d)
    ensures Fits(|ws0|, rows) && Routed(old(u.rho), ws0, u.rho, ws, ProgramMap(|ws0|, rows))
    ensures Laid(u.st, topo, AfterShape(Net([], lines), at, ShapeOf(rows)), ws) && d == |AfterShape(Net([], lines), at, ShapeOf(rows)).layers|
    ensures at + d <= |u.st.layers| && u.st.layers[at + d..] == old(u.st.layers)[at..]
  {
    hide *;
    ghost var s0, r0, n := u.st, u.rho, |ws0|;
    ghost var size := if u.lim.lin <= u.lim.lout then u.lim.lin else u.lim.lout;
    ghost var net0 := Net([], lines);
    ws, d := ws0, 0;
    InsertedNone(s0, r0, at);
    RoutedStart(r0, ws0);
    NoRows(n, rows);
    NoOutlines(net0, at, rows);
    for i := 0 to |rows|
      invariant u.Valid(g0, first) && NodesOk(u.st.g) && BackOk(u.st.g) && Inserted(s0, u.st, r0, u.rho, at, d) && |ws| == n && WiresOk(u.st, ws, at + d)
      invariant |u.st.layers| == |s0.layers| + d && Fits(n, rows[..i]) && Routed(r0, ws0, u.rho, ws, ProgramMap(n, rows[..i]))
      invariant Laid(u.st, topo, AfterShape(net0, at, ShapeOf(rows[..i])), ws) && |AfterShape(net0, at, ShapeOf(rows[..i])).layers| == d
      invariant at + d <= |u.st.layers| && u.st.layers[at + d..] == s0.layers[at..]
    {
      ghost var s, r, w, p, net := u.st, u.rho, ws, ProgramMap(n, rows[..i]), AfterShape(net0, at, ShapeOf(rows[..i]));
      RowAt(n, rows, size, i);
      ProgramSnoc(n, rows[..i], rows[i]);
      NextOutline(net0, at, rows, i);
      assert rows[..i] + [rows[i]] == rows[..i + 1];
      match rows[i] {
        case Public(wiring) =>
          RangeIs(wiring, n);
          ws := Permutations.Gather(ws, wiring);
          RoutedPublic(r0, ws0, r, w, p, wiring);
          WiresGathered(u.st, w, wiring, at + d);
          LaidRerouted(u.st, topo, net, at, w, wiring);
          RowMapIs(n, rows[i]);
        case Secret(groups) =>
          var e;
          ws, e := AddGroups(u, g0, first, at + d, ws, groups, p, r0, ws0, topo, net);
          InsertedSize(s, u.st, r, u.rho, at + d, e);
          InsertedTrans(s0, s, u.st, r0, r, u.rho, at, d, e);
          SpansAdd(net, at, SpansOf(groups));
          SpansSize(groups);
          RowMapIs(n, rows[i]);
          d := d + e;
      }
    }
    assert rows[..|rows|] == rows;
  }

  lemma SpansSize(gs: seq<Group>)
    ensures |SpansOf(gs)| == |gs|
  {
  }

  lemma NoOutlines(net: Net, at: nat, rows: seq<Row>)
    ensures AfterShape(net, at, ShapeOf(rows[..0])) == net
  {
  }

  lemma NextOutline(net: Net, at: nat, rows: seq<Row>, i: nat)
    requires i < |rows|
    ensures rows[i].Public? ==> AfterShape(net, at, ShapeOf(rows[..i + 1])) == AfterOutline(AfterShape(net, at, ShapeOf(rows[..i])), at, Wires(rows[i].wiring))
    ensures rows[i].Secret? ==> AfterShape(net, at, ShapeOf(rows[..i + 1])) == AfterSpans(AfterShape(net, at, ShapeOf(rows[..i])), at, SpansOf(rows[i].groups))
  {
    hide AfterSpans; hide SpansOf; hide Rerouted;
    assert ShapeOf(rows[..i + 1])[..i] == ShapeOf(rows[..i]);
    assert ShapeOf(rows[..i + 1])[i] == OutlineOf(rows[i]);
  }

  /** A public row renames the lines. */
  lemma LaidRerouted(st: St, topo: seq<seq<Wiring>>, net: Net, at: nat, ws: seq<Wire>, w: seq<nat>)
    requires Laid(st, topo, net, ws) && Permutations.InRange(w, |ws|)
    ensures Laid(st, topo, AfterOutline(net, at, Wires(w)), Permutations.Gather(ws, w)) && AfterOutline(net, at, Wires(w)).layers == net.layers
  {
    hide Drawn; hide IsLine;
    var next, d := Permutations.Gather(ws, w), |topo| + |net.layers|;
    var lines := Rerouted(net.lines, w);
    forall j | 0 <= j < |next| ensures IsLine(st, next[j], lines[j], d) { assert IsLine(st, ws[w[j]], net.lines[w[j]], d); }
  }

  lemma NoRows(n: nat, rows: seq<Row>)
    ensures rows[..0] == [] && Fits(n, []) && ProgramMap(n, []) == Permutations.Identity(n)
  {
  }

  lemma RowMapIs(n: nat, row: Row)
    requires RowFits(n, row)
    ensures row.Public? ==> RowMap(n, row) == row.wiring
    ensures row.Secret? ==> (forall k :: 0 <= k < |row.groups| ==> GroupFits(n, row.groups[k])) && RowMap(n, row) == GroupsMap(n, row.groups)
  {
  }

  lemma WiresGathered(st: St, ws: seq<Wire>, p: seq<nat>, at: nat)
    requires NodesOk(st.g) && BackOk(st.g) && WiresOk(st, ws, at) && Permutations.InRange(p, |ws|)
    ensures WiresOk(st, Permutations.Gather(ws, p), at)
  {
    hide NodeOk; hide BackOk; hide WireOk;
  }
}
