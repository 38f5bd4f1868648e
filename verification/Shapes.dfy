/** What compiled routing programs of compiler/src/universalization/routing.py show besides their secret shuffles: the
    wiring of the public rows, and offset and length of every secret shuffle. It depends on `m` and `le` alone. */
module Shapes {
  import opened Bits
  import opened Permutations
  import opened Cycles
  import opened Rotations
  import opened Rows

  datatype Span = Span(off: nat, size: nat)
  datatype Outline = Wires(wiring: seq<nat>) | Windows(spans: seq<Span>)

  function SpansOf(gs: seq<Group>): (r: seq<Span>)
    ensures |r| == |gs| && forall k :: 0 <= k < |gs| ==> r[k] == Span(gs[k].off, |gs[k].shuffle|)
  {
    seq(|gs|, k requires 0 <= k < |gs| => Span(gs[k].off, |gs[k].shuffle|))
  }

  function OutlineOf(row: Row): Outline {
    match row
    case Public(w) => Wires(w)
    case Secret(gs) => Windows(SpansOf(gs))
  }

  /** The public part of a program. */
  function ShapeOf(rows: seq<Row>): (r: seq<Outline>)
    ensures |r| == |rows| && forall k :: 0 <= k < |rows| ==> r[k] == OutlineOf(rows[k])
  {
    seq(|rows|, k requires 0 <= k < |rows| => OutlineOf(rows[k]))
  }

  lemma ShapeAppend(a: seq<Row>, b: seq<Row>)
    ensures ShapeOf(a + b) == ShapeOf(a) + ShapeOf(b)
  {
    hide OutlineOf;
  }

  lemma ShapeSnoc(rows: seq<Row>, row: Row)
    ensures ShapeOf(rows + [row]) == ShapeOf(rows) + [OutlineOf(row)]
  {
    hide OutlineOf;
  }

  // ----- Benes networks in windows -----

  /** `count` windows of the given size, side by side. */
  function Cuts(window: nat, count: nat): (r: seq<Span>)
    ensures |r| == count && forall k :: 0 <= k < count ==> k * window >= 0 && r[k] == Span(k * window, window)
  {
    seq(count, k requires 0 <= k < count => assert k * window >= 0; Span(k * window, window))
  }

  /** First bits of the bands before the middle one, from column `i` on. */
  function PrefixBits(i: nat, midl: nat, le: nat): seq<nat>
    requires le >= 1
    decreases midl - i
  {
    if i >= midl then [] else [i] + PrefixBits(if i + le < midl then i + le else midl, midl, le)
  }

  /** First bits of the bands behind the middle one, from column `i` of `end` on. */
  function SuffixBits(i: nat, end: nat, le: nat): seq<nat>
    requires le >= 1
    decreases end - i
  {
    if i >= end then [] else
      var hi := if i + le < end then i + le else end;
      [end - hi] + SuffixBits(hi, end, le)
  }

  /** The lowest bit of every band of columns, in order. */
  function BandBits(m: nat, le: nat): seq<nat>
    requires 1 <= le < m
  {
    PrefixBits(0, m - le, le) + [m - le] + SuffixBits(m + le - 1, 2 * m - 1, le)
  }

  /** The rotation between a band at bit `from` and one at bit `to`. */
  function Turn(m: nat, from: nat, to: nat): nat
    requires m >= 1
  {
    (from + m - to % m) % m
  }

  /** What is pending behind the bands: the rotation by the lowest bit of the last one. */
  function Pending(bits: seq<nat>): nat {
    if bits == [] then 0 else bits[|bits| - 1]
  }

  /** Every band: the rotation that brings its bits down, and windows of 2^le positions side by side. */
  function BandRows(m: nat, le: nat, bits: seq<nat>): seq<Outline>
    requires 1 <= le < m
  {
    if bits == [] then [] else
      var k := |bits| - 1;
      BandRows(m, le, bits[..k]) + [Wires(IndexRotation(m, Turn(m, Pending(bits[..k]), bits[k]))), Windows(Cuts(Pow2(le), Pow2(m - le)))]
  }

  /** The shape of `BenesPermMI`. */
  function BenesShape(m: nat, le: nat): seq<Outline>
    requires le >= 1
  {
    if le >= m then [Windows([Span(0, Pow2(m))])]
    else BandRows(m, le, BandBits(m, le)) + [Wires(IndexRotation(m, Pending(BandBits(m, le)) % m))]
  }

  // ----- forward duplication -----

  /** The chunks from position `off` on: `l` positions each, overlapping by one. */
  function ChunkRows(n: nat, l: nat, off: nat): seq<Outline>
    requires l >= 2
    decreases n - off
  {
    if off + 1 >= n then [] else
      var end := if off + l < n then off + l else n;
      [Windows([Span(off, end - off)])] + ChunkRows(n, l, off + (l - 1))
  }

  /** The shape of `ForwardDupMI`. */
  function DupShape(m: nat, le: nat): seq<Outline>
    requires le >= 1
  {
    if le >= m then [Windows([Span(0, Pow2(m))])] else
      assert Pow2(le) == 2 * Pow2(le - 1);
      ChunkRows(Pow2(m), Pow2(le), 0)
  }

  /** The shape of `BDBFuncMI`: no trace of the function it routes. */
  function BdbShape(m: nat, le: nat): seq<Outline>
    requires le >= 1
  {
    BenesShape(m, le) + DupShape(m, le) + BenesShape(m, le)
  }

  // ----- optimize -----

  function IsIdle(o: Outline): bool {
    o.Wires? && o.wiring == Identity(|o.wiring|)
  }

  /** Identity wirings are removed. */
  function DropIdle(shape: seq<Outline>): seq<Outline> {
    if shape == [] then [] else
      var k := |shape| - 1;
      if IsIdle(shape[k]) then DropIdle(shape[..k]) else DropIdle(shape[..k]) + [shape[k]]
  }

  lemma {:induction false} ShapeDropped(rows: seq<Row>)
    ensures ShapeOf(DropIdentities(rows)) == DropIdle(ShapeOf(rows))
    decreases |rows|
  {
    if rows != [] {
      var k := |rows| - 1;
      ShapeDropped(rows[..k]);
      assert ShapeOf(rows)[..k] == ShapeOf(rows[..k]);
      assert ShapeOf(rows)[k] == OutlineOf(rows[k]);
    }
  }

  // ----- rotations between bands -----

  lemma TurnIs(m: nat, a: nat, b: nat)
    requires m >= 1 && a < m && b < m
    ensures Turn(m, a, b) == if a >= b then a - b else a + m - b
  {
    SmallMod(b, m);
    if a >= b { DivModUnique(a + m - b, m, 1, a - b); } else { SmallMod(a + m - b, m); }
  }

  lemma RotationAt(m: nat, s: nat, w: nat)
    requires m >= 1 && s < m && w < Pow2(m)
    ensures |IndexRotation(m, s)| == Pow2(m) && IndexRotation(m, s)[w] == Iter(RotateOne(m), s, w) < Pow2(m)
  {
    hide Pow2; hide Iter; hide ROTR;
  }

  /** Rotating m times changes nothing. */
  lemma FullTurn(m: nat, w: nat)
    requires m >= 1 && w < Pow2(m)
    ensures Iter(RotateOne(m), m, w) == w
  {
    hide *;
    RotateIter(m, m, w);
    DivModUnique(w, Pow2(m), 0, w);
    PowZero();
  }

  lemma PowZero()
    ensures Pow2(0) == 1
  {
  }

  lemma TurnAt(m: nat, a: nat, b: nat, w: nat)
    requires m >= 1 && a < m && b < m && Turn(m, a, b) < m && w < Pow2(m)
    ensures Iter(RotateOne(m), b, Iter(RotateOne(m), Turn(m, a, b), w)) == Iter(RotateOne(m), a, w)
  {
    hide *;
    TurnIs(m, a, b);
    OneInRange(m);
    IterAdd(RotateOne(m), b, Turn(m, a, b), w);
    if a < b {
      FullTurn(m, w);
      IterAdd(RotateOne(m), a, m, w);
    }
  }

  lemma OneInRange(m: nat)
    requires m >= 1
    ensures |RotateOne(m)| == Pow2(m) && InRange(RotateOne(m), |RotateOne(m)|)
  {
    hide Pow2;
  }

  lemma InverseAt(p: seq<nat>, q: seq<nat>, i: nat)
    requires AreInverse(p, q) && i < |p|
    ensures |q| == |p| && p[i] < |q| && q[p[i]] == i && InRange(p, |q|)
  {
  }

  /** Undoing the rotation by `b` after the rotation by `a` is the rotation by `Turn(m, a, b)`. */
  lemma LiftIsTurn(m: nat, a: nat, b: nat, lift: seq<nat>)
    requires m >= 1 && a < m && b < m && AreInverse(IndexRotation(m, b), lift)
    ensures Turn(m, a, b) < m && InRange(IndexRotation(m, a), |lift|) && Gather(lift, IndexRotation(m, a)) == IndexRotation(m, Turn(m, a, b))
  {
    hide *;
    TurnIs(m, a, b);
    var t := Turn(m, a, b);
    var ra, rb, rt := IndexRotation(m, a), IndexRotation(m, b), IndexRotation(m, t);
    RotationSize(m, a);
    RotationSize(m, b);
    RotationSize(m, t);
    assert |lift| == Pow2(m) by { InverseAt(rb, lift, 0); }
    forall w: nat | w < Pow2(m) ensures ra[w] < |lift| && lift[ra[w]] == rt[w] {
      RotationAt(m, a, w);
      RotationAt(m, t, w);
      RotationAt(m, b, rt[w]);
      TurnAt(m, a, b, w);
      InverseAt(rb, lift, rt[w]);
    }
    GatherIs(lift, ra, rt);
  }

  lemma RotationSize(m: nat, s: nat)
    requires m >= 1 && s < m
    ensures |IndexRotation(m, s)| == Pow2(m) >= 1 && InRange(IndexRotation(m, s), Pow2(m))
  {
  }

  lemma GatherIs(x: seq<nat>, p: seq<nat>, r: seq<nat>)
    requires |p| == |r| && forall i :: 0 <= i < |p| ==> p[i] < |x| && x[p[i]] == r[i]
    ensures InRange(p, |x|) && Gather(x, p) == r
  {
  }

  /** Undoing the rotation by `b` alone. */
  lemma LiftIsRotation(m: nat, b: nat, lift: seq<nat>)
    requires m >= 1 && b < m && AreInverse(IndexRotation(m, b), lift)
    ensures Turn(m, 0, b) < m && lift == IndexRotation(m, Turn(m, 0, b))
  {
    hide *;
    LiftIsTurn(m, 0, b, lift);
    RotationSize(m, 0);
    RotationSize(m, b);
    assert |lift| == Pow2(m) by { InverseAt(IndexRotation(m, b), lift, 0); }
    forall w: nat | w < Pow2(m) ensures IndexRotation(m, 0)[w] == w { NoRotation(m, w); }
    GatherIs(lift, IndexRotation(m, 0), lift);
  }

  lemma NoRotation(m: nat, w: nat)
    requires m >= 1 && w < Pow2(m)
    ensures IndexRotation(m, 0)[w] == w
  {
    RotationAt(m, 0, w);
    hide IndexRotation;
  }

  // ----- what the shapes are -----

  /** The outlines are public wirings that rotate the index, and rows of windows. */
  ghost predicate Turns(m: nat, shape: seq<Outline>) {
    forall k :: 0 <= k < |shape| && shape[k].Wires? ==> IsTurn(m, shape[k].wiring)
  }

  ghost predicate IsTurn(m: nat, wiring: seq<nat>) {
    m >= 1 && exists s :: 0 <= s < m && wiring == IndexRotation(m, s)
  }

  lemma {:induction false} BandsTurn(m: nat, le: nat, bits: seq<nat>)
    requires 1 <= le < m
    ensures Turns(m, BandRows(m, le, bits))
    decreases |bits|
  {
    if bits != [] {
      var k := |bits| - 1;
      BandsTurn(m, le, bits[..k]);
      var s := Turn(m, Pending(bits[..k]), bits[k]);
      hide IndexRotation;
      assert IsTurn(m, IndexRotation(m, s));
    }
  }

  lemma {:induction false} ChunksTurn(m: nat, n: nat, l: nat, off: nat)
    requires l >= 2
    ensures Turns(m, ChunkRows(n, l, off))
    decreases n - off
  {
    if off + 1 < n { ChunksTurn(m, n, l, off + (l - 1)); }
  }

  lemma TurnsAppend(m: nat, a: seq<Outline>, b: seq<Outline>)
    requires Turns(m, a) && Turns(m, b)
    ensures Turns(m, a + b)
  {
    hide IsTurn;
  }

  lemma BenesTurns(m: nat, le: nat)
    requires le >= 1
    ensures Turns(m, BenesShape(m, le))
  {
    if le < m {
      var bits := BandBits(m, le);
      BandsTurn(m, le, bits);
      assert Turns(m, [Wires(IndexRotation(m, Pending(bits) % m))]);
      TurnsAppend(m, BandRows(m, le, bits), [Wires(IndexRotation(m, Pending(bits) % m))]);
    }
  }

  lemma DupTurns(m: nat, le: nat)
    requires le >= 1
    ensures Turns(m, DupShape(m, le))
  {
    if le < m {
      assert Pow2(le) == 2 * Pow2(le - 1);
      ChunksTurn(m, Pow2(m), Pow2(le), 0);
    }
  }

  /** Every public wiring of a compiled function is a rotation of the index. */
  lemma BdbTurns(m: nat, le: nat)
    requires le >= 1
    ensures Turns(m, BdbShape(m, le))
  {
    hide *;
    BenesTurns(m, le);
    DupTurns(m, le);
    TurnsAppend(m, BenesShape(m, le), DupShape(m, le));
    TurnsAppend(m, BenesShape(m, le) + DupShape(m, le), BenesShape(m, le));
    BdbParts(m, le);
  }

  lemma BdbParts(m: nat, le: nat)
    requires le >= 1
    ensures BdbShape(m, le) == BenesShape(m, le) + DupShape(m, le) + BenesShape(m, le)
  {
  }

  predicate Holds(s: Span, j: nat) {
    s.off <= j < s.off + s.size
  }

  ghost predicate SomeHolds(spans: seq<Span>, j: nat) {
    exists k :: 0 <= k < |spans| && Holds(spans[k], j)
  }

  /** Side by side, the spans hold every position below `n` once. */
  ghost predicate Tiles(spans: seq<Span>, n: nat) {
    && (forall k :: 0 <= k < |spans| ==> spans[k].off + spans[k].size <= n)
    && (forall j: nat :: j < n ==> SomeHolds(spans, j))
    && (forall i, k, j :: 0 <= i < k < |spans| ==> !(Holds(spans[i], j) && Holds(spans[k], j)))
  }

  lemma CutAt(window: nat, count: nat, k: nat)
    requires k < count
    ensures Cuts(window, count)[k] == Span(k * window, window) && k * window + window <= count * window && (k + 1) * window == k * window + window
  {
    MulLeft(window, k + 1, count);
    MulDist(window, k, 1);
  }

  lemma CutHolds(window: nat, count: nat, j: nat)
    requires window >= 1 && j < count * window
    ensures SomeHolds(Cuts(window, count), j)
  {
    hide *;
    var k := j / window;
    QuotientBound(j, window, count);
    CutAt(window, count, k);
    CutsSize(window, count);
    HoldsQuotient(window, j);
    MakeSomeHolds(Cuts(window, count), k, j);
  }

  lemma HoldsQuotient(window: nat, j: nat)
    requires window >= 1
    ensures j / window * window >= 0 && Holds(Span(j / window * window, window), j)
  {
    assert j == window * (j / window) + j % window;
  }

  lemma MakeSomeHolds(spans: seq<Span>, k: nat, j: nat)
    requires k < |spans| && Holds(spans[k], j)
    ensures SomeHolds(spans, j)
  {
    hide Holds;
  }

  lemma CutsTile(window: nat, count: nat)
    requires window >= 1
    ensures Tiles(Cuts(window, count), count * window)
  {
    hide Cuts; hide SomeHolds;
    var c := Cuts(window, count);
    CutsSize(window, count);
    forall k | 0 <= k < |c| ensures c[k].off + c[k].size <= count * window { CutAt(window, count, k); }
    forall j: nat | j < count * window ensures SomeHolds(c, j) { CutHolds(window, count, j); }
    forall i, k, j: nat | 0 <= i < k < |c| ensures !(Holds(c[i], j) && Holds(c[k], j)) {
      CutAt(window, count, i);
      CutAt(window, count, k);
      MulLeft(window, i + 1, k);
    }
  }

  lemma CutsSize(window: nat, count: nat)
    ensures |Cuts(window, count)| == count
  {
  }

  /** Every row of windows tiles the positions. */
  ghost predicate AllTile(shape: seq<Outline>, n: nat) {
    forall k :: 0 <= k < |shape| && shape[k].Windows? ==> Tiles(shape[k].spans, n)
  }

  lemma {:induction false} BandsTile(m: nat, le: nat, bits: seq<nat>)
    requires 1 <= le < m
    ensures AllTile(BandRows(m, le, bits), Pow2(m))
    decreases |bits|
  {
    if bits != [] {
      BandsTile(m, le, bits[..|bits| - 1]);
      hide IndexRotation; hide Tiles;
      Pow2Positive(le);
      CutsTile(Pow2(le), Pow2(m - le));
      Pow2Add(m - le, le);
    }
  }

  lemma Pow2Positive(i: nat)
    ensures Pow2(i) >= 1
  {
  }

  /** In a Beneš network the windows of every secret row hold every position exactly once. */
  lemma BenesTiles(m: nat, le: nat)
    requires le >= 1
    ensures AllTile(BenesShape(m, le), Pow2(m))
  {
    hide *;
    if le >= m { WholeTiles(m, le); } else { BandsTile(m, le, BandBits(m, le)); BandsThenWires(m, le); }
  }

  lemma WholeTiles(m: nat, le: nat)
    requires 1 <= le && m <= le
    ensures AllTile(BenesShape(m, le), Pow2(m))
  {
    hide Pow2;
    var spans := [Span(0, Pow2(m))];
    forall j: nat | j < Pow2(m) ensures SomeHolds(spans, j) { assert Holds(spans[0], j); }
  }

  lemma BandsThenWires(m: nat, le: nat)
    requires 1 <= le < m && AllTile(BandRows(m, le, BandBits(m, le)), Pow2(m))
    ensures AllTile(BenesShape(m, le), Pow2(m))
  {
    hide Tiles; hide BandRows; hide IndexRotation; hide Pow2; hide BandBits;
  }

  /** Position `j` is in some window of the shape. */
  ghost predicate Held(shape: seq<Outline>, j: nat) {
    exists i :: 0 <= i < |shape| && shape[i].Windows? && SomeHolds(shape[i].spans, j)
  }

  /** The chunks hold every position from where they start; neighbours share exactly one. */
  lemma {:induction false} ChunksHold(n: nat, l: nat, off: nat, j: nat)
    requires l >= 2 && off <= j < n && off + 1 < n
    ensures Held(ChunkRows(n, l, off), j)
    decreases n - off
  {
    var rest := ChunkRows(n, l, off + (l - 1));
    var here := ChunkRows(n, l, off);
    if j < off + l {
      assert here[0].Windows? && Holds(here[0].spans[0], j);
    } else {
      ChunksHold(n, l, off + (l - 1), j);
      var i :| 0 <= i < |rest| && rest[i].Windows? && SomeHolds(rest[i].spans, j);
      assert here[i + 1] == rest[i];
    }
  }

  lemma DupHolds(m: nat, le: nat, j: nat)
    requires le >= 1 && j < Pow2(m)
    ensures Held(DupShape(m, le), j)
  {
    if le >= m {
      assert DupShape(m, le)[0].Windows? && Holds(DupShape(m, le)[0].spans[0], j);
    } else {
      assert Pow2(le) == 2 * Pow2(le - 1) && Pow2(m) == 2 * Pow2(m - 1);
      ChunksHold(Pow2(m), Pow2(le), 0, j);
    }
  }

  /** What `optimize` leaves has the same rows of windows, and wirings from before. */
  lemma {:induction false} IdleKept(shape: seq<Outline>, m: nat, n: nat)
    ensures Turns(m, shape) ==> Turns(m, DropIdle(shape))
    ensures AllTile(shape, n) ==> AllTile(DropIdle(shape), n)
    ensures forall j :: Held(shape, j) ==> Held(DropIdle(shape), j)
    decreases |shape|
  {
    hide Tiles; hide IsTurn;
    if shape != [] {
      var k := |shape| - 1;
      IdleKept(shape[..k], m, n);
      forall j | Held(shape, j) ensures Held(DropIdle(shape), j) { HeldSnoc(shape[..k], shape[k], j); HeldSnoc(DropIdle(shape[..k]), shape[k], j); assert shape == shape[..k] + [shape[k]]; }
    }
  }

  lemma HeldSnoc(shape: seq<Outline>, o: Outline, j: nat)
    ensures Held(shape + [o], j) <==> Held(shape, j) || (o.Windows? && SomeHolds(o.spans, j))
  {
    hide SomeHolds;
    var s := shape + [o];
    if Held(shape, j) {
      var i :| 0 <= i < |shape| && shape[i].Windows? && SomeHolds(shape[i].spans, j);
      assert s[i] == shape[i];
    }
    if o.Windows? && SomeHolds(o.spans, j) { assert s[|shape|] == o; }
    if Held(s, j) {
      var i :| 0 <= i < |s| && s[i].Windows? && SomeHolds(s[i].spans, j);
      if i < |shape| { assert shape[i] == s[i]; }
    }
  }
}
