/** `BenesPermMI` of compiler/src/universalization/routing.py: the columns of a Beneš network
    regrouped into multi-instructions over windows of 2^le positions. */
module BenesMulti {
  import opened Bits
  import opened Permutations
  import opened Cycles
  import opened Benes
  import opened Rotations
  import opened Rows
  import opened Shapes
  import BenesPerm

  type IColumn = (nat, Column)

  ghost predicate AreIColumns(m: nat, icols: seq<IColumn>) {
    forall k :: 0 <= k < |icols| ==> IsColumn(m, icols[k].0, icols[k].1)
  }

  /** `(min(i, 2*m-2-i), col) for i, col in enumerate(cols)` */
  function IndexColumns(m: nat, cols: seq<Column>): (r: seq<IColumn>)
    requires IsNetwork(m, cols)
    ensures |r| == |cols| && AreIColumns(m, r)
    ensures forall i :: 0 <= i < |r| ==> r[i] == (ColumnBit(m, i), cols[i])
  {
    seq(|cols|, i requires 0 <= i < |cols| => (ColumnBit(m, i), cols[i]))
  }

  function ColumnsMap(m: nat, icols: seq<IColumn>): (r: seq<nat>)
    requires AreIColumns(m, icols)
    ensures |r| == Pow2(m) && InRange(r, Pow2(m))
  {
    if icols == [] then Identity(Pow2(m))
    else
      var k := |icols| - 1;
      Gather(ColumnsMap(m, icols[..k]), ColumnMap(m, icols[k].0, icols[k].1))
  }

  lemma {:induction false} ColumnsMapIsRoute(m: nat, cols: seq<Column>, lo: nat, hi: nat)
    requires IsNetwork(m, cols) && lo <= hi <= |cols|
    ensures AreIColumns(m, IndexColumns(m, cols)[lo..hi])
    ensures ColumnsMap(m, IndexColumns(m, cols)[lo..hi]) == Route(m, cols, lo, hi)
  {
    hide *;
    var ic := IndexColumns(m, cols);
    IndexColumnsIs(m, cols);
    if lo < hi {
      ColumnsMapIsRoute(m, cols, lo, hi - 1);
      assert ic[lo..hi] == ic[lo..hi - 1] + [(ColumnBit(m, hi - 1), cols[hi - 1])];
      RouteSnoc(m, cols, lo, hi);
      ColumnsMapSnoc(m, ic[lo..hi - 1], ColumnBit(m, hi - 1), cols[hi - 1]);
    } else {
      assert ic[lo..hi] == [];
      NoColumns(m, cols, lo);
    }
  }

  lemma IndexColumnsIs(m: nat, cols: seq<Column>)
    requires IsNetwork(m, cols)
    ensures |IndexColumns(m, cols)| == |cols| == 2 * m - 1 && forall i :: 0 <= i < |cols| ==> IndexColumns(m, cols)[i] == (ColumnBit(m, i), cols[i])
  {
  }

  lemma NoColumns(m: nat, cols: seq<Column>, lo: nat)
    requires IsNetwork(m, cols) && lo <= |cols|
    ensures AreIColumns(m, []) && ColumnsMap(m, []) == Route(m, cols, lo, lo)
  {
  }

  lemma RouteSnoc(m: nat, cols: seq<Column>, lo: nat, hi: nat)
    requires IsNetwork(m, cols) && lo < hi <= |cols|
    ensures IsColumn(m, ColumnBit(m, hi - 1), cols[hi - 1])
    ensures Route(m, cols, lo, hi) == Gather(Route(m, cols, lo, hi - 1), ColumnMap(m, ColumnBit(m, hi - 1), cols[hi - 1]))
  {
  }

  lemma ColumnsMapSnoc(m: nat, icols: seq<IColumn>, b: nat, col: Column)
    requires AreIColumns(m, icols) && IsColumn(m, b, col)
    ensures AreIColumns(m, icols + [(b, col)])
    ensures ColumnsMap(m, icols + [(b, col)]) == Gather(ColumnsMap(m, icols), ColumnMap(m, b, col))
  {
    assert (icols + [(b, col)])[..|icols|] == icols;
  }

  // ----- columns on a band of bits move positions inside that band only -----

  ghost predicate StaysInBand(p: seq<nat>, lo: nat, hi: nat) {
    forall x :: 0 <= x < |p| ==> p[x] / Pow2(hi) == x / Pow2(hi) && p[x] % Pow2(lo) == x % Pow2(lo)
  }

  ghost predicate BitsWithin(icols: seq<IColumn>, lo: nat, hi: nat) {
    forall k :: 0 <= k < |icols| ==> lo <= icols[k].0 < hi
  }

  lemma {:induction false} ColumnsStayInBand(m: nat, icols: seq<IColumn>, lo: nat, hi: nat)
    requires AreIColumns(m, icols) && BitsWithin(icols, lo, hi)
    ensures StaysInBand(ColumnsMap(m, icols), lo, hi)
  {
    if icols != [] {
      var k := |icols| - 1;
      ColumnsStayInBand(m, icols[..k], lo, hi);
      ColumnStaysInBand(m, icols[k].0, icols[k].1, lo, hi);
      BandsCompose(ColumnsMap(m, icols[..k]), ColumnMap(m, icols[k].0, icols[k].1), lo, hi);
    }
  }

  lemma ColumnStaysInBand(m: nat, b: nat, col: Column, lo: nat, hi: nat)
    requires IsColumn(m, b, col) && lo <= b < hi
    ensures StaysInBand(ColumnMap(m, b, col), lo, hi)
  {
    forall x: nat | x < Pow2(m)
      ensures ColumnMap(m, b, col)[x] / Pow2(hi) == x / Pow2(hi) && ColumnMap(m, b, col)[x] % Pow2(lo) == x % Pow2(lo)
    {
      FlipBitLocal(b, x, lo, hi);
      hide FlipBit;
      hide DelBit;
      hide Pow2;
    }
  }

  lemma BandsCompose(p: seq<nat>, q: seq<nat>, lo: nat, hi: nat)
    requires InRange(q, |p|) && |p| == |q| && StaysInBand(p, lo, hi) && StaysInBand(q, lo, hi)
    ensures StaysInBand(Gather(p, q), lo, hi)
  {
    hide Pow2;
    forall x | 0 <= x < |q|
      ensures p[q[x]] / Pow2(hi) == x / Pow2(hi) && p[q[x]] % Pow2(lo) == x % Pow2(lo)
    {
      assert q[x] / Pow2(hi) == x / Pow2(hi) && q[x] % Pow2(lo) == x % Pow2(lo);
    }
  }

  ghost predicate BlockDiagonal(p: seq<nat>, window: nat)
    requires window >= 1
  {
    forall x :: 0 <= x < |p| ==> p[x] / window == x / window
  }

  /** Rotating the index so that the band becomes the low bits makes the map block diagonal. */
  lemma RotatedIsBlockDiagonal(m: nat, mid: seq<nat>, s: nat, w: nat, le: nat, lift: seq<nat>)
    requires m >= 1 && s < m && s + w <= m && w <= le
    requires |mid| == Pow2(m) && InRange(mid, Pow2(m)) && StaysInBand(mid, s, s + w)
    requires AreInverse(IndexRotation(m, s), lift)
    ensures BlockDiagonal(Gather(Gather(IndexRotation(m, s), mid), lift), Pow2(le))
  {
    var sink := IndexRotation(m, s);
    forall i: nat | i < Pow2(m) ensures sink[mid[lift[i]]] / Pow2(le) == i / Pow2(le) {
      RotatedBlockAt(m, mid, s, w, le, lift[i]);
      assert sink[lift[i]] == i;
    }
  }

  lemma RotatedBlockAt(m: nat, mid: seq<nat>, s: nat, w: nat, le: nat, j: nat)
    requires m >= 1 && s < m && s + w <= m && w <= le && j < Pow2(m)
    requires |mid| == Pow2(m) && InRange(mid, Pow2(m)) && StaysInBand(mid, s, s + w)
    ensures IndexRotation(m, s)[mid[j]] / Pow2(le) == IndexRotation(m, s)[j] / Pow2(le)
  {
    var sink := IndexRotation(m, s);
    hide Pow2;
    hide IndexRotation;
    assert mid[j] / Pow2(s + w) == j / Pow2(s + w) && mid[j] % Pow2(s) == j % Pow2(s);
    RotateHigh(m, s, w, j);
    RotateHigh(m, s, w, mid[j]);
    DivCoarser(sink[mid[j]], sink[j], w, le);
  }

  // ----- cutting a block-diagonal map into windows -----

  lemma WindowBounds(v: nat, off: nat, t: nat, window: nat)
    requires window >= 1 && t < window && off % window == 0 && v / window == (off + t) / window
    ensures off <= v < off + window
  {
    var i := off / window;
    DivModUnique(off + t, window, i, t);
    assert v == window * i + v % window;
  }

  lemma WindowBoundsAll(mid: seq<nat>, off: nat, window: nat)
    requires window >= 1 && BlockDiagonal(mid, window) && off % window == 0 && off + window <= |mid|
    ensures forall x :: off <= x < off + window ==> off <= mid[x] < off + window
  {
    forall x: nat | off <= x < off + window ensures off <= mid[x] < off + window {
      WindowBounds(mid[x], off, x - off, window);
    }
  }

  /** `[v - i for v in mid[i:i+window]]` */
  function WindowShuffle(mid: seq<nat>, off: nat, window: nat): (r: seq<nat>)
    requires window >= 1 && BlockDiagonal(mid, window) && off % window == 0 && off + window <= |mid|
    ensures |r| == window && InRange(r, window)
    ensures forall t {:trigger r[t]} :: 0 <= t < window ==> off + r[t] == mid[off + t]
  {
    WindowBoundsAll(mid, off, window);
    seq(window, t requires 0 <= t < window => mid[off + t] - off)
  }

  ghost predicate IsCutUpTo(n: nat, mid: seq<nat>, groups: seq<Group>, done: nat, window: nat) {
    && (forall k :: 0 <= k < |groups| ==> GroupFits(n, groups[k]) && |groups[k].shuffle| == window)
    && |mid| == n && done <= n
    && (forall i :: 0 <= i < n ==> GroupsMap(n, groups)[i] == if i < done then mid[i] else i)
  }

  lemma CutOneMore(n: nat, mid: seq<nat>, groups: seq<Group>, off: nat, window: nat)
    requires window >= 1 && BlockDiagonal(mid, window) && off % window == 0 && off + window <= n
    requires IsCutUpTo(n, mid, groups, off, window)
    ensures IsCutUpTo(n, mid, groups + [Group(off, WindowShuffle(mid, off, window))], off + window, window)
  {
    var g := Group(off, WindowShuffle(mid, off, window));
    GroupsSnoc(n, groups, g);
    CutMap(n, mid, GroupsMap(n, groups), g, window);
  }

  lemma CutMap(n: nat, mid: seq<nat>, before: seq<nat>, g: Group, window: nat)
    requires window >= 1 && g.off % window == 0 && g.off + window <= n == |mid| == |before| && GroupFits(n, g)
    requires BlockDiagonal(mid, window) && g.shuffle == WindowShuffle(mid, g.off, window)
    requires forall x :: 0 <= x < n ==> before[x] == if x < g.off then mid[x] else x
    ensures forall x :: 0 <= x < n ==> Gather(before, GroupMap(n, g))[x] == if x < g.off + window then mid[x] else x
  {
    hide BlockDiagonal;
    hide WindowShuffle;
    forall x: nat | x < n
      ensures Gather(before, GroupMap(n, g))[x] == if x < g.off + window then mid[x] else x
    {
      if g.off <= x < g.off + window {
        assert g.off + g.shuffle[x - g.off] == mid[x];
      }
    }
  }

  method CutIntoWindows(n: nat, mid: seq<nat>, window: nat, ghost q: nat) returns (groups: seq<Group>)
    requires window >= 1 && |mid| == n == q * window && BlockDiagonal(mid, window)
    ensures forall k :: 0 <= k < |groups| ==> GroupFits(n, groups[k]) && |groups[k].shuffle| == window
    ensures GroupsMap(n, groups) == mid && SpansOf(groups) == Cuts(window, q)
  {
    hide *;
    groups := [];
    var i := 0;
    ghost var k := 0;
    NoCut(n, mid, window);
    while i < n
      invariant i == k * window && k <= q
      invariant IsCutUpTo(n, mid, groups, i, window) && SpansOf(groups) == Cuts(window, k)
      decreases n - i
    {
      MulLeft(window, k + 1, q);
      if k >= q { MulLeft(window, q, k); }
      MulDist(window, k, 1);
      DivModUnique(i, window, k, 0);
      CutOneMore(n, mid, groups, i, window);
      CutShape(groups, Group(i, WindowShuffle(mid, i, window)), window, k);
      groups := groups + [Group(i, WindowShuffle(mid, i, window))];
      i := i + window;
      k := k + 1;
    }
    CutDone(n, mid, groups, i, window);
    if k < q { MulLeft(window, k + 1, q); MulDist(window, k, 1); }
  }

  lemma NoCut(n: nat, mid: seq<nat>, window: nat)
    requires |mid| == n
    ensures IsCutUpTo(n, mid, [], 0, window) && SpansOf([]) == Cuts(window, 0)
  {
  }

  lemma CutDone(n: nat, mid: seq<nat>, groups: seq<Group>, done: nat, window: nat)
    requires IsCutUpTo(n, mid, groups, done, window) && done >= n
    ensures forall k :: 0 <= k < |groups| ==> GroupFits(n, groups[k]) && |groups[k].shuffle| == window
    ensures GroupsMap(n, groups) == mid && done == n
  {
  }

  lemma CutShape(groups: seq<Group>, g: Group, window: nat, k: nat)
    requires SpansOf(groups) == Cuts(window, k) && g.off == k * window && |g.shuffle| == window
    ensures SpansOf(groups + [g]) == Cuts(window, k + 1)
  {
    var a, b := SpansOf(groups + [g]), Cuts(window, k + 1);
    assert |groups| == k;
    forall i | 0 <= i < k ensures a[i] == b[i] {
      assert a[i] == SpansOf(groups)[i] && Cuts(window, k)[i] == b[i];
    }
  }

  // ----- _compile_cols -----

  function MinBit(icols: seq<IColumn>): (s: nat)
    requires icols != []
    ensures forall k :: 0 <= k < |icols| ==> s <= icols[k].0
    ensures exists k :: 0 <= k < |icols| && s == icols[k].0
  {
    if |icols| == 1 then icols[0].0
    else
      assert icols[0] in icols;
      Min(MinBit(icols[..|icols| - 1]), icols[|icols| - 1].0)
  }

  method ApplyColumns(m: nat, icols: seq<IColumn>) returns (mid: seq<nat>)
    requires AreIColumns(m, icols)
    ensures mid == ColumnsMap(m, icols)
  {
    mid := Identity(Pow2(m));
    for i := 0 to |icols|
      invariant AreIColumns(m, icols[..i]) && mid == ColumnsMap(m, icols[..i])
    {
      assert icols[..i + 1][..i] == icols[..i];
      mid := ApplyColumn(mid, m, icols[i].0, icols[i].1);
    }
    assert icols[..|icols|] == icols;
  }

  lemma Conjugate(n: nat, sink: seq<nat>, lift: seq<nat>, mid: seq<nat>)
    requires AreInverse(sink, lift) && |sink| == n == |mid| && InRange(mid, n)
    ensures Gather(Gather(lift, Gather(Gather(sink, mid), lift)), sink) == mid
  {
  }

  /** Compile a band of columns into wiring, one row of windowed shuffles, and wiring back. */
  method CompileColumns(m: nat, le: nat, icols: seq<IColumn>, width: nat)
    returns (lift: seq<nat>, groups: seq<Group>, sink: seq<nat>)
    requires icols != [] && AreIColumns(m, icols) && width <= le < m
    requires BitsWithin(icols, MinBit(icols), MinBit(icols) + width) && MinBit(icols) + width <= m
    ensures MinBit(icols) < m && sink == IndexRotation(m, MinBit(icols)) && SpansOf(groups) == Cuts(Pow2(le), Pow2(m - le))
    ensures |sink| == Pow2(m) && AreInverse(sink, lift)
    ensures forall k :: 0 <= k < |groups| ==> GroupFits(Pow2(m), groups[k]) && |groups[k].shuffle| <= Pow2(le)
    ensures Gather(Gather(lift, GroupsMap(Pow2(m), groups)), sink) == ColumnsMap(m, icols)
  {
    hide *;
    var shift := MinBit(icols);
    MinBitBelow(m, icols);
    sink := IndexRotation(m, shift);
    IndexRotationIsPerm(m, shift);
    lift := Invert(sink);
    var mid := ApplyColumns(m, icols);
    ColumnsStayInBand(m, icols, shift, shift + width);
    RotatedIsBlockDiagonal(m, mid, shift, width, le, lift);
    InverseSizes(sink, lift);
    RangeOf(m, mid, icols);
    Conjugate(Pow2(m), sink, lift, mid);
    var turned := Gather(Gather(sink, mid), lift);
    var window := if Pow2(width) > Pow2(le) then Pow2(width) else Pow2(le);
    Pow2Monotone(width, le);
    Pow2Add(m - le, le);
    groups := CutIntoWindows(Pow2(m), turned, window, Pow2(m - le));
  }

  lemma MinBitBelow(m: nat, icols: seq<IColumn>)
    requires icols != [] && AreIColumns(m, icols)
    ensures MinBit(icols) < m
  {
  }

  lemma InverseSizes(p: seq<nat>, q: seq<nat>)
    requires AreInverse(p, q)
    ensures |p| == |q| && InRange(p, |p|) && InRange(q, |p|)
    ensures forall i :: 0 <= i < |p| ==> p[i] < |p| && q[i] < |p|
  {
  }

  lemma RangeOf(m: nat, mid: seq<nat>, icols: seq<IColumn>)
    requires AreIColumns(m, icols) && mid == ColumnsMap(m, icols)
    ensures InRange(mid, Pow2(m)) && forall i :: 0 <= i < |mid| ==> mid[i] < Pow2(m)
  {
  }

  // ----- _add_to_result -----

  /** The program built so far routes `p` and, once started, ends with the wiring of an index rotation. */
  ghost predicate IsPartial(m: nat, le: nat, rows: seq<Row>, p: seq<nat>) {
    && m >= 1 && Fits(Pow2(m), rows) && ProgramMap(Pow2(m), rows) == p && WindowsBelow(rows, Pow2(le))
    && (rows != [] ==> exists s :: 0 <= s < m && rows[|rows| - 1] == Public(IndexRotation(m, s)))
  }

  ghost predicate WindowsBelow(rows: seq<Row>, size: nat) {
    forall k :: 0 <= k < |rows| ==> RowBelow(rows[k], size)
  }

  ghost predicate RowBelow(row: Row, size: nat) {
    match row
    case Public(_) => true
    case Secret(gs) => forall k :: 0 <= k < |gs| ==> |gs[k].shuffle| <= size
  }

  /** Append a compiled band; the pending wiring `result[-1]` becomes `inp @ result[-1]`. */
  function AddToResult(result: seq<Row>, inp: seq<nat>, main: seq<Group>, out: seq<nat>): seq<Row>
    requires result != [] ==> result[|result| - 1].Public? && InRange(result[|result| - 1].wiring, |inp|)
  {
    var k := |result| - 1;
    (if result == [] then [Public(inp)] else result[..k] + [Public(Gather(inp, result[k].wiring))])
    + [Secret(main), Public(out)]
  }

  /** Swapping the two wirings is harmless because index rotations commute. */
  lemma MergeWirings(m: nat, le: nat, rows: seq<Row>, p: seq<nat>, inp: seq<nat>, s: nat)
    requires IsPartial(m, le, rows, p) && rows != [] && s < m && AreInverse(IndexRotation(m, s), inp)
    ensures rows[|rows| - 1].Public? && InRange(rows[|rows| - 1].wiring, |inp|) && InRange(inp, |p|)
    ensures var k := |rows| - 1;
            var merged := rows[..k] + [Public(Gather(inp, rows[k].wiring))];
            Fits(Pow2(m), merged) && ProgramMap(Pow2(m), merged) == Gather(p, inp)
  {
    var n, k := Pow2(m), |rows| - 1;
    var b := LastWiring(m, le, rows, p);
    hide *;
    RotationsCommute(m, s, b, inp);
    InverseSizes(IndexRotation(m, s), inp);
    SwapLast(n, rows[..k], IndexRotation(m, b), inp);
  }

  lemma LastWiring(m: nat, le: nat, rows: seq<Row>, p: seq<nat>) returns (b: nat)
    requires IsPartial(m, le, rows, p) && rows != []
    ensures b < m && rows == rows[..|rows| - 1] + [Public(IndexRotation(m, b))]
    ensures Fits(Pow2(m), rows[..|rows| - 1]) && Fits(Pow2(m), rows) && ProgramMap(Pow2(m), rows) == p
    ensures InRange(IndexRotation(m, b), Pow2(m)) && |p| == Pow2(m)
    ensures rows[|rows| - 1] == Public(IndexRotation(m, b))
  {
    b :| 0 <= b < m && rows[|rows| - 1] == Public(IndexRotation(m, b));
  }

  lemma SwapLast(n: nat, init: seq<Row>, r: seq<nat>, inp: seq<nat>)
    requires |r| == n == |inp| && InRange(r, n) && InRange(inp, n) && Fits(n, init)
    requires Gather(inp, r) == Gather(r, inp)
    ensures Fits(n, init + [Public(r)]) && Fits(n, init + [Public(Gather(inp, r))])
    ensures ProgramMap(n, init + [Public(Gather(inp, r))]) == Gather(ProgramMap(n, init + [Public(r)]), inp)
  {
    ProgramSnoc(n, init, Public(r));
    ProgramSnoc(n, init, Public(Gather(inp, r)));
    GatherAssoc(ProgramMap(n, init), r, inp);
  }

  lemma AddBand(m: nat, le: nat, rows: seq<Row>, p: seq<nat>, inp: seq<nat>, main: seq<Group>, out: seq<nat>, band: seq<nat>)
    requires IsPartial(m, le, rows, p) && |p| == Pow2(m) && InRange(p, Pow2(m))
    requires exists s :: 0 <= s < m && out == IndexRotation(m, s)
    requires |out| == Pow2(m) && AreInverse(out, inp)
    requires forall k :: 0 <= k < |main| ==> GroupFits(Pow2(m), main[k]) && |main[k].shuffle| <= Pow2(le)
    requires InRange(band, |p|)
    requires Gather(Gather(inp, GroupsMap(Pow2(m), main)), out) == band
    ensures rows != [] ==> rows[|rows| - 1].Public? && InRange(rows[|rows| - 1].wiring, |inp|)
    ensures IsPartial(m, le, AddToResult(rows, inp, main, out), Gather(p, band))
  {
    var n, k := Pow2(m), |rows| - 1;
    var s :| 0 <= s < m && out == IndexRotation(m, s);
    hide IndexRotation;
    hide AreInverse;
    InverseSizes(out, inp);
    var head := [Public(inp)];
    if rows == [] {
      ProgramSnoc(n, [], Public(inp));
      assert [] + [Public(inp)] == [Public(inp)];
    } else {
      MergeWirings(m, le, rows, p, inp, s);
      head := rows[..k] + [Public(Gather(inp, rows[k].wiring))];
    }
    WindowsAdded(rows, inp, main, out, Pow2(le));
    AppendBand(n, head, p, inp, main, out, band);
    assert AddToResult(rows, inp, main, out) == head + [Secret(main), Public(out)];
  }

  lemma AppendBand(n: nat, head: seq<Row>, p: seq<nat>, inp: seq<nat>, main: seq<Group>, out: seq<nat>, band: seq<nat>)
    requires |p| == |inp| == |out| == n && InRange(p, n) && InRange(inp, n) && InRange(out, n) && InRange(band, n)
    requires Fits(n, head) && ProgramMap(n, head) == Gather(p, inp)
    requires forall k :: 0 <= k < |main| ==> GroupFits(n, main[k])
    requires Gather(Gather(inp, GroupsMap(n, main)), out) == band
    ensures Fits(n, head + [Secret(main), Public(out)])
    ensures ProgramMap(n, head + [Secret(main), Public(out)]) == Gather(p, band)
  {
    var g := GroupsMap(n, main);
    ProgramSnoc(n, head, Secret(main));
    ProgramSnoc(n, head + [Secret(main)], Public(out));
    assert head + [Secret(main), Public(out)] == head + [Secret(main)] + [Public(out)];
    hide ProgramMap;
    hide GroupsMap;
    GatherAssoc(p, inp, g);
    GatherAssoc(p, Gather(inp, g), out);
  }

  lemma WindowsAdded(rows: seq<Row>, inp: seq<nat>, main: seq<Group>, out: seq<nat>, size: nat)
    requires rows != [] ==> rows[|rows| - 1].Public? && InRange(rows[|rows| - 1].wiring, |inp|)
    requires WindowsBelow(rows, size) && RowBelow(Secret(main), size)
    ensures WindowsBelow(AddToResult(rows, inp, main, out), size)
  {
  }

  // ----- the shape of what is appended -----

  /** The rows show the bands with the given lowest bits, and nothing else. */
  ghost predicate Banded(m: nat, le: nat, rows: seq<Row>, bits: seq<nat>) {
    && 1 <= le < m && InRange(bits, m)
    && ShapeOf(rows) == BandRows(m, le, bits) + if bits == [] then [] else [Wires(IndexRotation(m, Pending(bits)))]
  }

  lemma BandAdded(m: nat, le: nat, rows: seq<Row>, bits: seq<nat>, s: nat, inp: seq<nat>, main: seq<Group>, out: seq<nat>)
    requires Banded(m, le, rows, bits) && s < m && out == IndexRotation(m, s) && AreInverse(out, inp)
    requires SpansOf(main) == Cuts(Pow2(le), Pow2(m - le))
    requires rows != [] ==> rows[|rows| - 1].Public? && InRange(rows[|rows| - 1].wiring, |inp|)
    ensures Banded(m, le, AddToResult(rows, inp, main, out), bits + [s])
  {
    hide *;
    BandedParts(m, le, rows, bits);
    NoBits(m, le);
    NextBits(m, le, bits, s);
    if bits == [] {
      LiftIsRotation(m, s, inp);
      AddedFirst(inp, main, out);
    } else {
      LiftIsTurn(m, Pending(bits), s, inp);
      AddedAgain(rows, inp, main, out, BandRows(m, le, bits), IndexRotation(m, Pending(bits)));
    }
    MakeBanded(m, le, AddToResult(rows, inp, main, out), bits + [s]);
  }

  lemma BandedParts(m: nat, le: nat, rows: seq<Row>, bits: seq<nat>)
    requires Banded(m, le, rows, bits)
    ensures 1 <= le < m && InRange(bits, m) && (bits != [] ==> Pending(bits) < m) && (bits == [] <==> rows == [])
    ensures bits != [] ==> ShapeOf(rows) == BandRows(m, le, bits) + [Wires(IndexRotation(m, Pending(bits)))]
  {
    hide IndexRotation;
    assert |ShapeOf(rows)| == |rows|;
  }

  lemma MakeBanded(m: nat, le: nat, rows: seq<Row>, bits: seq<nat>)
    requires 1 <= le < m && InRange(bits, m) && bits != [] && Pending(bits) < m
    requires ShapeOf(rows) == BandRows(m, le, bits) + [Wires(IndexRotation(m, Pending(bits)))]
    ensures Banded(m, le, rows, bits)
  {
    hide IndexRotation; hide BandRows;
  }

  lemma NoBits(m: nat, le: nat)
    requires 1 <= le < m
    ensures BandRows(m, le, []) == [] && Pending([]) == 0
  {
  }

  lemma NextBits(m: nat, le: nat, bits: seq<nat>, s: nat)
    requires 1 <= le < m && InRange(bits, m) && s < m && (bits != [] ==> Pending(bits) < m)
    ensures InRange(bits + [s], m) && bits + [s] != [] && Pending(bits + [s]) == s && Turn(m, Pending(bits), s) < m
    ensures BandRows(m, le, bits + [s]) == BandRows(m, le, bits) + [Wires(IndexRotation(m, Turn(m, Pending(bits), s))), Windows(Cuts(Pow2(le), Pow2(m - le)))]
  {
    hide IndexRotation; hide Cuts;
    TurnIs(m, Pending(bits), s);
    assert (bits + [s])[..|bits|] == bits;
  }

  lemma AddedFirst(inp: seq<nat>, main: seq<Group>, out: seq<nat>)
    ensures ShapeOf(AddToResult([], inp, main, out)) == [Wires(inp), Windows(SpansOf(main)), Wires(out)]
  {
  }

  lemma AddedAgain(rows: seq<Row>, inp: seq<nat>, main: seq<Group>, out: seq<nat>, front: seq<Outline>, w: seq<nat>)
    requires rows != [] && rows[|rows| - 1].Public? && InRange(rows[|rows| - 1].wiring, |inp|) && ShapeOf(rows) == front + [Wires(w)]
    ensures InRange(w, |inp|) && ShapeOf(AddToResult(rows, inp, main, out)) == front + [Wires(Gather(inp, w)), Windows(SpansOf(main))] + [Wires(out)]
  {
    hide SpansOf;
    var k := |rows| - 1;
    assert ShapeOf(rows)[k] == OutlineOf(rows[k]);
    forall i | 0 <= i < k ensures OutlineOf(rows[i]) == front[i] { assert ShapeOf(rows)[i] == OutlineOf(rows[i]); }
    var r := AddToResult(rows, inp, main, out);
    assert r == rows[..k] + [Public(Gather(inp, w)), Secret(main), Public(out)];
  }

  // ----- the three bands of columns -----

  /** Compile the columns `lo..hi-1`, all within `width` bits above the least one, and append them. */
  method AddColumns(m: nat, le: nat, cols: seq<Column>, rows: seq<Row>, lo: nat, hi: nat, ghost s: nat, width: nat, ghost bits: seq<nat>)
    returns (result: seq<Row>)
    requires IsNetwork(m, cols) && lo < hi <= |cols| && 1 <= width <= le < m
    requires forall i :: lo <= i < hi ==> s <= ColumnBit(m, i) < s + width
    requires s + width <= m && exists i :: lo <= i < hi && ColumnBit(m, i) == s
    requires IsPartial(m, le, rows, Route(m, cols, 0, lo)) && Banded(m, le, rows, bits)
    ensures IsPartial(m, le, result, Route(m, cols, 0, hi)) && Banded(m, le, result, bits + [s])
  {
    hide *;
    var icols := IndexColumns(m, cols)[lo..hi];
    ColumnsMapIsRoute(m, cols, lo, hi);
    BandOf(m, cols, lo, hi, s, width);
    var inp, main, out := CompileColumns(m, le, icols, width);
    InverseSizes(out, inp);
    RouteRange(m, cols, 0, lo);
    RouteRange(m, cols, lo, hi);
    AddBand(m, le, rows, Route(m, cols, 0, lo), inp, main, out, Route(m, cols, lo, hi));
    BandAdded(m, le, rows, bits, s, inp, main, out);
    RouteSplit(m, cols, 0, lo, hi);
    result := AddToResult(rows, inp, main, out);
  }

  lemma RouteRange(m: nat, cols: seq<Column>, lo: nat, hi: nat)
    requires IsNetwork(m, cols) && lo <= hi <= |cols|
    ensures |Route(m, cols, lo, hi)| == Pow2(m) && InRange(Route(m, cols, lo, hi), Pow2(m))
    ensures m >= 1
  {
  }

  lemma BandOf(m: nat, cols: seq<Column>, lo: nat, hi: nat, s: nat, width: nat)
    requires IsNetwork(m, cols) && lo < hi <= |cols|
    requires forall i :: lo <= i < hi ==> s <= ColumnBit(m, i) < s + width
    requires exists i :: lo <= i < hi && ColumnBit(m, i) == s
    ensures var icols := IndexColumns(m, cols)[lo..hi];
            icols != [] && MinBit(icols) == s && BitsWithin(icols, s, s + width)
  {
    var icols := IndexColumns(m, cols)[lo..hi];
    forall k | 0 <= k < |icols| ensures s <= icols[k].0 < s + width {
      assert icols[k] == IndexColumns(m, cols)[lo + k];
    }
    var i :| lo <= i < hi && ColumnBit(m, i) == s;
    assert icols[i - lo].0 == s;
  }

  /** `BenesPermMI._compile`: the same routing as the Beneš network, in windows of at most 2^le positions. Everything but
      the shuffles inside the windows is the same for every permutation. */
  method Compile(m: nat, le: nat, pi: seq<nat>) returns (rows: seq<Row>)
    requires le >= 1 && |pi| == Pow2(m) && IsPerm(pi)
    ensures Fits(Pow2(m), rows) && ProgramMap(Pow2(m), rows) == pi
    ensures WindowsBelow(rows, Pow2(le)) && ShapeOf(rows) == BenesShape(m, le)
  {
    hide *;
    if le >= m {
      Pow2Monotone(m, le);
      rows := [Secret([Group(0, pi)])];
      OneWindow(pi, Pow2(le));
      OneWindowShape(m, le, pi);
      return;
    }
    var cols := BenesPerm.Compile(m, pi);
    NetworkSize(m, cols);
    var midl, midr := m - le, m + le - 2;
    rows := [];
    ghost var bits: seq<nat> := [];
    StartPartial(m, le, cols);
    StartBands(m, le);
    var i := 0;
    while i < midl
      invariant 0 <= i <= midl && IsPartial(m, le, rows, Route(m, cols, 0, i))
      invariant Banded(m, le, rows, bits) && bits + PrefixBits(i, midl, le) == PrefixBits(0, midl, le)
    {
      var hi := if i + le < midl then i + le else midl;
      PrefixBand(m, le, i, hi);
      PrefixNext(i, midl, le, bits);
      rows := AddColumns(m, le, cols, rows, i, hi, i, hi - i, bits);
      bits := bits + [i];
      i := hi;
    }
    MiddleBand(m, le);
    rows := AddColumns(m, le, cols, rows, midl, midr + 1, midl, le, bits);
    bits := bits + [midl];
    PrefixEnd(midl, le);
    i := midr + 1;
    while i < 2 * m - 1
      invariant midr + 1 <= i <= 2 * m - 1 && IsPartial(m, le, rows, Route(m, cols, 0, i))
      invariant Banded(m, le, rows, bits) && bits + SuffixBits(i, 2 * m - 1, le) == PrefixBits(0, midl, le) + [midl] + SuffixBits(midr + 1, 2 * m - 1, le)
    {
      var hi := if i + le < 2 * m - 1 then i + le else 2 * m - 1;
      SuffixBand(m, le, i, hi);
      SuffixNext(i, 2 * m - 1, le, bits);
      rows := AddColumns(m, le, cols, rows, i, hi, 2 * m - 1 - hi, hi - i, bits);
      bits := bits + [2 * m - 1 - hi];
      i := hi;
    }
    FinishPartial(m, le, rows, pi);
    FinishBands(m, le, rows, bits);
  }

  lemma OneWindowShape(m: nat, le: nat, pi: seq<nat>)
    requires 1 <= le && m <= le && |pi| == Pow2(m)
    ensures ShapeOf([Secret([Group(0, pi)])]) == BenesShape(m, le)
  {
    hide Pow2;
    var g := Group(0, pi);
    assert SpansOf([g]) == [Span(0, Pow2(m))];
    assert ShapeOf([Secret([g])]) == [OutlineOf(Secret([g]))];
  }

  lemma StartBands(m: nat, le: nat)
    requires 1 <= le < m
    ensures Banded(m, le, [], []) && [] + PrefixBits(0, m - le, le) == PrefixBits(0, m - le, le)
  {
    hide PrefixBits;
  }

  lemma PrefixNext(i: nat, midl: nat, le: nat, bits: seq<nat>)
    requires le >= 1 && i < midl
    ensures bits + PrefixBits(i, midl, le) == bits + [i] + PrefixBits(if i + le < midl then i + le else midl, midl, le)
  {
  }

  lemma PrefixEnd(midl: nat, le: nat)
    requires le >= 1
    ensures PrefixBits(midl, midl, le) == []
  {
  }

  lemma SuffixNext(i: nat, end: nat, le: nat, bits: seq<nat>)
    requires le >= 1 && i < end
    ensures var hi := if i + le < end then i + le else end; bits + SuffixBits(i, end, le) == bits + [end - hi] + SuffixBits(hi, end, le)
  {
  }

  lemma FinishBands(m: nat, le: nat, rows: seq<Row>, bits: seq<nat>)
    requires Banded(m, le, rows, bits) && 1 <= le < m
    requires bits + SuffixBits(2 * m - 1, 2 * m - 1, le) == PrefixBits(0, m - le, le) + [m - le] + SuffixBits(m + le - 1, 2 * m - 1, le)
    ensures ShapeOf(rows) == BenesShape(m, le)
  {
    hide PrefixBits; hide IndexRotation; hide BandRows;
    assert bits == BandBits(m, le);
    assert Pending(bits) < m;
    SmallMod(Pending(bits), m);
  }

  lemma NetworkSize(m: nat, cols: seq<Column>)
    requires IsNetwork(m, cols)
    ensures |cols| == 2 * m - 1
  {
  }

  lemma FinishPartial(m: nat, le: nat, rows: seq<Row>, p: seq<nat>)
    requires IsPartial(m, le, rows, p)
    ensures Fits(Pow2(m), rows) && ProgramMap(Pow2(m), rows) == p && WindowsBelow(rows, Pow2(le))
  {
  }

  lemma StartPartial(m: nat, le: nat, cols: seq<Column>)
    requires IsNetwork(m, cols)
    ensures IsPartial(m, le, [], Route(m, cols, 0, 0))
  {
  }

  lemma OneWindow(pi: seq<nat>, size: nat)
    requires IsPerm(pi) && |pi| <= size
    ensures var rows := [Secret([Group(0, pi)])];
            Fits(|pi|, rows) && ProgramMap(|pi|, rows) == pi && WindowsBelow(rows, size)
  {
    var g := Group(0, pi);
    var n := |pi|;
    GroupsSnoc(n, [], g);
    assert [] + [g] == [g];
    GatherUnit(n, GroupMap(n, g));
    assert GroupMap(n, g) == pi;
    ProgramSnoc(n, [], Secret([g]));
    assert [] + [Secret([g])] == [Secret([g])];
  }

  lemma PrefixBand(m: nat, le: nat, lo: nat, hi: nat)
    requires 1 <= le < m && lo < hi <= m - le
    ensures forall i :: lo <= i < hi ==> lo <= ColumnBit(m, i) < hi
    ensures ColumnBit(m, lo) == lo && exists i :: lo <= i < hi && ColumnBit(m, i) == lo
  {
    assert ColumnBit(m, lo) == lo;
  }

  lemma MiddleBand(m: nat, le: nat)
    requires 1 <= le < m
    ensures forall i :: m - le <= i < m + le - 1 ==> m - le <= ColumnBit(m, i) < m
    ensures exists i :: m - le <= i < m + le - 1 && ColumnBit(m, i) == m - le
  {
    assert ColumnBit(m, m - le) == m - le;
  }

  lemma SuffixBand(m: nat, le: nat, lo: nat, hi: nat)
    requires 1 <= le < m && m + le - 1 <= lo < hi <= 2 * m - 1
    ensures forall i :: lo <= i < hi ==> 2 * m - 1 - hi <= ColumnBit(m, i) < 2 * m - 1 - lo
    ensures exists i :: lo <= i < hi && ColumnBit(m, i) == 2 * m - 1 - hi
  {
    assert ColumnBit(m, hi - 1) == 2 * m - 1 - hi;
  }
}
