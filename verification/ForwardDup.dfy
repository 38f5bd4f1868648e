/** `ForwardDup` and `ForwardDupMI` of compiler/src/universalization/routing.py: copy a value
    forward along every run of equal entries. */
module ForwardDup {
  import opened Bits
  import opened Permutations
  import opened Rows
  import opened BenesMulti
  import opened Shapes

  /** The first position of the run of equal entries that contains `i`. */
  function RunStart(f: seq<nat>, i: nat): (r: nat)
    requires i < |f|
    ensures r <= i
  {
    if i > 0 && f[i] == f[i - 1] then RunStart(f, i - 1) else i
  }

  function RunStarts(f: seq<nat>): (r: seq<nat>)
    ensures |r| == |f| && InRange(r, |f|)
    ensures forall i :: 0 <= i < |f| ==> r[i] == RunStart(f, i)
  {
    seq(|f|, i requires 0 <= i < |f| => RunStart(f, i))
  }

  lemma RunStartFirst(f: seq<nat>)
    requires |f| > 0
    ensures RunStart(f, 0) == 0
  {
  }

  lemma RunStartNext(f: seq<nat>, i: nat)
    requires 0 < i < |f|
    ensures RunStart(f, i) == if f[i] == f[i - 1] then RunStart(f, i - 1) else i
  {
  }

  /** `ForwardDup._compile` followed by `_apply`: the flags and the in-place copying loop. */
  method DuplicateForward<T>(f: seq<nat>, x: seq<T>) returns (y: seq<T>)
    requires |x| == |f|
    ensures y == Gather(x, RunStarts(f))
  {
    hide RunStart;
    if |f| > 0 { RunStartFirst(f); }
    var col: seq<bool> := seq(if |f| == 0 then 0 else |f| - 1, i requires 0 <= i < |f| - 1 => f[i + 1] == f[i]);
    y := x;
    for i := 0 to |col|
      invariant |y| == |x|
      invariant forall j :: 0 <= j < |y| ==> y[j] == if j <= i then x[RunStart(f, j)] else x[j]
    {
      RunStartNext(f, i + 1);
      y := y[i + 1 := if col[i] then y[i] else y[i + 1]];
    }
  }

  /** `clean_f` */
  method CleanF(f: seq<nat>) returns (ff: seq<nat>)
    requires |f| > 0
    ensures ff == RunStarts(f)
  {
    ff := [0];
    for i := 1 to |f|
      invariant |ff| == i && forall j :: 0 <= j < i ==> ff[j] == RunStart(f, j)
    {
      if f[i] == f[i - 1] {
        ff := ff + [ff[|ff| - 1]];
      } else {
        ff := ff + [i];
      }
    }
  }

  /** A run seen through a slice either starts inside it or reaches back before it. */
  lemma {:induction false} RunInSlice(f: seq<nat>, off: nat, end: nat, i: nat)
    requires off + i < end <= |f|
    ensures var s := RunStart(f[off..end], i);
            RunStart(f, off + i) == if s > 0 then off + s else RunStart(f, off)
  {
    if i > 0 {
      RunInSlice(f, off, end, i - 1);
    }
  }

  /** Positions below `done` hold their final content, the others their original one. */
  function PartialStarts(f: seq<nat>, done: nat): (r: seq<nat>)
    ensures |r| == |f| && InRange(r, |f|)
    ensures forall i :: 0 <= i < |f| ==> r[i] == if i < done then RunStart(f, i) else i
  {
    seq(|f|, i requires 0 <= i < |f| => if i < done then RunStart(f, i) else i)
  }

  /** The chunk that overlaps the finished part by one element extends it. */
  lemma ChunkExtends(f: seq<nat>, off: nat, end: nat, g: Group)
    requires off < end <= |f| && g == Group(off, RunStarts(f[off..end]))
    ensures GroupFits(|f|, g)
    ensures Gather(PartialStarts(f, off + 1), GroupMap(|f|, g)) == PartialStarts(f, end)
  {
    hide RunStart;
    forall i: nat | i < |f|
      ensures PartialStarts(f, off + 1)[GroupMap(|f|, g)[i]] == PartialStarts(f, end)[i]
    {
      if off <= i < end {
        RunInSlice(f, off, end, i - off);
      }
    }
  }

  ghost predicate RoutesStarts(f: seq<nat>, rows: seq<Row>, done: nat, size: nat) {
    Fits(|f|, rows) && ProgramMap(|f|, rows) == PartialStarts(f, done) && WindowsBelow(rows, size)
  }

  lemma AddChunk(f: seq<nat>, rows: seq<Row>, off: nat, end: nat, sub: seq<nat>, size: nat)
    requires off < end <= |f| && sub == RunStarts(f[off..end]) && end - off <= size
    requires RoutesStarts(f, rows, off + 1, size)
    ensures RoutesStarts(f, rows + [Secret([Group(off, sub)])], end, size)
  {
    hide *;
    var g := Group(off, sub);
    StartsParts(f, rows, off + 1, size);
    ChunkExtends(f, off, end, g);
    OneGroup(|f|, g);
    ProgramSnoc(|f|, rows, Secret([g]));
    ChunkBelow(f, rows, g, size, end - off);
    MakeStarts(f, rows + [Secret([g])], end, size);
  }

  lemma StartsParts(f: seq<nat>, rows: seq<Row>, done: nat, size: nat)
    requires RoutesStarts(f, rows, done, size)
    ensures Fits(|f|, rows) && ProgramMap(|f|, rows) == PartialStarts(f, done) && WindowsBelow(rows, size)
  {
    hide Fits; hide WindowsBelow; hide PartialStarts;
  }

  lemma MakeStarts(f: seq<nat>, rows: seq<Row>, done: nat, size: nat)
    requires Fits(|f|, rows) && ProgramMap(|f|, rows) == PartialStarts(f, done) && WindowsBelow(rows, size)
    ensures RoutesStarts(f, rows, done, size)
  {
    hide Fits; hide WindowsBelow; hide PartialStarts;
  }

  lemma OneGroup(n: nat, g: Group)
    requires GroupFits(n, g)
    ensures RowFits(n, Secret([g])) && RowMap(n, Secret([g])) == GroupMap(n, g)
  {
    GroupsSnoc(n, [], g);
    assert [] + [g] == [g];
    GatherUnit(n, GroupMap(n, g));
  }

  lemma ChunkBelow(f: seq<nat>, rows: seq<Row>, g: Group, size: nat, width: nat)
    requires WindowsBelow(rows, size) && g.off + width <= |f| && width <= size && g.shuffle == RunStarts(f[g.off..g.off + width])
    ensures WindowsBelow(rows + [Secret([g])], size)
  {
    hide RunStart;
  }

  lemma NoChunk(f: seq<nat>, size: nat)
    requires |f| > 0
    ensures RoutesStarts(f, [], 1, size)
  {
    assert PartialStarts(f, 1) == Identity(|f|);
  }

  lemma AllChunks(f: seq<nat>, rows: seq<Row>, size: nat)
    requires RoutesStarts(f, rows, |f|, size)
    ensures Fits(|f|, rows) && ProgramMap(|f|, rows) == RunStarts(f) && WindowsBelow(rows, size)
  {
  }

  /** `ForwardDupMI._compile`: chunks of at most 2^le positions, each overlapping the previous by one. Which positions they
      cover does not depend on the function. */
  method CompileMI(m: nat, le: nat, f: seq<nat>) returns (rows: seq<Row>)
    requires le >= 1 && |f| == Pow2(m)
    ensures Fits(|f|, rows) && ProgramMap(|f|, rows) == RunStarts(f)
    ensures WindowsBelow(rows, Pow2(le)) && ShapeOf(rows) == DupShape(m, le)
  {
    hide *;
    var n, l := |f|, Pow2(le);
    Pow2Bound(le);
    NoChunk(f, l);
    if le >= m {
      Pow2Monotone(m, le);
      var sub := CleanF(f);
      assert f[0..n] == f;
      AddChunk(f, [], 0, n, sub, l);
      rows := [] + [Secret([Group(0, sub)])];
      AllChunks(f, rows, l);
      WholeChunk(m, le, sub);
      return;
    }
    Pow2Monotone(le, m);
    var first := CleanF(f[..l]);
    assert f[..l] == f[0..l];
    AddChunk(f, [], 0, l, first, l);
    rows := [] + [Secret([Group(0, first)])];
    var step := l - 1;
    var off := l - 1;
    FirstChunk(m, le, rows, first);
    while off < n - 1
      invariant 0 <= off < n + step
      invariant RoutesStarts(f, rows, if off < n then off + 1 else n, l) && ShapeOf(rows) + ChunkRows(n, l, off) == DupShape(m, le)
      decreases n + step - off
    {
      var end := if off + step + 1 < n then off + step + 1 else n;
      var sub := CleanF(f[off..end]);
      assert |f[off..end]| > 1;
      AddChunk(f, rows, off, end, sub, l);
      NextChunk(n, l, off, rows, sub);
      rows := rows + [Secret([Group(off, sub)])];
      off := off + step;
    }
    AllChunks(f, rows, l);
    NoMoreChunks(n, l, off);
  }

  lemma ChunkOutline(off: nat, sub: seq<nat>)
    ensures OutlineOf(Secret([Group(off, sub)])) == Windows([Span(off, |sub|)])
  {
  }

  lemma WholeChunk(m: nat, le: nat, sub: seq<nat>)
    requires 1 <= le && m <= le && |sub| == Pow2(m)
    ensures ShapeOf([] + [Secret([Group(0, sub)])]) == DupShape(m, le)
  {
    hide Pow2; hide OutlineOf;
    ChunkOutline(0, sub);
  }

  lemma FirstChunk(m: nat, le: nat, rows: seq<Row>, sub: seq<nat>)
    requires 1 <= le < m && rows == [] + [Secret([Group(0, sub)])] && |sub| == Pow2(le) && 2 <= Pow2(le) <= Pow2(m)
    ensures ShapeOf(rows) + ChunkRows(Pow2(m), Pow2(le), Pow2(le) - 1) == DupShape(m, le)
  {
    hide Pow2; hide OutlineOf;
    ChunkOutline(0, sub);
    assert ShapeOf(rows) == [OutlineOf(rows[0])];
  }

  lemma NextChunk(n: nat, l: nat, off: nat, rows: seq<Row>, sub: seq<nat>)
    requires l >= 2 && off + 1 < n && |sub| == (if off + l < n then off + l else n) - off
    ensures ShapeOf(rows) + ChunkRows(n, l, off) == ShapeOf(rows + [Secret([Group(off, sub)])]) + ChunkRows(n, l, off + (l - 1))
  {
    hide OutlineOf;
    ChunkOutline(off, sub);
    ShapeSnoc(rows, Secret([Group(off, sub)]));
  }

  lemma NoMoreChunks(n: nat, l: nat, off: nat)
    requires l >= 2 && off + 1 >= n
    ensures ChunkRows(n, l, off) == []
  {
  }
}
