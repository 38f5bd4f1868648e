/** The canonical form of a compiled routing program: public shuffles (wiring between
    multi-instructions) and rows of secret shuffles, each inside one window. */
module Rows {
  import opened Permutations

  /** `PublicShuffle` and `SecretShuffles` (a dict from offset to shuffle, in insertion order). */
  datatype Group = Group(off: nat, shuffle: seq<nat>)
  datatype Row = Public(wiring: seq<nat>) | Secret(groups: seq<Group>)

  ghost predicate GroupFits(n: nat, g: Group) {
    g.off + |g.shuffle| <= n && InRange(g.shuffle, |g.shuffle|)
  }

  ghost predicate RowFits(n: nat, row: Row) {
    match row
    case Public(w) => |w| == n && InRange(w, n)
    case Secret(gs) => forall k :: 0 <= k < |gs| ==> GroupFits(n, gs[k])
  }

  ghost predicate Fits(n: nat, rows: seq<Row>) {
    forall k :: 0 <= k < |rows| ==> RowFits(n, rows[k])
  }

  /** Where the content of position `i` comes from. */
  function GroupMap(n: nat, g: Group): (r: seq<nat>)
    requires GroupFits(n, g)
    ensures |r| == n && InRange(r, n)
    ensures forall i :: 0 <= i < n ==>
              r[i] == if g.off <= i < g.off + |g.shuffle| then g.off + g.shuffle[i - g.off] else i
  {
    seq(n, i requires 0 <= i < n => if g.off <= i < g.off + |g.shuffle| then g.off + g.shuffle[i - g.off] else i)
  }

  function GroupsMap(n: nat, gs: seq<Group>): (r: seq<nat>)
    requires forall k :: 0 <= k < |gs| ==> GroupFits(n, gs[k])
    ensures |r| == n && InRange(r, n)
  {
    if gs == [] then Identity(n)
    else Gather(GroupsMap(n, gs[..|gs| - 1]), GroupMap(n, gs[|gs| - 1]))
  }

  function RowMap(n: nat, row: Row): (r: seq<nat>)
    requires RowFits(n, row)
    ensures |r| == n && InRange(r, n)
  {
    match row
    case Public(w) => w
    case Secret(gs) => GroupsMap(n, gs)
  }

  function ProgramMap(n: nat, rows: seq<Row>): (r: seq<nat>)
    requires Fits(n, rows)
    ensures |r| == n && InRange(r, n)
  {
    if rows == [] then Identity(n)
    else Gather(ProgramMap(n, rows[..|rows| - 1]), RowMap(n, rows[|rows| - 1]))
  }

  lemma GroupsSnoc(n: nat, gs: seq<Group>, g: Group)
    requires GroupFits(n, g) && forall k :: 0 <= k < |gs| ==> GroupFits(n, gs[k])
    ensures forall k :: 0 <= k < |gs| + 1 ==> GroupFits(n, (gs + [g])[k])
    ensures GroupsMap(n, gs + [g]) == Gather(GroupsMap(n, gs), GroupMap(n, g))
  {
    assert (gs + [g])[..|gs|] == gs;
  }

  lemma ProgramSnoc(n: nat, rows: seq<Row>, row: Row)
    requires Fits(n, rows) && RowFits(n, row)
    ensures Fits(n, rows + [row])
    ensures ProgramMap(n, rows + [row]) == Gather(ProgramMap(n, rows), RowMap(n, row))
  {
    assert (rows + [row])[..|rows|] == rows;
  }

  lemma {:induction false} ProgramAppend(n: nat, a: seq<Row>, b: seq<Row>)
    requires Fits(n, a) && Fits(n, b)
    ensures Fits(n, a + b)
    ensures ProgramMap(n, a + b) == Gather(ProgramMap(n, a), ProgramMap(n, b))
    decreases |b|
  {
    hide RowMap; hide RowFits; hide Gather;
    if b == [] {
      assert a + b == a;
      GatherIdentity(ProgramMap(n, a));
    } else {
      var b', r := b[..|b| - 1], b[|b| - 1];
      ProgramAppend(n, a, b');
      ProgramSnoc(n, a + b', r);
      assert b == b' + [r] && a + b == (a + b') + [r];
      GatherAssoc(ProgramMap(n, a), ProgramMap(n, b'), RowMap(n, r));
    }
  }

  lemma GatherUnit(n: nat, p: seq<nat>)
    requires InRange(p, n)
    ensures Gather(Identity(n), p) == p
  {
  }

  /** `ff[off:off+n] = [ff[off+i] for i in perm]` */
  function ApplyGroup<T>(x: seq<T>, g: Group): (y: seq<T>)
    requires GroupFits(|x|, g)
    ensures |y| == |x|
    ensures y == Gather(x, GroupMap(|x|, g))
  {
    var k := |g.shuffle|;
    var y := x[..g.off] + Gather(x[g.off..g.off + k], g.shuffle) + x[g.off + k..];
    assert y == Gather(x, GroupMap(|x|, g));
    y
  }

  /** `canononical_run`: execute the rows one after the other on a list. */
  method CanonicalRun<T>(rows: seq<Row>, x: seq<T>) returns (y: seq<T>)
    requires Fits(|x|, rows)
    ensures y == Gather(x, ProgramMap(|x|, rows))
  {
    hide *;
    var n := |x|;
    y := x;
    NoRows(x, rows);
    for i := 0 to |rows|
      invariant RunsTo(x, rows, i, y)
    {
      ghost var before := y;
      RowAt(x, rows, i, y);
      match rows[i] {
        case Public(w) =>
          y := Gather(y, w);
        case Secret(gs) =>
          y := RunGroups(gs, y);
      }
      RunsNext(x, rows, i, before, y);
    }
    AllRun(x, rows, y);
  }

  /** The list after the first `i` rows. */
  ghost predicate RunsTo<T>(x: seq<T>, rows: seq<Row>, i: nat, y: seq<T>) {
    i <= |rows| && Fits(|x|, rows[..i]) && y == Gather(x, ProgramMap(|x|, rows[..i]))
  }

  lemma NoRows<T>(x: seq<T>, rows: seq<Row>)
    ensures RunsTo(x, rows, 0, x)
  {
    GatherIdentity(x);
  }

  lemma RowAt<T>(x: seq<T>, rows: seq<Row>, i: nat, y: seq<T>)
    requires Fits(|x|, rows) && i < |rows| && RunsTo(x, rows, i, y)
    ensures |y| == |x| && RowFits(|x|, rows[i]) && forall j :: 0 <= j < |RowMap(|x|, rows[i])| ==> RowMap(|x|, rows[i])[j] < |y|
    ensures rows[i].Public? ==> RowMap(|x|, rows[i]) == rows[i].wiring && forall j :: 0 <= j < |rows[i].wiring| ==> rows[i].wiring[j] < |y|
    ensures rows[i].Secret? ==> (forall k :: 0 <= k < |rows[i].groups| ==> GroupFits(|x|, rows[i].groups[k])) && RowMap(|x|, rows[i]) == GroupsMap(|x|, rows[i].groups)
  {
    assert RowFits(|x|, rows[i]);
  }

  lemma RunsNext<T>(x: seq<T>, rows: seq<Row>, i: nat, y: seq<T>, z: seq<T>)
    requires Fits(|x|, rows) && i < |rows| && RunsTo(x, rows, i, y) && |y| == |x| && RowFits(|x|, rows[i])
    requires (forall j :: 0 <= j < |RowMap(|x|, rows[i])| ==> RowMap(|x|, rows[i])[j] < |y|) && z == Gather(y, RowMap(|x|, rows[i]))
    ensures RunsTo(x, rows, i + 1, z)
  {
    hide RowMap; hide RowFits; hide ProgramMap;
    GatherAssoc(x, ProgramMap(|x|, rows[..i]), RowMap(|x|, rows[i]));
    ProgramSnoc(|x|, rows[..i], rows[i]);
    assert rows[..i + 1] == rows[..i] + [rows[i]];
  }

  lemma AllRun<T>(x: seq<T>, rows: seq<Row>, y: seq<T>)
    requires Fits(|x|, rows) && RunsTo(x, rows, |rows|, y)
    ensures y == Gather(x, ProgramMap(|x|, rows))
  {
    assert rows[..|rows|] == rows;
  }

  method RunGroups<T>(gs: seq<Group>, x: seq<T>) returns (y: seq<T>)
    requires forall k :: 0 <= k < |gs| ==> GroupFits(|x|, gs[k])
    ensures y == Gather(x, GroupsMap(|x|, gs))
  {
    var n := |x|;
    y := x;
    GatherIdentity(x);
    for i := 0 to |gs|
      invariant y == Gather(x, GroupsMap(n, gs[..i]))
    {
      y := ApplyGroup(y, gs[i]);
      GatherAssoc(x, GroupsMap(n, gs[..i]), GroupMap(n, gs[i]));
      GroupsSnoc(n, gs[..i], gs[i]);
      assert gs[..i + 1] == gs[..i] + [gs[i]];
    }
    assert gs[..|gs|] == gs;
  }

  function IsIdentityRow(row: Row): bool {
    row.Public? && row.wiring == Identity(|row.wiring|)
  }

  function DropIdentities(rows: seq<Row>): (r: seq<Row>)
    ensures |r| <= |rows| && (forall k :: 0 <= k < |r| ==> r[k] in rows && !IsIdentityRow(r[k]))
  {
    if rows == [] then []
    else
      var k := |rows| - 1;
      var rest := DropIdentities(rows[..k]);
      if IsIdentityRow(rows[k]) then rest else rest + [rows[k]]
  }

  /** One pass of `optimize` over the rows. */
  method OptimizePass(program: seq<Row>) returns (kept: seq<Row>, optimized: bool)
    ensures kept == DropIdentities(program) && (optimized <==> |kept| < |program|)
  {
    optimized := false;
    kept := [];
    for i := 0 to |program|
      invariant kept == DropIdentities(program[..i])
      invariant optimized <==> |kept| < i
    {
      assert program[..i + 1][..i] == program[..i];
      if IsIdentityRow(program[i]) {
        optimized := true;
      } else {
        kept := kept + [program[i]];
      }
    }
    assert program[..|program|] == program;
  }

  /** `optimize`: remove public identity maps until none was removed. */
  method Optimize(program: seq<Row>, n: nat) returns (r: seq<Row>)
    requires Fits(n, program)
    ensures Fits(n, r) && ProgramMap(n, r) == ProgramMap(n, program)
    ensures r == DropIdentities(program) && forall k :: 0 <= k < |r| ==> r[k] in program && !IsIdentityRow(r[k])
  {
    hide *;
    r := program;
    var optimized := true;
    while optimized
      invariant Fits(n, r) && ProgramMap(n, r) == ProgramMap(n, program)
      invariant forall k :: 0 <= k < |r| ==> r[k] in program
      invariant !optimized ==> forall k :: 0 <= k < |r| ==> !IsIdentityRow(r[k])
      invariant r == DropIdentities(program) || (optimized && r == program)
      decreases |r|, optimized
    {
      DropIdentitiesMap(n, r);
      DropIdentitiesSubset(r, program);
      DropTwice(program);
      r, optimized := OptimizePass(r);
    }
  }

  lemma {:induction false} NothingToDrop(rows: seq<Row>)
    requires forall k :: 0 <= k < |rows| ==> !IsIdentityRow(rows[k])
    ensures DropIdentities(rows) == rows
    decreases |rows|
  {
    if rows != [] { NothingToDrop(rows[..|rows| - 1]); }
  }

  lemma DropTwice(rows: seq<Row>)
    ensures DropIdentities(DropIdentities(rows)) == DropIdentities(rows)
  {
    NothingToDrop(DropIdentities(rows));
  }

  lemma DropIdentitiesSubset(rows: seq<Row>, program: seq<Row>)
    requires forall k :: 0 <= k < |rows| ==> rows[k] in program
    ensures forall k :: 0 <= k < |DropIdentities(rows)| ==> DropIdentities(rows)[k] in program
  {
    forall k | 0 <= k < |DropIdentities(rows)| ensures DropIdentities(rows)[k] in program {
      assert DropIdentities(rows)[k] in rows;
    }
  }

  lemma {:induction false} DropIdentitiesMap(n: nat, rows: seq<Row>)
    requires Fits(n, rows)
    ensures Fits(n, DropIdentities(rows)) && ProgramMap(n, DropIdentities(rows)) == ProgramMap(n, rows)
  {
    if rows != [] {
      var k := |rows| - 1;
      DropIdentitiesMap(n, rows[..k]);
      if IsIdentityRow(rows[k]) {
        GatherIdentity(ProgramMap(n, rows[..k]));
      } else {
        ProgramSnoc(n, DropIdentities(rows[..k]), rows[k]);
      }
    }
  }
}
