/** Directed graphs given by successor sets, paths in them, and the worklist traversal
    `check_domination_for_merge` of compiler/src/DFG.py. */
module Graphs {

  /** `forward_edges`: a node without an entry has no successor. */
  type Edges = map<nat, set<nat>>

  function Succ(e: Edges, n: nat): set<nat> {
    if n in e then e[n] else {}
  }

  ghost predicate IsPath(e: Edges, p: seq<nat>) {
    |p| >= 1 && forall i :: 0 <= i < |p| - 1 ==> p[i + 1] in Succ(e, p[i])
  }

  ghost predicate Joins(e: Edges, p: seq<nat>, a: nat, b: nat) {
    IsPath(e, p) && p[0] == a && p[|p| - 1] == b
  }

  /** A path of any length. */
  ghost predicate Reach(e: Edges, a: nat, b: nat) {
    exists p :: Joins(e, p, a, b)
  }

  /** A path of length one or more. */
  ghost predicate Reaches(e: Edges, a: nat, b: nat) {
    exists p :: Joins(e, p, a, b) && |p| >= 2
  }

  /** A path of length two or more. */
  ghost predicate LongPath(e: Edges, a: nat, b: nat) {
    exists p :: Joins(e, p, a, b) && |p| >= 3
  }

  ghost predicate Acyclic(e: Edges) {
    forall n :: !Reaches(e, n, n)
  }

  /** `m` is reached from `a` through a successor other than `b`. */
  ghost predicate Found(e: Edges, a: nat, b: nat, m: nat) {
    exists c :: c in Succ(e, a) && c != b && Reach(e, c, m)
  }

  ghost predicate Detour(e: Edges, a: nat, b: nat) {
    Found(e, a, b, b)
  }

  // ----- composing paths -----

  lemma ReachSelf(e: Edges, a: nat)
    ensures Reach(e, a, a)
  {
    assert Joins(e, [a], a, a);
  }

  lemma PathConcat(e: Edges, p: seq<nat>, q: seq<nat>)
    requires IsPath(e, p) && IsPath(e, q) && p[|p| - 1] == q[0]
    ensures IsPath(e, p + q[1..])
    ensures (p + q[1..])[0] == p[0] && (p + q[1..])[|p + q[1..]| - 1] == q[|q| - 1] && |p + q[1..]| == |p| + |q| - 1
  {
    var r := p + q[1..];
    forall i | 0 <= i < |r| - 1 ensures r[i + 1] in Succ(e, r[i]) {
      if i >= |p| - 1 {
        var k := i - (|p| - 1);
        assert r[i] == q[k] && r[i + 1] == q[k + 1];
      }
    }
  }

  lemma EdgePath(e: Edges, a: nat, b: nat)
    requires b in Succ(e, a)
    ensures Joins(e, [a, b], a, b) && Reaches(e, a, b)
  {
    assert Joins(e, [a, b], a, b);
  }

  lemma ReachStep(e: Edges, a: nat, b: nat, c: nat)
    requires Reach(e, a, b) && c in Succ(e, b)
    ensures Reach(e, a, c)
  {
    var p :| Joins(e, p, a, b);
    PathConcat(e, p, [b, c]);
    assert Joins(e, p + [b, c][1..], a, c);
  }

  lemma ReachesTrans(e: Edges, a: nat, b: nat, c: nat)
    requires Reaches(e, a, b) && Reaches(e, b, c)
    ensures Reaches(e, a, c)
  {
    var p :| Joins(e, p, a, b) && |p| >= 2;
    var q :| Joins(e, q, b, c) && |q| >= 2;
    PathConcat(e, p, q);
    assert Joins(e, p + q[1..], a, c);
  }

  lemma PathTail(e: Edges, p: seq<nat>)
    requires IsPath(e, p) && |p| >= 2
    ensures IsPath(e, p[1..])
  {
    var q := p[1..];
    forall i | 0 <= i < |q| - 1 ensures q[i + 1] in Succ(e, q[i]) {
      assert q[i] == p[i + 1] && q[i + 1] == p[i + 2];
    }
  }

  /** In an acyclic graph a detour is the same as a path of length two or more. */
  lemma DetourIsLong(e: Edges, a: nat, b: nat)
    requires Acyclic(e)
    ensures Detour(e, a, b) <==> LongPath(e, a, b)
  {
    if Detour(e, a, b) {
      var c :| c in Succ(e, a) && c != b && Reach(e, c, b);
      var p :| Joins(e, p, c, b);
      PathConcat(e, [a, c], p);
      assert Joins(e, [a, c] + p[1..], a, b);
    }
    if LongPath(e, a, b) {
      var p :| Joins(e, p, a, b) && |p| >= 3;
      PathTail(e, p);
      assert Joins(e, p[1..], p[1], b);
      assert !Reaches(e, b, b);
      assert p[1] in Succ(e, p[0]);
      assert p[1] != b;
    }
  }

  // ----- closed sets -----

  ghost predicate Closed(e: Edges, s: set<nat>) {
    forall n, m :: n in s && m in Succ(e, n) ==> m in s
  }

  lemma {:induction false} ClosedPath(e: Edges, s: set<nat>, p: seq<nat>, i: nat)
    requires Closed(e, s) && IsPath(e, p) && p[0] in s && i < |p|
    ensures p[i] in s
  {
    if i > 0 {
      ClosedPath(e, s, p, i - 1);
      assert p[i] in Succ(e, p[i - 1]);
    }
  }

  lemma ClosedReach(e: Edges, s: set<nat>, a: nat, b: nat)
    requires Closed(e, s) && a in s && Reach(e, a, b)
    ensures b in s
  {
    var p :| Joins(e, p, a, b);
    ClosedPath(e, s, p, |p| - 1);
  }

  // ----- the traversal -----

  function Targets(e: Edges): (r: set<nat>)
    ensures forall n, m :: m in Succ(e, n) ==> m in r
  {
    set n, m | n in e && m in e[n] :: m
  }

  lemma FoundNext(e: Edges, a: nat, b: nat, n: nat, m: nat)
    requires Found(e, a, b, n) && m in Succ(e, n)
    ensures Found(e, a, b, m)
  {
    var c :| c in Succ(e, a) && c != b && Reach(e, c, n);
    ReachStep(e, c, n, m);
  }

  ghost predicate Frontier(e: Edges, visited: set<nat>, toVisit: set<nat>) {
    forall n, m :: n in visited && m in Succ(e, n) ==> m in visited || m in toVisit
  }

  lemma NothingLeft(e: Edges, a: nat, b: nat, visited: set<nat>)
    requires Frontier(e, visited, {}) && b !in visited && forall c :: c in Succ(e, a) && c != b ==> c in visited
    ensures !Detour(e, a, b)
  {
    forall c | c in Succ(e, a) && c != b ensures !Reach(e, c, b) {
      if Reach(e, c, b) { ClosedReach(e, visited, c, b); }
    }
  }

  /** One of the two traversals: from the successors of `a` other than `b`, is `b` met? */
  method Traverse(e: Edges, a: nat, b: nat) returns (met: bool)
    ensures met <==> Detour(e, a, b)
  {
    hide Reach; hide Succ; hide Detour; hide Found;
    var toVisit := set n | n in Succ(e, a) && n != b;
    var visited: set<nat> := {};
    var all := Targets(e);
    StartFound(e, a, b);
    while toVisit != {}
      invariant forall n :: n in toVisit ==> Found(e, a, b, n) && n in all
      invariant b !in visited && visited <= all
      invariant Frontier(e, visited, toVisit) && forall c :: c in Succ(e, a) && c != b ==> c in visited || c in toVisit
      decreases all - visited, toVisit
    {
      var n :| n in toVisit;
      toVisit := toVisit - {n};
      if n in visited { continue; }
      if n == b {
        FoundIsDetour(e, a, b);
        return true;
      }
      ghost var before := all - visited;
      visited := visited + {n};
      assert n in before && n !in all - visited;
      forall m | m in Succ(e, n) ensures Found(e, a, b, m) { FoundNext(e, a, b, n, m); }
      toVisit := toVisit + Succ(e, n);
    }
    NothingLeft(e, a, b, visited);
    return false;
  }

  lemma StartFound(e: Edges, a: nat, b: nat)
    ensures forall n :: n in Succ(e, a) && n != b ==> Found(e, a, b, n)
  {
    forall n | n in Succ(e, a) && n != b ensures Found(e, a, b, n) { ReachSelf(e, n); }
  }

  lemma FoundIsDetour(e: Edges, a: nat, b: nat)
    requires Found(e, a, b, b)
    ensures Detour(e, a, b)
  {
  }

  /** `check_domination_for_merge`: on an acyclic graph, true exactly when no path of length two or more joins the nodes. */
  method CheckDominationForMerge(e: Edges, n1: nat, n2: nat) returns (ok: bool)
    ensures ok <==> !Detour(e, n1, n2) && !Detour(e, n2, n1)
    ensures Acyclic(e) ==> (ok <==> !LongPath(e, n1, n2) && !LongPath(e, n2, n1))
  {
    hide *;
    if Acyclic(e) {
      DetourIsLong(e, n1, n2);
      DetourIsLong(e, n2, n1);
    }
    var met := Traverse(e, n1, n2);
    if met { return false; }
    met := Traverse(e, n2, n1);
    return !met;
  }

  // ----- ranks -----

  ghost function Ancestors(e: Edges, nodes: set<nat>, n: nat): (r: set<nat>)
    ensures forall m :: m in r <==> m in nodes && Reaches(e, m, n)
  {
    set m | m in nodes && Reaches(e, m, n)
  }

  /** In an acyclic graph the number of ancestors grows along edges. */
  lemma RankGrows(e: Edges, nodes: set<nat>, a: nat, b: nat)
    requires Acyclic(e) && a in nodes && b in Succ(e, a)
    ensures |Ancestors(e, nodes, a)| < |Ancestors(e, nodes, b)|
  {
    hide Reaches;
    EdgePath(e, a, b);
    var x, y := Ancestors(e, nodes, a), Ancestors(e, nodes, b);
    forall m | m in x ensures m in y { ReachesTrans(e, m, a, b); }
    assert a in y && a !in x;
    assert x < y;
    SubsetSmaller(x, y);
  }

  lemma SubsetSmaller(x: set<nat>, y: set<nat>)
    requires x < y
    ensures |x| < |y|
  {
    assert y == x + (y - x);
    assert |y - x| > 0 by {
      var z :| z in y && z !in x;
      assert z in y - x;
    }
  }

  /** A set of nodes in an acyclic graph has a member without predecessor in the set. */
  lemma {:induction false} HasFirst(e: Edges, nodes: set<nat>, s: set<nat>) returns (n: nat)
    requires Acyclic(e) && s != {} && s <= nodes
    ensures n in s && forall m :: m in s ==> n !in Succ(e, m)
  {
    hide Acyclic; hide Succ;
    n := Least(e, nodes, s);
    forall m | m in s ensures n !in Succ(e, m) {
      if n in Succ(e, m) {
        RankGrows(e, nodes, m, n);
        assert false;
      }
    }
  }

  lemma {:induction false} Least(e: Edges, nodes: set<nat>, s: set<nat>) returns (n: nat)
    requires s != {}
    ensures n in s && forall m :: m in s ==> |Ancestors(e, nodes, n)| <= |Ancestors(e, nodes, m)|
    decreases s
  {
    var x :| x in s;
    if s == {x} { return x; }
    assert s == {x} + (s - {x});
    var y := Least(e, nodes, s - {x});
    n := if |Ancestors(e, nodes, x)| <= |Ancestors(e, nodes, y)| then x else y;
    forall m | m in s ensures |Ancestors(e, nodes, n)| <= |Ancestors(e, nodes, m)| {
      if m != x { assert m in s - {x}; }
    }
  }

  /** A rank that grows along edges excludes cycles. */
  lemma {:induction false} RankPath(e: Edges, rank: nat -> nat, p: seq<nat>, i: nat)
    requires (forall a, b :: b in Succ(e, a) ==> rank(a) < rank(b)) && IsPath(e, p) && 0 < i < |p|
    ensures rank(p[0]) < rank(p[i])
  {
    assert p[i] in Succ(e, p[i - 1]);
    if i > 1 { RankPath(e, rank, p, i - 1); }
  }

  lemma RankedIsAcyclic(e: Edges, rank: nat -> nat)
    requires forall a, b :: b in Succ(e, a) ==> rank(a) < rank(b)
    ensures Acyclic(e)
  {
    forall n ensures !Reaches(e, n, n) {
      if Reaches(e, n, n) {
        var p :| Joins(e, p, n, n) && |p| >= 2;
        RankPath(e, rank, p, |p| - 1);
        assert false;
      }
    }
  }

  // ----- merging two nodes -----

  /** `f` is `e` with `n1` and `n2` replaced by the new node `x`. */
  ghost predicate Contracts(e: Edges, f: Edges, n1: nat, n2: nat, x: nat) {
    && x !in Succ(f, x)
    && (forall a, b :: a != x && b != x && b in Succ(f, a) ==> b in Succ(e, a))
    && (forall b :: b in Succ(f, x) && b != x ==> b in Succ(e, n1) || b in Succ(e, n2))
    && (forall a :: a != x && x in Succ(f, a) ==> n1 in Succ(e, a) || n2 in Succ(e, a))
  }

  lemma AvoidsIsPath(e: Edges, f: Edges, n1: nat, n2: nat, x: nat, p: seq<nat>)
    requires Contracts(e, f, n1, n2, x) && IsPath(f, p) && x !in p
    ensures IsPath(e, p)
  {
    forall i | 0 <= i < |p| - 1 ensures p[i + 1] in Succ(e, p[i]) {
      assert p[i + 1] in Succ(f, p[i]) && p[i] in p && p[i + 1] in p;
    }
  }

  lemma SubPath(e: Edges, p: seq<nat>, i: nat, j: nat)
    requires IsPath(e, p) && i < j <= |p|
    ensures IsPath(e, p[i..j])
  {
    var q := p[i..j];
    forall k | 0 <= k < |q| - 1 ensures q[k + 1] in Succ(e, q[k]) {
      assert q[k] == p[i + k] && q[k + 1] == p[i + k + 1];
    }
  }

  /** A cycle through `x` can be cut at its first return to `x`. */
  lemma {:induction false} FirstReturn(p: seq<nat>, x: nat, k: nat) returns (j: nat)
    requires 0 < k < |p| && p[k] == x
    ensures 0 < j <= k && p[j] == x && x !in p[1..j]
  {
    j := 1;
    while p[j] != x
      invariant 1 <= j <= k && x !in p[1..j]
      decreases k - j
    {
      assert p[1..j + 1] == p[1..j] + [p[j]];
      j := j + 1;
    }
  }

  lemma ReturnIsPath(e: Edges, f: Edges, n1: nat, n2: nat, x: nat, p: seq<nat>)
    requires Contracts(e, f, n1, n2, x) && IsPath(f, p) && |p| >= 2 && p[0] == x && p[|p| - 1] == x
    ensures Reaches(e, n1, n1) || Reaches(e, n2, n2) || LongPath(e, n1, n2) || LongPath(e, n2, n1)
  {
    var j := FirstReturn(p, x, |p| - 1);
    assert p[1] in Succ(f, p[0]) && p[j] in Succ(f, p[j - 1]);
    var r := p[1..j];
    assert j >= 2;
    SubPath(f, p, 1, j);
    AvoidsIsPath(e, f, n1, n2, x, r);
    assert r[0] == p[1] && r[|r| - 1] == p[j - 1] && r[0] in r && r[|r| - 1] in r;
    var a := if r[0] in Succ(e, n1) then n1 else n2;
    var b := if n1 in Succ(e, r[|r| - 1]) then n1 else n2;
    PathConcat(e, [a, r[0]], r);
    var q := [a, r[0]] + r[1..];
    PathConcat(e, q, [r[|r| - 1], b]);
    var c := q + [r[|r| - 1], b][1..];
    assert Joins(e, c, a, b) && |c| >= 3;
    assert a == b ==> Reaches(e, a, a);
    assert a != b ==> LongPath(e, a, b);
  }

  lemma AvoidsIsCycle(e: Edges, f: Edges, n1: nat, n2: nat, x: nat, p: seq<nat>, n: nat)
    requires Contracts(e, f, n1, n2, x) && Joins(f, p, n, n) && |p| >= 2 && x !in p
    ensures Reaches(e, n, n)
  {
    AvoidsIsPath(e, f, n1, n2, x, p);
    assert Joins(e, p, n, n);
  }

  /** Merging two nodes that no path of length two or more joins keeps the graph acyclic. */
  lemma ContractionAcyclic(e: Edges, f: Edges, n1: nat, n2: nat, x: nat)
    requires Contracts(e, f, n1, n2, x) && Acyclic(e) && !LongPath(e, n1, n2) && !LongPath(e, n2, n1)
    ensures Acyclic(f)
  {
    hide Contracts; hide LongPath;
    forall n ensures !Reaches(f, n, n) {
      if Reaches(f, n, n) {
        var p :| Joins(f, p, n, n) && |p| >= 2;
        if x in p {
          var i :| 0 <= i < |p| && p[i] == x;
          Rotate(f, p, i);
          ReturnIsPath(e, f, n1, n2, x, p[i..] + p[..i + 1][1..]);
        } else {
          AvoidsIsCycle(e, f, n1, n2, x, p, n);
        }
      }
    }
  }

  lemma Rotate(e: Edges, p: seq<nat>, i: nat)
    requires IsPath(e, p) && |p| >= 2 && p[0] == p[|p| - 1] && i < |p|
    ensures var q := p[i..] + p[..i + 1][1..];
      IsPath(e, q) && |q| == |p| && q[0] == p[i] && q[|q| - 1] == p[i]
  {
    SubPath(e, p, i, |p|);
    assert p[i..|p|] == p[i..];
    SubPath(e, p, 0, i + 1);
    assert p[0..i + 1] == p[..i + 1];
    PathConcat(e, p[i..], p[..i + 1]);
  }
}
