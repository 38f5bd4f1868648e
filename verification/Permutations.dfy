/** Permutations of `0..n-1` as Python lists, and the list operations routing.py builds on them. */
module Permutations {

  ghost predicate InRange(p: seq<nat>, n: nat) {
    forall i :: 0 <= i < |p| ==> p[i] < n
  }

  ghost predicate Injective(p: seq<nat>) {
    forall i, j :: 0 <= i < j < |p| ==> p[i] != p[j]
  }

  ghost predicate IsPerm(p: seq<nat>) {
    InRange(p, |p|) && Injective(p)
  }

  /** `[x[i] for i in p]`: what `Shuffle.apply` returns, and what composition of two shuffles is. */
  function Gather<T>(x: seq<T>, p: seq<nat>): (r: seq<T>)
    requires forall i :: 0 <= i < |p| ==> p[i] < |x|
    ensures |r| == |p|
  {
    seq(|p|, i requires 0 <= i < |p| => x[p[i]])
  }

  function Identity(n: nat): (r: seq<nat>)
    ensures |r| == n && forall i :: 0 <= i < n ==> r[i] == i
  {
    seq(n, i => i)
  }

  lemma GatherAssoc<T>(x: seq<T>, p: seq<nat>, q: seq<nat>)
    requires InRange(p, |x|) && InRange(q, |p|)
    ensures InRange(Gather(p, q), |x|)
    ensures Gather(Gather(x, p), q) == Gather(x, Gather(p, q))
  {
  }

  lemma GatherIdentity<T>(x: seq<T>)
    ensures Gather(x, Identity(|x|)) == x
  {
  }

  function Range(n: nat): (s: set<nat>)
    ensures |s| == n
    ensures forall i :: i in s <==> 0 <= i < n
  {
    if n == 0 then {} else Range(n - 1) + {n - 1}
  }

  lemma SubsetCard(a: set<nat>, b: set<nat>)
    requires a <= b
    ensures |a| <= |b|
    ensures |a| == |b| ==> a == b
  {
    assert b == a + (b - a);
  }

  lemma {:induction false} InjectiveCard(p: seq<nat>)
    requires Injective(p)
    ensures |set i | 0 <= i < |p| :: p[i]| == |p|
  {
    var s := set i | 0 <= i < |p| :: p[i];
    if p == [] {
      assert s == {};
    } else {
      var k := |p| - 1;
      var q := p[..k];
      InjectiveCard(q);
      assert s == (set i | 0 <= i < |q| :: q[i]) + {p[k]};
    }
  }

  /** Pigeonhole: a list longer than its range of values repeats one. */
  lemma Pigeonhole(p: seq<nat>, n: nat)
    requires InRange(p, n) && |p| > n
    ensures !Injective(p)
  {
    if Injective(p) {
      InjectiveCard(p);
      SubsetCard(set i | 0 <= i < |p| :: p[i], Range(n));
      assert false;
    }
  }

  lemma Surjective(p: seq<nat>, y: nat)
    requires IsPerm(p) && y < |p|
    ensures exists i :: 0 <= i < |p| && p[i] == y
  {
    InjectiveCard(p);
    var s := set i | 0 <= i < |p| :: p[i];
    SubsetCard(s, Range(|p|));
    assert y in s;
  }

  ghost predicate AreInverse(p: seq<nat>, q: seq<nat>) {
    && |p| == |q| && InRange(p, |p|) && InRange(q, |q|)
    && (forall i :: 0 <= i < |p| ==> q[p[i]] == i)
    && (forall i :: 0 <= i < |q| ==> p[q[i]] == i)
  }

  lemma InverseIsPerm(p: seq<nat>, q: seq<nat>)
    requires AreInverse(p, q)
    ensures IsPerm(p) && IsPerm(q)
  {
    forall i, j | 0 <= i < j < |p| ensures p[i] != p[j] { assert q[p[i]] == i && q[p[j]] == j; }
    forall i, j | 0 <= i < j < |q| ensures q[i] != q[j] { assert p[q[i]] == i && p[q[j]] == j; }
  }

  lemma ComposePerm(p: seq<nat>, q: seq<nat>)
    requires IsPerm(p) && IsPerm(q) && |p| == |q|
    ensures IsPerm(Gather(p, q))
  {
    var r := Gather(p, q);
    forall i, j | 0 <= i < j < |r| ensures r[i] != r[j] {
      assert q[i] != q[j];
      if q[i] < q[j] { assert p[q[i]] != p[q[j]]; } else { assert p[q[j]] != p[q[i]]; }
    }
  }

  /** `Shuffle.__invert__`: fill the inverse table by one pass over the shuffle. */
  method Invert(p: seq<nat>) returns (q: seq<nat>)
    requires IsPerm(p)
    ensures AreInverse(p, q)
  {
    q := seq(|p|, i => 0);
    for i := 0 to |p|
      invariant |q| == |p| && InRange(q, |p|)
      invariant forall k :: 0 <= k < i ==> q[p[k]] == k
    {
      q := q[p[i] := i];
    }
    forall y | 0 <= y < |p| ensures p[q[y]] == y {
      Surjective(p, y);
      var i :| 0 <= i < |p| && p[i] == y;
      assert q[p[i]] == i;
    }
  }

  // ----- composeinv -----

  predicate PairLe(a: (nat, nat), b: (nat, nat)) {
    a.0 < b.0 || (a.0 == b.0 && a.1 <= b.1)
  }

  ghost predicate SortedPairs(s: seq<(nat, nat)>) {
    forall i, j :: 0 <= i < j < |s| ==> PairLe(s[i], s[j])
  }

  function InsertPair(a: (nat, nat), s: seq<(nat, nat)>): (r: seq<(nat, nat)>)
    ensures multiset(r) == multiset(s) + multiset{a}
  {
    if s == [] then [a]
    else if PairLe(a, s[0]) then [a] + s
    else
      assert s == [s[0]] + s[1..];
      [s[0]] + InsertPair(a, s[1..])
  }

  function SortPairs(s: seq<(nat, nat)>): (r: seq<(nat, nat)>)
    ensures multiset(r) == multiset(s)
  {
    if s == [] then []
    else
      assert s == [s[0]] + s[1..];
      InsertPair(s[0], SortPairs(s[1..]))
  }

  lemma {:induction false} InsertSorted(a: (nat, nat), s: seq<(nat, nat)>)
    requires SortedPairs(s)
    ensures SortedPairs(InsertPair(a, s))
  {
    if s != [] && !PairLe(a, s[0]) {
      InsertSorted(a, s[1..]);
      var t := InsertPair(a, s[1..]);
      forall j | 0 <= j < |t| ensures PairLe(s[0], t[j]) {
        assert t[j] in multiset(t);
        assert t[j] == a || t[j] in s[1..];
      }
    }
  }

  lemma {:induction false} SortSorted(s: seq<(nat, nat)>)
    ensures SortedPairs(SortPairs(s))
  {
    if s != [] {
      SortSorted(s[1..]);
      InsertSorted(s[0], SortPairs(s[1..]));
    }
  }

  function Zip(a: seq<nat>, b: seq<nat>): (r: seq<(nat, nat)>)
    requires |a| == |b|
    ensures |r| == |a|
  {
    seq(|a|, i requires 0 <= i < |a| => (a[i], b[i]))
  }

  /** `[y for x, y in sorted(zip(pi, c))]` */
  function ComposeInv(c: seq<nat>, pi: seq<nat>): (r: seq<nat>)
    requires |c| == |pi|
    ensures |r| == |c|
  {
    var s := SortPairs(Zip(pi, c));
    assert |multiset(s)| == |s| && |multiset(Zip(pi, c))| == |c|;
    seq(|s|, i requires 0 <= i < |s| => s[i].1)
  }

  lemma {:induction false} IncreasingIsIdentity(s: seq<nat>, k: nat)
    requires InRange(s, |s|) && k < |s|
    requires forall i, j :: 0 <= i < j < |s| ==> s[i] < s[j]
    ensures s[k] == k
  {
    IncreasingBelow(s, k);
    IncreasingAbove(s, k);
  }

  lemma {:induction false} IncreasingBelow(s: seq<nat>, k: nat)
    requires k < |s| && forall i, j :: 0 <= i < j < |s| ==> s[i] < s[j]
    ensures s[k] >= k
  {
    if k > 0 { IncreasingBelow(s, k - 1); }
  }

  lemma {:induction false} IncreasingAbove(s: seq<nat>, k: nat)
    requires InRange(s, |s|) && k < |s| && forall i, j :: 0 <= i < j < |s| ==> s[i] < s[j]
    ensures s[k] <= k
    decreases |s| - k
  {
    if k + 1 < |s| { IncreasingAbove(s, k + 1); }
  }

  /** The keys of the sorted list are `0, 1, ..., n-1`, because `pi` is a permutation. */
  lemma SortedKeys(s: seq<(nat, nat)>, pi: seq<nat>, c: seq<nat>)
    requires |c| == |pi| && IsPerm(pi)
    requires SortedPairs(s) && multiset(s) == multiset(Zip(pi, c))
    ensures |s| == |pi|
    ensures forall k :: 0 <= k < |s| ==> s[k].0 == k
  {
    var z := Zip(pi, c);
    assert |multiset(s)| == |s| && |multiset(z)| == |z|;
    var keys: seq<nat> := seq(|s|, i requires 0 <= i < |s| => s[i].0);
    forall i | 0 <= i < |s| ensures keys[i] < |keys| {
      assert s[i] in multiset(z);
      assert s[i] in z;
    }
    forall i, j | 0 <= i < j < |s| ensures keys[i] < keys[j] {
      assert PairLe(s[i], s[j]);
      if keys[i] == keys[j] {
        ZipKeysDistinct(pi, c, s[i], s[j]);
        DuplicateCount(s, i, j);
        assert multiset(z)[s[i]] >= 2;
        ZipCount(pi, c, s[i]);
        assert false;
      }
    }
    forall k | 0 <= k < |s| ensures s[k].0 == k {
      IncreasingIsIdentity(keys, k);
    }
  }

  lemma ZipKeysDistinct(pi: seq<nat>, c: seq<nat>, a: (nat, nat), b: (nat, nat))
    requires |c| == |pi| && IsPerm(pi)
    requires a in multiset(Zip(pi, c)) && b in multiset(Zip(pi, c)) && a.0 == b.0
    ensures a == b
  {
    var z := Zip(pi, c);
    assert a in z && b in z;
    var i :| 0 <= i < |z| && z[i] == a;
    var j :| 0 <= j < |z| && z[j] == b;
    assert pi[i] == pi[j];
    assert i == j;
  }

  lemma DuplicateCount<T>(s: seq<T>, i: nat, j: nat)
    requires i < j < |s| && s[i] == s[j]
    ensures multiset(s)[s[i]] >= 2
  {
    assert s == s[..j] + [s[j]] + s[j + 1..];
    assert s[i] == s[..j][i];
    assert s[i] in multiset(s[..j]);
  }

  lemma {:induction false} ZipCount(pi: seq<nat>, c: seq<nat>, a: (nat, nat))
    requires |c| == |pi| && Injective(pi)
    ensures multiset(Zip(pi, c))[a] <= 1
  {
    if pi != [] {
      var k := |pi| - 1;
      ZipCount(pi[..k], c[..k], a);
      var z, y := Zip(pi, c), Zip(pi[..k], c[..k]);
      assert z == y + [(pi[k], c[k])];
      forall i | 0 <= i < k ensures y[i] != (pi[k], c[k]) { assert pi[i] != pi[k]; }
      assert (pi[k], c[k]) !in y;
    }
  }

  /** `composeinv(c, pi)` is `c` composed with the inverse of the permutation `pi`. */
  lemma ComposeInvAt(c: seq<nat>, pi: seq<nat>)
    requires |c| == |pi| && IsPerm(pi)
    ensures forall i :: 0 <= i < |pi| ==> ComposeInv(c, pi)[pi[i]] == c[i]
  {
    var z := Zip(pi, c);
    var s := SortPairs(z);
    SortSorted(z);
    SortedKeys(s, pi, c);
    forall i | 0 <= i < |pi| ensures ComposeInv(c, pi)[pi[i]] == c[i] {
      assert z[i] in multiset(z);
      assert z[i] in multiset(s);
      assert z[i] in s;
      var k :| 0 <= k < |s| && s[k] == z[i];
      assert k == pi[i];
    }
  }

  /** The list view of `ComposeInv` once the inverse of the second argument is at hand. */
  lemma ComposeInvView(c: seq<nat>, pi: seq<nat>, inv: seq<nat>)
    requires |c| == |pi| && AreInverse(pi, inv)
    ensures ComposeInv(c, pi) == Gather(c, inv)
  {
    InverseIsPerm(pi, inv);
    ComposeInvAt(c, pi);
    forall y | 0 <= y < |pi| ensures ComposeInv(c, pi)[y] == Gather(c, inv)[y] {
      assert ComposeInv(c, pi)[pi[inv[y]]] == c[inv[y]];
    }
  }
}
