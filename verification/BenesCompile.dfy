/** `BenesPerm._compile` of compiler/src/universalization/routing.py. */
module BenesCompile {
  import opened Bits
  import opened Permutations
  import opened Cycles

  lemma TwinIsXor(x: nat)
    ensures Xor(x, 1) == Twin(x) == FlipBit(0, x)
  {
    XorOne(x);
  }

  /** `[pi[x^1] for x in range(n)]` */
  function TwinThen(pi: seq<nat>): (r: seq<nat>)
    requires IsPairedPerm(pi)
    ensures |r| == |pi| && forall x :: 0 <= x < |r| ==> Twin(x) < |pi| && r[x] == pi[Twin(x)]
  {
    assert forall x :: 0 <= x < |pi| ==> Xor(x, 1) == Twin(x) < |pi| by {
      forall x | 0 <= x < |pi| ensures Xor(x, 1) == Twin(x) < |pi| { TwinIsXor(x); TwinRange(x, |pi|); }
    }
    seq(|pi|, x requires 0 <= x < |pi| => pi[Xor(x, 1)])
  }

  /** `[pi[x]^1 for x in range(n)]` */
  function ThenTwin(pi: seq<nat>): (r: seq<nat>)
    requires IsPairedPerm(pi)
    ensures |r| == |pi| && forall x :: 0 <= x < |r| ==> r[x] == Twin(pi[x]) < |pi|
  {
    assert forall x :: 0 <= x < |pi| ==> Xor(pi[x], 1) == Twin(pi[x]) < |pi| by {
      forall x | 0 <= x < |pi| ensures Xor(pi[x], 1) == Twin(pi[x]) < |pi| { TwinIsXor(pi[x]); TwinRange(pi[x], |pi|); }
    }
    seq(|pi|, x requires 0 <= x < |pi| => Xor(pi[x], 1))
  }

  ghost predicate IsPower(s: seq<nat>, k: nat, p: seq<nat>)
    requires InRange(s, |s|)
  {
    |p| == |s| && forall x :: 0 <= x < |s| ==> p[x] == Iter(s, k, x)
  }

  /** The first pair of `composeinv` calls yields the cycle permutation and its inverse. */
  lemma FirstPowers(pi: seq<nat>, p: seq<nat>, q: seq<nat>)
    requires IsPairedPerm(pi)
    requires p == ComposeInv(TwinThen(pi), ThenTwin(pi)) && q == ComposeInv(ThenTwin(pi), TwinThen(pi))
    ensures IsPower(Sigma(pi), 1, p) && AreInverse(p, q)
  {
    var a, b, s, inv := TwinThen(pi), ThenTwin(pi), Sigma(pi), InverseOf(pi);
    TwoSidedPerms(pi);
    ComposeInvAt(a, b);
    ComposeInvAt(b, a);
    QuotientsAreInverse(a, b, p, q);
    forall x | 0 <= x < |pi| ensures p[x] == Iter(s, 1, x) {
      SigmaAsQuotient(pi, x, p);
    }
  }

  lemma SigmaAsQuotient(pi: seq<nat>, x: nat, p: seq<nat>)
    requires IsPairedPerm(pi) && x < |pi| && |p| == |pi|
    requires forall i :: 0 <= i < |pi| ==> ThenTwin(pi)[i] < |p| && p[ThenTwin(pi)[i]] == TwinThen(pi)[i]
    ensures p[x] == Iter(Sigma(pi), 1, x)
  {
    var s, inv := Sigma(pi), InverseOf(pi);
    TwinRange(x, |pi|);
    TwinFacts(x);
    var i := inv[Twin(x)];
    TwinRange(i, |pi|);
    assert ThenTwin(pi)[i] == Twin(pi[i]) == x;
    assert s[x] == pi[Twin(i)] == TwinThen(pi)[i];
    assert Iter(s, 1, x) == s[Iter(s, 0, x)];
  }

  lemma TwoSidedPerms(pi: seq<nat>)
    requires IsPairedPerm(pi)
    ensures IsPerm(TwinThen(pi)) && IsPerm(ThenTwin(pi))
  {
    forall x, y | 0 <= x < y < |pi| ensures TwinThen(pi)[x] != TwinThen(pi)[y] && ThenTwin(pi)[x] != ThenTwin(pi)[y] {
      TwinDistinct(pi, x, y);
    }
  }

  lemma TwinDistinct(pi: seq<nat>, x: nat, y: nat)
    requires IsPairedPerm(pi) && x < y < |pi|
    ensures TwinThen(pi)[x] != TwinThen(pi)[y] && ThenTwin(pi)[x] != ThenTwin(pi)[y]
  {
    TwinRange(x, |pi|); TwinRange(y, |pi|);
    TwinFacts(x); TwinFacts(y); TwinFacts(pi[x]); TwinFacts(pi[y]);
    assert pi[x] != pi[y];
    PermDistinct(pi, Twin(x), Twin(y));
  }

  lemma PermDistinct(p: seq<nat>, x: nat, y: nat)
    requires IsPerm(p) && x < |p| && y < |p| && x != y
    ensures p[x] != p[y]
  {
    if x < y { assert p[x] != p[y]; } else { assert p[y] != p[x]; }
  }

  lemma QuotientsAreInverse(a: seq<nat>, b: seq<nat>, p: seq<nat>, q: seq<nat>)
    requires IsPerm(a) && IsPerm(b) && |a| == |b| == |p| == |q|
    requires forall i :: 0 <= i < |a| ==> p[b[i]] == a[i] && q[a[i]] == b[i]
    ensures AreInverse(p, q)
  {
    forall y | 0 <= y < |p| ensures p[y] < |p| && q[p[y]] == y && q[y] < |q| && p[q[y]] == y {
      Surjective(a, y);
      Surjective(b, y);
      var i :| 0 <= i < |b| && b[i] == y;
      var j :| 0 <= j < |a| && a[j] == y;
      assert p[b[i]] == a[i] && q[a[i]] == b[i];
      assert q[a[j]] == b[j] && p[b[j]] == a[j];
    }
  }

  /** `composeinv(p, q), composeinv(q, p)` doubles the exponent when `q` is the inverse of `p`. */
  lemma Doubling(s: seq<nat>, k: nat, p: seq<nat>, q: seq<nat>)
    requires InRange(s, |s|) && IsPower(s, k, p) && AreInverse(p, q)
    ensures IsPower(s, k + k, ComposeInv(p, q)) && AreInverse(ComposeInv(p, q), ComposeInv(q, p))
  {
    ComposeInvView(p, q, p);
    ComposeInvView(q, p, q);
    hide ComposeInv;
    hide IsPerm;
    hide Iter;
    forall x | 0 <= x < |s| ensures Gather(p, p)[x] == Iter(s, k + k, x) {
      IterAdd(s, k, k, x);
    }
    SquaresAreInverse(p, q);
  }

  lemma SquaresAreInverse(p: seq<nat>, q: seq<nat>)
    requires AreInverse(p, q)
    ensures AreInverse(Gather(p, p), Gather(q, q))
  {
  }

  ghost predicate CoversMin(s: seq<nat>, k: nat, c: seq<nat>)
    requires InRange(s, |s|) && k >= 1
  {
    |c| == |s| && forall x :: 0 <= x < |s| ==> c[x] == MinIter(s, k, x)
  }

  function PointwiseMin(a: seq<nat>, b: seq<nat>): (r: seq<nat>)
    requires |a| == |b|
    ensures |r| == |a|
  {
    seq(|a|, x requires 0 <= x < |a| => Min(a[x], b[x]))
  }

  lemma FirstMin(s: seq<nat>, p: seq<nat>)
    requires InRange(s, |s|) && IsPower(s, 1, p)
    ensures CoversMin(s, 2, PointwiseMin(Identity(|p|), p))
  {
    forall x | 0 <= x < |s| ensures Min(x, p[x]) == MinIter(s, 2, x) {
      assert MinIter(s, 1, x) == x;
      assert MinIter(s, 2, x) == Min(MinIter(s, 1, x), Iter(s, 1, x));
    }
  }

  /** One round of the loop lets `c` cover twice as many iterates. */
  lemma DoubleMin(s: seq<nat>, k: nat, c: seq<nat>, p: seq<nat>, q: seq<nat>)
    requires InRange(s, |s|) && k >= 1 && CoversMin(s, k, c) && IsPower(s, k, p) && AreInverse(p, q)
    ensures CoversMin(s, k + k, PointwiseMin(c, ComposeInv(c, q)))
  {
    ComposeInvView(c, q, p);
    forall x | 0 <= x < |s| ensures Min(c[x], c[p[x]]) == MinIter(s, k + k, x) {
      MinIterSplit(s, k, k, x);
    }
  }

  /** The doubling loop: `c[x]` ends as the least element of the whole cycle of `x`. */
  method CycleMinima(m: nat, pi: seq<nat>) returns (c: seq<nat>)
    requires m >= 2 && |pi| == Pow2(m) && IsPairedPerm(pi)
    ensures |c| == |pi| && forall x :: 0 <= x < |pi| ==> c[x] == CycleMin(pi, x)
    ensures forall x :: 0 <= x < |pi| ==> OnCycle(pi, x, c[x]) && forall k: nat :: c[x] <= Iter(Sigma(pi), k, x)
  {
    hide *;
    ghost var s := Sigma(pi);
    var p, q := TwinThen(pi), ThenTwin(pi);
    p, q := ComposeInv(p, q), ComposeInv(q, p);
    FirstPowers(pi, p, q);
    c := PointwiseMin(Identity(|p|), p);
    PowerLength(s, 1, p);
    FirstMin(s, p);
    Doubling(s, 1, p, q);
    p, q := ComposeInv(p, q), ComposeInv(q, p);
    Pow2Small();
    for i := 1 to m - 1
      invariant CoversMin(s, Pow2(i), c) && IsPower(s, Pow2(i), p) && AreInverse(p, q)
    {
      PowerLength(s, Pow2(i), p);
      CoverLength(s, Pow2(i), c);
      InverseLength(p, q);
      DoubleMin(s, Pow2(i), c, p, q);
      Doubling(s, Pow2(i), p, q);
      Pow2Double(i);
      var cp;
      cp, p, q := ComposeInv(c, q), ComposeInv(p, q), ComposeInv(q, p);
      c := PointwiseMin(c, cp);
    }
    Pow2Double(m - 1);
    CoversCycleMin(pi, Pow2(m - 1), c);
  }

  lemma PowerLength(s: seq<nat>, k: nat, p: seq<nat>)
    requires InRange(s, |s|) && IsPower(s, k, p)
    ensures |p| == |s|
  {
  }

  lemma CoverLength(s: seq<nat>, k: nat, c: seq<nat>)
    requires InRange(s, |s|) && k >= 1 && CoversMin(s, k, c)
    ensures |c| == |s|
  {
  }

  lemma InverseLength(p: seq<nat>, q: seq<nat>)
    requires AreInverse(p, q)
    ensures |p| == |q|
  {
  }

  lemma Pow2Small()
    ensures Pow2(0) == 1 && Pow2(1) == 2
  {
  }

  lemma Pow2Double(i: nat)
    ensures Pow2(i + 1) == Pow2(i) + Pow2(i) == 2 * Pow2(i)
  {
  }

  lemma CoversCycleMin(pi: seq<nat>, h: nat, c: seq<nat>)
    requires IsPairedPerm(pi) && h >= 1 && |pi| == 2 * h && CoversMin(Sigma(pi), h, c)
    ensures |c| == |pi| && forall x :: 0 <= x < |pi| ==> c[x] == CycleMin(pi, x)
    ensures forall x :: 0 <= x < |pi| ==> OnCycle(pi, x, c[x]) && forall k: nat :: c[x] <= Iter(Sigma(pi), k, x)
  {
    forall x | 0 <= x < |pi| ensures c[x] == CycleMin(pi, x) && OnCycle(pi, x, c[x]) && forall k: nat :: c[x] <= Iter(Sigma(pi), k, x) {
      assert CycleMin(pi, x) == MinIter(Sigma(pi), h, x);
      CycleMinIsLeast(pi, x);
    }
  }
}
