/** Cycles of the permutation `pi X pi^-1 X`, where X swaps the two positions of every pair.
    This is the mathematics behind the control-bit formulas: cycles have at most n/2 elements,
    twins lie in different cycles, and the minima of twin cycles are twins. */
module Cycles {
  import opened Bits
  import opened Permutations

  /** `x ^ 1` */
  function Twin(x: nat): nat {
    if x % 2 == 0 then x + 1 else x - 1
  }

  lemma TwinFacts(x: nat)
    ensures Twin(Twin(x)) == x && Twin(x) != x && Twin(x) / 2 == x / 2 && Twin(x) % 2 == 1 - x % 2
  {
  }

  lemma TwinRange(x: nat, n: nat)
    requires x < n && n % 2 == 0
    ensures Twin(x) < n
  {
  }

  // ----- iterates -----

  ghost function Iter(s: seq<nat>, k: nat, x: nat): (r: nat)
    requires InRange(s, |s|) && x < |s|
    ensures r < |s|
  {
    if k == 0 then x else s[Iter(s, k - 1, x)]
  }

  lemma {:induction false} IterAdd(s: seq<nat>, a: nat, b: nat, x: nat)
    requires InRange(s, |s|) && x < |s|
    ensures Iter(s, a + b, x) == Iter(s, a, Iter(s, b, x))
  {
    if a > 0 { IterAdd(s, a - 1, b, x); }
  }

  lemma IterFirst(s: seq<nat>, k: nat, x: nat)
    requires InRange(s, |s|) && x < |s|
    ensures Iter(s, k + 1, x) == Iter(s, k, s[x]) == s[Iter(s, k, x)]
  {
    IterAdd(s, k, 1, x);
    assert Iter(s, 1, x) == s[Iter(s, 0, x)];
  }

  lemma {:induction false} IterInjective(s: seq<nat>, k: nat, x: nat, y: nat)
    requires IsPerm(s) && x < |s| && y < |s|
    requires Iter(s, k, x) == Iter(s, k, y)
    ensures x == y
  {
    if k > 0 { IterInjective(s, k - 1, x, y); }
  }

  lemma {:induction false} IterMultiple(s: seq<nat>, p: nat, t: nat, x: nat)
    requires InRange(s, |s|) && x < |s| && Iter(s, p, x) == x
    ensures Iter(s, t * p, x) == x
  {
    if t > 0 {
      IterMultiple(s, p, t - 1, x);
      IterAdd(s, p, (t - 1) * p, x);
      assert p + (t - 1) * p == t * p;
    }
  }

  /** The least of the first `k` iterates of `x`. */
  ghost function MinIter(s: seq<nat>, k: nat, x: nat): nat
    requires InRange(s, |s|) && x < |s| && k >= 1
  {
    if k == 1 then x else Min(MinIter(s, k - 1, x), Iter(s, k - 1, x))
  }

  function Min(a: nat, b: nat): nat {
    if b < a then b else a
  }

  lemma {:induction false} MinIterSplit(s: seq<nat>, a: nat, b: nat, x: nat)
    requires InRange(s, |s|) && x < |s| && a >= 1 && b >= 1
    ensures MinIter(s, a + b, x) == Min(MinIter(s, a, x), MinIter(s, b, Iter(s, a, x)))
    decreases b
  {
    if b > 1 {
      MinIterSplit(s, a, b - 1, x);
      IterAdd(s, b - 1, a, x);
    }
  }

  lemma {:induction false} MinIterIsLeast(s: seq<nat>, k: nat, x: nat)
    requires InRange(s, |s|) && x < |s| && k >= 1
    ensures exists t :: 0 <= t < k && Iter(s, t, x) == MinIter(s, k, x)
    ensures forall t :: 0 <= t < k ==> MinIter(s, k, x) <= Iter(s, t, x)
  {
    if k == 1 {
      assert Iter(s, 0, x) == x;
    } else {
      MinIterIsLeast(s, k - 1, x);
      var t :| 0 <= t < k - 1 && Iter(s, t, x) == MinIter(s, k - 1, x);
      var u := if Iter(s, k - 1, x) < MinIter(s, k - 1, x) then k - 1 else t;
      assert Iter(s, u, x) == MinIter(s, k, x);
    }
  }

  // ----- the permutation pi X pi^-1 X -----

  ghost function InverseOf(p: seq<nat>): (q: seq<nat>)
    requires IsPerm(p)
    ensures AreInverse(p, q)
  {
    var q := seq(|p|, y requires 0 <= y < |p| => Surjective(p, y); var i: nat :| i < |p| && p[i] == y; i);
    assert forall i :: 0 <= i < |p| ==> q[p[i]] == i by {
      forall i | 0 <= i < |p| ensures q[p[i]] == i { assert p[q[p[i]]] == p[i]; }
    }
    q
  }

  ghost predicate IsPairedPerm(pi: seq<nat>) {
    IsPerm(pi) && |pi| % 2 == 0
  }

  ghost function Sigma(pi: seq<nat>): (s: seq<nat>)
    requires IsPairedPerm(pi)
    ensures |s| == |pi| && InRange(s, |s|)
  {
    var inv := InverseOf(pi);
    seq(|pi|, x requires 0 <= x < |pi| => TwinRange(x, |pi|); TwinRange(inv[Twin(x)], |pi|); pi[Twin(inv[Twin(x)])])
  }

  lemma SigmaIsPerm(pi: seq<nat>)
    requires IsPairedPerm(pi)
    ensures IsPerm(Sigma(pi))
  {
    var s, inv := Sigma(pi), InverseOf(pi);
    forall x, y | 0 <= x < y < |s| ensures s[x] != s[y] {
      TwinRange(x, |pi|); TwinRange(y, |pi|);
      TwinFacts(x); TwinFacts(y);
      var a, b := inv[Twin(x)], inv[Twin(y)];
      assert pi[a] == Twin(x) && pi[b] == Twin(y);
      TwinRange(a, |pi|); TwinRange(b, |pi|);
      TwinFacts(a); TwinFacts(b);
      assert inv[pi[Twin(a)]] == Twin(a) && inv[pi[Twin(b)]] == Twin(b);
    }
  }

  /** Conjugating by X inverts the permutation. */
  lemma SigmaTwin(pi: seq<nat>, y: nat)
    requires IsPairedPerm(pi) && y < |pi|
    ensures Twin(Sigma(pi)[y]) < |pi| && Twin(y) < |pi|
    ensures Sigma(pi)[Twin(Sigma(pi)[y])] == Twin(y)
  {
    var s, inv := Sigma(pi), InverseOf(pi);
    TwinRange(y, |pi|);
    var a := inv[Twin(y)];
    TwinRange(a, |pi|);
    TwinFacts(a);
    TwinRange(s[y], |pi|);
    TwinFacts(s[y]);
    assert s[y] == pi[Twin(a)];
    assert inv[s[y]] == Twin(a);
  }

  lemma {:induction false} TwinIter(pi: seq<nat>, k: nat, y: nat)
    requires IsPairedPerm(pi) && y < |pi|
    ensures Twin(Iter(Sigma(pi), k, y)) < |pi|
    ensures Iter(Sigma(pi), k, Twin(Iter(Sigma(pi), k, y))) == Twin(y)
  {
    hide Twin;
    hide Sigma;
    var s := Sigma(pi);
    TwinRange(Iter(s, k, y), |pi|);
    if k > 0 {
      var z := Iter(s, k - 1, y);
      TwinIter(pi, k - 1, y);
      SigmaTwin(pi, z);
      IterFirst(s, k - 1, y);
      hide Iter;
      IterFirst(s, k - 1, Twin(s[z]));
    }
  }

  /** A position and its twin are never on the same cycle. */
  lemma TwinOffCycle(pi: seq<nat>, k: nat, x: nat)
    requires IsPairedPerm(pi) && x < |pi|
    ensures Iter(Sigma(pi), k, x) != Twin(x)
  {
    hide *;
    var s, j := Sigma(pi), k / 2;
    if Iter(s, k, x) == Twin(x) {
      var y := Iter(s, j, x);
      SigmaIsPerm(pi);
      TwinIter(pi, j, x);
      TwinFacts(y);
      if k == 2 * j {
        IterAdd(s, j, j, x);
        IterInjective(s, j, y, Twin(y));
      } else {
        assert k == j + (j + 1);
        IterAdd(s, j, j + 1, x);
        IterFirst(s, j, x);
        IterInjective(s, j, s[y], Twin(y));
        SigmaMoves(pi, y);
      }
      assert false;
    }
  }

  lemma SigmaMoves(pi: seq<nat>, y: nat)
    requires IsPairedPerm(pi) && y < |pi|
    ensures Sigma(pi)[y] != Twin(y)
  {
    var inv := InverseOf(pi);
    TwinRange(y, |pi|);
    var a := inv[Twin(y)];
    TwinRange(a, |pi|);
    TwinFacts(a);
    assert Sigma(pi)[y] == pi[Twin(a)];
    assert inv[pi[Twin(a)]] == Twin(a);
  }

  ghost function Interleaved(s: seq<nat>, x: nat, len: nat): (t: seq<nat>)
    requires InRange(s, |s|) && x < |s|
    ensures |t| == 2 * len
  {
    seq(2 * len, i requires 0 <= i < 2 * len => if i % 2 == 0 then Iter(s, i / 2, x) else Twin(Iter(s, i / 2, x)))
  }

  /** Every cycle has at most n/2 elements: with its twin cycle it fits in n positions. */
  lemma Period(pi: seq<nat>, x: nat) returns (p: nat)
    requires IsPairedPerm(pi) && x < |pi|
    ensures 1 <= p <= |pi| / 2 && Iter(Sigma(pi), p, x) == x
  {
    var s, h := Sigma(pi), |pi| / 2;
    var t := Interleaved(s, x, h + 1);
    forall i | 0 <= i < |t| ensures t[i] < |pi| { TwinRange(Iter(s, i / 2, x), |pi|); }
    Pigeonhole(t, |pi|);
    var a, b :| 0 <= a < b < |t| && t[a] == t[b];
    var i, j := a / 2, b / 2;
    assert i <= j <= h && (a % 2 == b % 2 ==> i < j);
    assert t[a] == if a % 2 == 0 then Iter(s, i, x) else Twin(Iter(s, i, x));
    assert t[b] == if b % 2 == 0 then Iter(s, j, x) else Twin(Iter(s, j, x));
    p := Collision(pi, x, i, j, a % 2 == 0, b % 2 == 0);
  }

  lemma Collision(pi: seq<nat>, x: nat, i: nat, j: nat, even: bool, even': bool) returns (p: nat)
    requires IsPairedPerm(pi) && x < |pi| && i <= j && (even == even' ==> i < j)
    requires (if even then Iter(Sigma(pi), i, x) else Twin(Iter(Sigma(pi), i, x)))
          == (if even' then Iter(Sigma(pi), j, x) else Twin(Iter(Sigma(pi), j, x)))
    ensures 1 <= p <= j && Iter(Sigma(pi), p, x) == x
  {
    hide *;
    var s := Sigma(pi);
    var y, z := Iter(s, i, x), Iter(s, j, x);
    p := j - i;
    IterAdd(s, p, i, x);
    IterAdd(s, i, p, x);
    TwinFacts(y);
    TwinFacts(z);
    TwinOffCycle(pi, p, y);
    SigmaIsPerm(pi);
    assert y == z;
    IterInjective(s, i, x, Iter(s, p, x));
  }

  /** From any point of a cycle one gets back to where one started. */
  lemma OrbitBack(pi: seq<nat>, t: nat, z: nat) returns (u: nat)
    requires IsPairedPerm(pi) && z < |pi|
    ensures Iter(Sigma(pi), u, Iter(Sigma(pi), t, z)) == z
  {
    hide *;
    var s := Sigma(pi);
    var q := Period(pi, z);
    IterMultiple(s, q, t, z);
    MulLeft(t, 1, q);
    u := t * q - t;
    IterAdd(s, u, t, z);
  }

  ghost function CycleMin(pi: seq<nat>, x: nat): nat
    requires IsPairedPerm(pi) && x < |pi|
  {
    MinIter(Sigma(pi), |pi| / 2, x)
  }

  ghost predicate OnCycle(pi: seq<nat>, x: nat, y: nat)
    requires IsPairedPerm(pi) && x < |pi|
  {
    exists t: nat :: Iter(Sigma(pi), t, x) == y
  }

  lemma {:induction false} IterReduce(s: seq<nat>, p: nat, k: nat, x: nat) returns (r: nat)
    requires InRange(s, |s|) && x < |s| && p >= 1 && Iter(s, p, x) == x
    ensures r < p && Iter(s, r, x) == Iter(s, k, x)
  {
    if k < p {
      r := k;
    } else {
      r := IterReduce(s, p, k - p, x);
      IterAdd(s, k - p, p, x);
    }
  }

  /** The minimum over n/2 iterates is the minimum of the whole cycle. */
  lemma CycleMinIsLeast(pi: seq<nat>, x: nat)
    requires IsPairedPerm(pi) && x < |pi|
    ensures OnCycle(pi, x, CycleMin(pi, x)) && CycleMin(pi, x) < |pi|
    ensures forall k: nat :: CycleMin(pi, x) <= Iter(Sigma(pi), k, x)
  {
    var s := Sigma(pi);
    MinIterIsLeast(s, |pi| / 2, x);
    var p := Period(pi, x);
    forall k: nat ensures CycleMin(pi, x) <= Iter(s, k, x) {
      var r := IterReduce(s, p, k, x);
    }
  }

  lemma CycleMinUnique(pi: seq<nat>, x: nat, v: nat)
    requires IsPairedPerm(pi) && x < |pi|
    requires OnCycle(pi, x, v) && forall k: nat :: v <= Iter(Sigma(pi), k, x)
    ensures v == CycleMin(pi, x)
  {
    CycleMinIsLeast(pi, x);
    var t: nat :| Iter(Sigma(pi), t, x) == v;
    var u: nat :| Iter(Sigma(pi), u, x) == CycleMin(pi, x);
  }

  lemma OnCycleTrans(pi: seq<nat>, x: nat, y: nat, z: nat)
    requires IsPairedPerm(pi) && x < |pi| && y < |pi|
    requires OnCycle(pi, x, y) && OnCycle(pi, y, z)
    ensures OnCycle(pi, x, z)
  {
    var s := Sigma(pi);
    var t: nat :| Iter(s, t, x) == y;
    var u: nat :| Iter(s, u, y) == z;
    IterAdd(s, u, t, x);
    assert Iter(s, u + t, x) == z;
  }

  lemma OnCycleSym(pi: seq<nat>, x: nat, y: nat)
    requires IsPairedPerm(pi) && x < |pi| && OnCycle(pi, x, y)
    ensures y < |pi| && OnCycle(pi, y, x)
  {
    var t: nat :| Iter(Sigma(pi), t, x) == y;
    var u := OrbitBack(pi, t, x);
  }

  lemma OnCycleTwin(pi: seq<nat>, x: nat, y: nat)
    requires IsPairedPerm(pi) && x < |pi| && OnCycle(pi, x, y)
    ensures Twin(x) < |pi| && Twin(y) < |pi| && OnCycle(pi, Twin(x), Twin(y))
  {
    var t: nat :| Iter(Sigma(pi), t, x) == y;
    TwinIter(pi, t, x);
    assert OnCycle(pi, Twin(y), Twin(x));
    OnCycleSym(pi, Twin(y), Twin(x));
  }

  lemma CycleMinBelow(pi: seq<nat>, x: nat, y: nat)
    requires IsPairedPerm(pi) && x < |pi| && OnCycle(pi, x, y)
    ensures CycleMin(pi, x) <= y
  {
    CycleMinIsLeast(pi, x);
    var t: nat :| Iter(Sigma(pi), t, x) == y;
  }

  /** The cycle minimum is constant along a cycle. */
  lemma CycleMinConstant(pi: seq<nat>, x: nat, y: nat)
    requires IsPairedPerm(pi) && x < |pi| && OnCycle(pi, x, y)
    ensures y < |pi| && CycleMin(pi, y) == CycleMin(pi, x)
  {
    OnCycleSym(pi, x, y);
    CycleMinIsLeast(pi, x);
    CycleMinIsLeast(pi, y);
    OnCycleTrans(pi, x, y, CycleMin(pi, y));
    OnCycleTrans(pi, y, x, CycleMin(pi, x));
    CycleMinBelow(pi, x, CycleMin(pi, y));
    CycleMinBelow(pi, y, CycleMin(pi, x));
  }

  /** The minima of twin cycles are twins. */
  lemma CycleMinTwin(pi: seq<nat>, x: nat)
    requires IsPairedPerm(pi) && x < |pi|
    ensures Twin(x) < |pi| && CycleMin(pi, Twin(x)) == Twin(CycleMin(pi, x))
  {
    var a := CycleMin(pi, x);
    CycleMinIsLeast(pi, x);
    OnCycleTwin(pi, x, a);
    forall k: nat ensures Twin(a) <= Iter(Sigma(pi), k, Twin(x)) {
      TwinBelow(pi, x, Iter(Sigma(pi), k, Twin(x)));
    }
    CycleMinUnique(pi, Twin(x), Twin(a));
  }

  lemma TwinBelow(pi: seq<nat>, x: nat, s: nat)
    requires IsPairedPerm(pi) && x < |pi| && Twin(x) < |pi| && OnCycle(pi, Twin(x), s)
    ensures Twin(CycleMin(pi, x)) <= s
  {
    var a := CycleMin(pi, x);
    CycleMinIsLeast(pi, x);
    OnCycleTwin(pi, Twin(x), s);
    TwinFacts(x);
    CycleMinBelow(pi, x, Twin(s));
    OnCycleSym(pi, x, a);
    OnCycleTrans(pi, a, x, Twin(s));
    var t: nat :| Iter(Sigma(pi), t, a) == Twin(s);
    TwinOffCycle(pi, t, a);
    TwinFacts(a);
    TwinFacts(s);
  }
}
