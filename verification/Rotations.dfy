/** Rotation of m-bit indices: `ROTR` and `Shuffle.make_index_ROTL` of
    compiler/src/universalization/routing.py. */
module Rotations {
  import opened Bits
  import opened Permutations
  import opened Cycles

  lemma DivDouble(q: int, r: nat, h: nat)
    requires h >= 1 && r < 2
    ensures (2 * q + r) / (2 * h) == q / h
    ensures (2 * q + r) % (2 * h) == r + 2 * (q % h)
  {
    ModDouble(q, r, h);
    var d, e := q / h, q % h;
    assert q == h * d + e;
    assert 2 * q + r == (2 * h) * d + (2 * e + r);
    DivModUnique(2 * q + r, 2 * h, d, 2 * e + r);
  }

  /** Flipping bit `b` changes neither the bits above it nor the bits below it. */
  lemma {:induction false} FlipBitLocal(b: nat, x: nat, lo: nat, hi: nat)
    requires lo <= b < hi
    ensures FlipBit(b, x) / Pow2(hi) == x / Pow2(hi)
    ensures FlipBit(b, x) % Pow2(lo) == x % Pow2(lo)
  {
    var q, r := x / 2, x % 2;
    assert x == 2 * q + r;
    DivDouble(q, r, Pow2(hi - 1));
    if b == 0 {
      DivDouble(q, 1 - r, Pow2(hi - 1));
    } else if lo == 0 {
      FlipBitLocal(b - 1, q, 0, hi - 1);
      FlipBitPair(b, q, r);
      DivDouble(FlipBit(b - 1, q), r, Pow2(hi - 1));
    } else {
      FlipBitLocal(b - 1, q, lo - 1, hi - 1);
      FlipBitPair(b, q, r);
      DivDouble(FlipBit(b - 1, q), r, Pow2(hi - 1));
      DivDouble(FlipBit(b - 1, q), r, Pow2(lo - 1));
      DivDouble(q, r, Pow2(lo - 1));
    }
  }

  /** `((word >> i) | (word << (m - i))) & mask` after `i %= m` */
  function ROTR(word: nat, m: nat, i: nat): nat
    requires m >= 1 && word < Pow2(m)
  {
    var s := i % m;
    And(Or(word / Pow2(s), word * Pow2(m - s)), Pow2(m) - 1)
  }

  lemma {:induction false} OrDisjoint(a: nat, b: nat, k: nat)
    requires a < Pow2(k)
    ensures Or(a, b * Pow2(k)) == a + b * Pow2(k)
  {
    hide Or;
    if k > 0 {
      var h := Pow2(k - 1);
      OrDisjoint(a / 2, b, k - 1);
      assert b * Pow2(k) == 2 * (b * h);
      OrStep(a, b * h);
    } else {
      OrZero(b);
    }
  }

  lemma OrZero(b: nat)
    ensures Or(0, b) == b
  {
  }

  lemma OrStep(a: nat, c: nat)
    ensures Or(a, 2 * c) == 2 * Or(a / 2, c) + a % 2
  {
    Halve(2 * c, c, 0);
    if a == 0 {
      assert Or(0, c) == c;
    } else if c == 0 {
      assert Or(a / 2, 0) == a / 2;
    }
  }

  /** Rotation by one: bit 0 becomes the top bit. */
  function RotateOne(m: nat): (r: seq<nat>)
    requires m >= 1
    ensures |r| == Pow2(m) && InRange(r, Pow2(m))
    ensures forall w :: 0 <= w < Pow2(m) ==> r[w] == w / 2 + (w % 2) * Pow2(m - 1)
  {
    var h := Pow2(m - 1);
    seq(Pow2(m), w requires 0 <= w < Pow2(m) => w / 2 + (w % 2) * h)
  }

  lemma RotateOneIsPerm(m: nat)
    requires m >= 1
    ensures IsPerm(RotateOne(m))
  {
    var r := RotateOne(m);
    forall v, w | 0 <= v < w < |r| ensures r[v] != r[w] {
      if v % 2 == w % 2 { assert v / 2 != w / 2; }
    }
  }

  lemma RotateIterStep(q: nat, r: nat, p: nat, g: nat, h: nat)
    requires p >= 1 && g >= 1 && r < p && h == p * g
    ensures (q + r * (2 * g)) / 2 + ((q + r * (2 * g)) % 2) * h == q / 2 + (r + (q % 2) * p) * g
    ensures (q * p + r) / (2 * p) == q / 2 && (q * p + r) % (2 * p) == r + (q % 2) * p
  {
    var q2, e := q / 2, q % 2;
    MulAssoc(2, r, g);
    assert r * (2 * g) == 2 * (r * g);
    Halve(q + r * (2 * g), q2 + r * g, e);
    MulDist(p, 2 * q2, e);
    assert q * p + r == 2 * (p * q2) + (p * e + r);
    MulAssoc(2, p, q2);
    if e == 0 {
      DivModUnique(q * p + r, 2 * p, q2, r);
    } else {
      MulDist(g, r, p);
      DivModUnique(q * p + r, 2 * p, q2, r + p);
    }
  }

  /** Rotating `s` times moves the low `s` bits above the others. */
  lemma {:induction false} RotateIter(m: nat, s: nat, w: nat)
    requires m >= 1 && s <= m && w < Pow2(m)
    ensures Iter(RotateOne(m), s, w) == w / Pow2(s) + (w % Pow2(s)) * Pow2(m - s)
  {
    hide *;
    if s == 0 {
      RotateNone(m, w);
    } else {
      RotateIter(m, s - 1, w);
      var p, g := Pow2(s - 1), Pow2(m - s);
      Pow2Add(s - 1, m - s);
      Pow2Double(s - 1);
      Pow2Double(m - s);
      RotateAgain(m, s - 1, w);
      RotateStep(w, p, g, Pow2(m - 1), Iter(RotateOne(m), s - 1, w));
    }
  }

  lemma RotateStep(w: nat, p: nat, g: nat, h: nat, v: nat)
    requires p >= 1 && g >= 1 && h == p * g && v == w / p + (w % p) * (2 * g)
    ensures v / 2 + (v % 2) * h == w / (2 * p) + (w % (2 * p)) * g
  {
    var q, r := w / p, w % p;
    assert w == p * q + r == q * p + r;
    RotateIterStep(q, r, p, g, h);
  }

  lemma RotateNone(m: nat, w: nat)
    requires m >= 1 && w < Pow2(m)
    ensures Iter(RotateOne(m), 0, w) == w / Pow2(0) + (w % Pow2(0)) * Pow2(m)
  {
    assert w % 1 == 0;
  }

  lemma RotateAgain(m: nat, s: nat, w: nat)
    requires m >= 1 && w < Pow2(m)
    ensures var v := Iter(RotateOne(m), s, w);
            Iter(RotateOne(m), s + 1, w) == v / 2 + (v % 2) * Pow2(m - 1)
  {
    hide Pow2;
  }

  lemma Pow2Double(i: nat)
    ensures Pow2(i + 1) == 2 * Pow2(i)
  {
  }

  /** The bit-level rotation is the iterated rotation. */
  lemma ROTRIsIter(word: nat, m: nat, s: nat)
    requires m >= 1 && word < Pow2(m) && s < m
    ensures ROTR(word, m, s) == Iter(RotateOne(m), s, word)
  {
    var p, g := Pow2(s), Pow2(m - s);
    var q := word / p;
    Pow2Add(s, m - s);
    SmallMod(s, m);
    QuotientBound(word, p, g);
    OrDisjoint(q, word, m - s);
    AndOnes(q + word * g, m);
    RotateIter(m, s, word);
    hide *;
    RotateModular(word, p, g);
  }

  lemma RotateModular(word: nat, p: nat, g: nat)
    requires p >= 1 && g >= 1 && word < p * g
    ensures (word / p + word * g) % (p * g) == word / p + (word % p) * g
  {
    var q, r := word / p, word % p;
    QuotientBound(word, p, g);
    MulDist(g, p * q, r);
    MulAssoc(g, p, q);
    MulLeft(g, r, p - 1);
    MulDist(g, p, -1);
    DivModUnique(q + word * g, p * g, q, q + r * g);
  }

  lemma QuotientBound(w: nat, p: nat, g: nat)
    requires p >= 1 && w < p * g
    ensures w / p < g
  {
    if w / p >= g { MulLeft(p, g, w / p); }
  }

  /** `make_index_ROTL(m, s)` */
  function IndexRotation(m: nat, s: nat): (r: seq<nat>)
    requires m >= 1 && s < m
    ensures |r| == Pow2(m) && InRange(r, Pow2(m))
    ensures forall w :: 0 <= w < Pow2(m) ==> r[w] == Iter(RotateOne(m), s, w)
  {
    assert forall w :: 0 <= w < Pow2(m) ==> ROTR(w, m, s) == Iter(RotateOne(m), s, w) by {
      forall w | 0 <= w < Pow2(m) ensures ROTR(w, m, s) == Iter(RotateOne(m), s, w) { ROTRIsIter(w, m, s); }
    }
    seq(Pow2(m), w requires 0 <= w < Pow2(m) => ROTR(w, m, s))
  }

  lemma IndexRotationIsPerm(m: nat, s: nat)
    requires m >= 1 && s < m
    ensures IsPerm(IndexRotation(m, s))
  {
    RotateOneIsPerm(m);
    var r := IndexRotation(m, s);
    forall v, w | 0 <= v < w < |r| ensures r[v] != r[w] {
      if r[v] == r[w] { IterInjective(RotateOne(m), s, v, w); }
    }
  }

  /** Rotations commute, and so does the inverse of one with another. */
  lemma RotationsCommute(m: nat, a: nat, b: nat, lift: seq<nat>)
    requires m >= 1 && a < m && b < m && AreInverse(IndexRotation(m, a), lift)
    ensures Gather(lift, IndexRotation(m, b)) == Gather(IndexRotation(m, b), lift)
  {
    var ra, rb := IndexRotation(m, a), IndexRotation(m, b);
    forall w | 0 <= w < Pow2(m) ensures lift[rb[w]] == rb[lift[w]] {
      var v := lift[w];
      IterAdd(RotateOne(m), a, b, v);
      IterAdd(RotateOne(m), b, a, v);
      assert ra[rb[v]] == rb[ra[v]] == rb[w];
    }
  }

  /** After rotating by `s`, the bits `s+w..` and the low `s` bits decide the high part of the index. */
  lemma RotateHigh(m: nat, s: nat, w: nat, y: nat)
    requires m >= 1 && s + w <= m && y < Pow2(m)
    ensures Iter(RotateOne(m), s, y) / Pow2(w) == y / Pow2(s + w) + (y % Pow2(s)) * Pow2(m - s - w)
  {
    RotateIter(m, s, y);
    Pow2Add(s, w);
    Pow2Add(w, m - s - w);
    RotateHighArith(y, Pow2(s), Pow2(w), Pow2(m - s - w));
  }

  lemma RotateHighArith(y: nat, p: nat, c: nat, g: nat)
    requires p >= 1 && c >= 1 && g >= 1
    ensures (y / p + (y % p) * (c * g)) / c == y / (p * c) + (y % p) * g
  {
    var q, r := y / p, y % p;
    var d, e := q / c, q % c;
    MulAssoc(c, r, g);
    MulDist(c, d, r * g);
    assert r * (c * g) == c * (r * g);
    DivModUnique(q + r * (c * g), c, d + r * g, e);
    DivDiv(y, p, c);
  }

  /** Indices that agree above `w` bits agree above more bits. */
  lemma DivCoarser(x: nat, y: nat, w: nat, l: nat)
    requires w <= l && x / Pow2(w) == y / Pow2(w)
    ensures x / Pow2(l) == y / Pow2(l)
  {
    Pow2Add(w, l - w);
    DivDiv(x, Pow2(w), Pow2(l - w));
    DivDiv(y, Pow2(w), Pow2(l - w));
  }

  lemma DivDiv(x: nat, a: nat, b: nat)
    requires a >= 1 && b >= 1
    ensures a * b >= 1 && x / (a * b) == (x / a) / b
  {
    var q, r := x / a, x % a;
    var d, e := q / b, q % b;
    MulDist(a, b * d, e);
    MulAssoc(a, b, d);
    MulLeft(a, e, b - 1);
    MulDist(a, b, -1);
    assert x == (a * b) * d + (a * e + r);
    MulPositive(a, b);
    DivModUnique(x, a * b, d, a * e + r);
  }

  lemma MulPositive(a: nat, b: nat)
    requires a >= 1 && b >= 1
    ensures a * b >= 1
  {
  }
}
