/** Bitwise operators on Python integers, and the bit-index views that the routing code relies on.
    `&` takes a possibly negative left operand: Euclidean division by two is exactly the
    arithmetic shift of an infinite two's complement integer. */
module Bits {

  function Pow2(k: nat): (r: nat)
    ensures r >= 1
  {
    if k == 0 then 1 else 2 * Pow2(k - 1)
  }

  function And(a: int, b: nat): nat
    decreases b
  {
    if b == 0 then 0 else (if a % 2 == 1 && b % 2 == 1 then 1 else 0) + 2 * And(a / 2, b / 2)
  }

  function Or(a: nat, b: nat): nat
    decreases a + b
  {
    if a == 0 then b else if b == 0 then a
    else (if a % 2 == 1 || b % 2 == 1 then 1 else 0) + 2 * Or(a / 2, b / 2)
  }

  function Xor(a: nat, b: nat): nat
    decreases a + b
  {
    if a == 0 then b else if b == 0 then a
    else (if a % 2 == b % 2 then 0 else 1) + 2 * Xor(a / 2, b / 2)
  }

  /** The index `x` with bit `b` removed: the rank of `x` among the indices that agree with it on bit `b`. */
  function DelBit(b: nat, x: nat): nat {
    if b == 0 then x / 2 else 2 * DelBit(b - 1, x / 2) + x % 2
  }

  /** The index whose bit `b` is zero and whose other bits are those of `k`. */
  function InsBit(b: nat, k: nat): nat {
    if b == 0 then 2 * k else 2 * InsBit(b - 1, k / 2) + k % 2
  }

  /** `x` with bit `b` complemented. */
  function FlipBit(b: nat, x: nat): nat {
    if b == 0 then (if x % 2 == 0 then x + 1 else x - 1) else 2 * FlipBit(b - 1, x / 2) + x % 2
  }

  lemma {:induction false} XorZero(x: nat)
    ensures Xor(x, 0) == x && Xor(0, x) == x
  {
  }

  lemma {:induction false} XorOne(x: nat)
    ensures Xor(x, 1) == FlipBit(0, x)
  {
    if x != 0 { XorZero(x / 2); }
  }

  lemma {:induction false} XorPow2(x: nat, b: nat)
    ensures Xor(x, Pow2(b)) == FlipBit(b, x)
  {
    if b == 0 {
      XorOne(x);
    } else if x == 0 {
      XorPow2(0, b - 1);
      XorZero(Pow2(b - 1));
    } else {
      XorPow2(x / 2, b - 1);
    }
  }

  lemma FlipLowBit(x: nat)
    ensures FlipBit(0, x) == if x % 2 == 0 then x + 1 else x - 1
    ensures DelBit(0, x) == x / 2
  {
  }

  lemma FlipBitPair(b: nat, q: nat, r: nat)
    requires b > 0 && r < 2
    ensures FlipBit(b, 2 * q + r) == 2 * FlipBit(b - 1, q) + r
    ensures DelBit(b, 2 * q + r) == 2 * DelBit(b - 1, q) + r
  {
    Halve(2 * q + r, q, r);
  }

  /** Complementing a bit is a fixed-point-free involution that keeps every other bit. */
  lemma FlipBitFacts(b: nat, x: nat, m: nat)
    requires b < m && x < Pow2(m)
    ensures FlipBit(b, x) < Pow2(m) && FlipBit(b, x) != x
    ensures FlipBit(b, FlipBit(b, x)) == x
    ensures DelBit(b, FlipBit(b, x)) == DelBit(b, x)
    ensures DelBit(b, x) < Pow2(m - 1)
  {
    FlipBitRange(b, x, m);
    FlipBitTwice(b, x);
  }

  lemma {:induction false} FlipBitRange(b: nat, x: nat, m: nat)
    requires b < m && x < Pow2(m)
    ensures FlipBit(b, x) < Pow2(m)
    ensures DelBit(b, x) < Pow2(m - 1)
  {
    if b > 0 {
      FlipBitRange(b - 1, x / 2, m - 1);
    }
  }

  lemma {:induction false} FlipBitTwice(b: nat, x: nat)
    ensures FlipBit(b, x) != x
    ensures FlipBit(b, FlipBit(b, x)) == x
    ensures DelBit(b, FlipBit(b, x)) == DelBit(b, x)
  {
    hide FlipBit; hide DelBit;
    if b == 0 {
      FlipLowBit(x);
      FlipLowBit(FlipBit(0, x));
    } else {
      var q, r := x / 2, x % 2;
      FlipBitTwice(b - 1, q);
      FlipBitPair(b, q, r);
      FlipBitPair(b, FlipBit(b - 1, q), r);
      assert x == 2 * q + r;
    }
  }

  lemma MulDist(a: int, b: int, c: int)
    ensures a * (b + c) == a * b + a * c
  {
  }

  lemma MulAssoc(a: int, b: int, c: int)
    ensures a * (b * c) == (a * b) * c
  {
  }

  /** Every index is `InsBit` of its rank, up to bit `b`. */
  lemma {:induction false} InsDel(b: nat, k: nat, m: nat)
    requires b < m && k < Pow2(m - 1)
    ensures InsBit(b, k) < Pow2(m) && FlipBit(b, InsBit(b, k)) < Pow2(m)
    ensures DelBit(b, InsBit(b, k)) == k
    ensures FlipBit(b, InsBit(b, k)) == InsBit(b, k) + Pow2(b)
    ensures DelBit(b, FlipBit(b, InsBit(b, k))) == k
  {
    hide *;
    if b > 0 {
      Pow2Step(m - 1);
      InsDel(b - 1, k / 2, m - 1);
      var i := InsBit(b - 1, k / 2);
      InsStep(b, k);
      FlipBitPair(b, i, k % 2);
      FlipBitPair(b, FlipBit(b - 1, i), k % 2);
      Pow2Step(b);
      Pow2Step(m);
    } else {
      InsFirst(k);
      Pow2Step(m);
    }
  }

  lemma Pow2Step(k: nat)
    requires k > 0
    ensures Pow2(k) == 2 * Pow2(k - 1)
  {
  }

  lemma InsStep(b: nat, k: nat)
    requires b > 0
    ensures InsBit(b, k) == 2 * InsBit(b - 1, k / 2) + k % 2
  {
  }

  lemma DelIsStep(b: nat, x: nat)
    requires b > 0
    ensures DelBit(b, x) == 2 * DelBit(b - 1, x / 2) + x % 2
  {
  }

  lemma DelFirst(x: nat)
    ensures DelBit(0, x) == x / 2
  {
  }

  lemma InsFirst(k: nat)
    ensures InsBit(0, k) == 2 * k && FlipBit(0, 2 * k) == 2 * k + 1 && DelBit(0, 2 * k) == k && DelBit(0, 2 * k + 1) == k && Pow2(0) == 1
  {
  }

  lemma {:induction false} DelIns(b: nat, x: nat)
    ensures x == InsBit(b, DelBit(b, x)) || x == FlipBit(b, InsBit(b, DelBit(b, x)))
  {
    hide *;
    if b > 0 {
      DelIns(b - 1, x / 2);
      var d := DelBit(b - 1, x / 2);
      DelIsStep(b, x);
      Halve(2 * d + x % 2, d, x % 2);
      InsStep(b, DelBit(b, x));
      FlipBitPair(b, InsBit(b - 1, d), x % 2);
    } else {
      DelFirst(x);
      InsFirst(x / 2);
    }
  }

  lemma AndOnesStep(x: int, h: nat)
    requires h >= 1 && And(x / 2, h - 1) == (x / 2) % h
    ensures And(x, 2 * h - 1) == x % (2 * h)
  {
    hide And;
    var q, r := x / 2, x % 2;
    AndOdd(q, h - 1, r);
    ModDouble(q, r, h);
    assert 2 * h - 1 == 2 * (h - 1) + 1 && x == 2 * q + r;
  }

  lemma {:induction false} AndOnes(x: int, k: nat)
    ensures And(x, Pow2(k) - 1) == x % Pow2(k)
    decreases k
  {
    hide And;
    if k > 0 {
      AndOnes(x / 2, k - 1);
      AndOnesStep(x, Pow2(k - 1));
    } else {
      AndNone(x);
    }
  }

  lemma AndNone(x: int)
    ensures And(x, 0) == 0
  {
  }

  lemma AndStep(a: int, b: nat)
    ensures And(a, b) == (if a % 2 == 1 && b % 2 == 1 then 1 else 0) + 2 * And(a / 2, b / 2)
  {
    assert b == 0 ==> And(a / 2, b / 2) == 0;
  }

  lemma ModDouble(q: int, r: nat, h: nat)
    requires h >= 1 && r < 2
    ensures (2 * q + r) % (2 * h) == r + 2 * (q % h)
  {
    var d, e := q / h, q % h;
    assert q == h * d + e;
    assert 2 * q + r == (2 * h) * d + (2 * e + r);
    DivModUnique(2 * q + r, 2 * h, d, 2 * e + r);
  }

  lemma DivModUnique(x: int, d: nat, q: int, r: int)
    requires d >= 1 && x == d * q + r && 0 <= r < d
    ensures x / d == q && x % d == r
  {
    var e := q - x / d;
    assert d * e == d * q - d * (x / d);
    if e >= 1 { MulLeft(d, 1, e); }
    if e <= -1 { MulLeft(d, e, -1); }
  }

  lemma SmallMod(x: nat, d: nat)
    requires x < d
    ensures x % d == x && x / d == 0
  {
    DivModUnique(x, d, 0, x);
  }

  lemma MulLeft(d: nat, a: int, b: int)
    requires a <= b
    ensures d * a <= d * b
  {
  }

  /** The `m`-bit mask with every bit set but bit `b`. */
  function Mask(m: nat, b: nat): nat
    requires b < m
  {
    if b == 0 then 2 * (Pow2(m - 1) - 1) else 2 * Mask(m - 1, b - 1) + 1
  }

  lemma {:induction false} MaskIs(m: nat, b: nat)
    requires b < m
    ensures Mask(m, b) == Pow2(m) - 1 - Pow2(b)
  {
    if b > 0 { MaskIs(m - 1, b - 1); }
  }

  /** The submasks of the mask are the indices whose bit `b` is clear. */
  lemma {:induction false} SubmaskSelf(m: nat, b: nat, k: nat)
    requires b < m && k < Pow2(m - 1)
    ensures And(InsBit(b, k), Mask(m, b)) == InsBit(b, k)
  {
    if b == 0 {
      PrevSubmaskLow(m, k);
    } else {
      SubmaskSelf(m - 1, b - 1, k / 2);
      AndOdd(InsBit(b - 1, k / 2), Mask(m - 1, b - 1), k % 2);
    }
  }

  /** Stepping down through the submasks: masking the predecessor of the k-th one yields the (k-1)-th. */
  lemma {:induction false} PrevSubmask(m: nat, b: nat, k: nat)
    requires b < m && 1 <= k < Pow2(m - 1)
    ensures And(InsBit(b, k) - 1, Mask(m, b)) == InsBit(b, k - 1)
  {
    if b == 0 {
      PrevSubmaskLow(m, k);
    } else {
      var q := k / 2;
      if k == 2 * q + 1 {
        PrevSubmaskOdd(m, b, q);
      } else {
        PrevSubmask(m - 1, b - 1, q);
        PrevSubmaskEven(m, b, q);
        assert k == 2 * q;
      }
    }
  }

  lemma PrevSubmaskOdd(m: nat, b: nat, q: nat)
    requires 1 <= b < m && 2 * q + 1 < Pow2(m - 1)
    ensures And(InsBit(b, 2 * q + 1) - 1, Mask(m, b)) == InsBit(b, 2 * q)
  {
    hide *;
    Pow2Step(m - 1);
    MaskPair(m, b);
    SubmaskSelf(m - 1, b - 1, q);
    AndOdd(InsBit(b - 1, q), Mask(m - 1, b - 1), 0);
    InsBitPair(b, 2 * q, q, 0);
    InsBitPair(b, 2 * q + 1, q, 1);
  }

  lemma PrevSubmaskEven(m: nat, b: nat, q: nat)
    requires 1 <= b < m && 1 <= q && 2 * q < Pow2(m - 1)
    requires And(InsBit(b - 1, q) - 1, Mask(m - 1, b - 1)) == InsBit(b - 1, q - 1)
    ensures And(InsBit(b, 2 * q) - 1, Mask(m, b)) == InsBit(b, 2 * q - 1)
  {
    hide *;
    MaskPair(m, b);
    AndOdd(InsBit(b - 1, q) - 1, Mask(m - 1, b - 1), 1);
    InsBitPair(b, 2 * q, q, 0);
    InsBitPair(b, 2 * q - 1, q - 1, 1);
  }

  lemma MaskPair(m: nat, b: nat)
    requires 1 <= b < m
    ensures Mask(m, b) == 2 * Mask(m - 1, b - 1) + 1
  {
  }

  /** Masking -1 yields the mask, which is the last submask. */
  lemma {:induction false} LastSubmask(m: nat, b: nat)
    requires b < m
    ensures And(-1, Mask(m, b)) == Mask(m, b) == InsBit(b, Pow2(m - 1) - 1)
  {
    if b == 0 {
      AndEven(-1, Pow2(m - 1) - 1, 1);
      AndOnes(-1, m - 1);
      DivModUnique(-1, Pow2(m - 1), -1, Pow2(m - 1) - 1);
    } else {
      LastSubmask(m - 1, b - 1);
      AndOdd(-1, Mask(m - 1, b - 1), 1);
      InsBitPair(b, Pow2(m - 1) - 1, Pow2(m - 2) - 1, 1);
    }
  }

  lemma PrevSubmaskLow(m: nat, k: nat)
    requires 1 <= m && k < Pow2(m - 1)
    ensures And(2 * k, 2 * (Pow2(m - 1) - 1)) == 2 * k
    ensures k > 0 ==> And(2 * k - 1, 2 * (Pow2(m - 1) - 1)) == 2 * (k - 1)
  {
    hide *;
    var h := Pow2(m - 1);
    AndEven(k, h - 1, 0);
    AndOnes(k, m - 1);
    SmallMod(k, h);
    if k > 0 {
      AndEven(k - 1, h - 1, 1);
      AndOnes(k - 1, m - 1);
      SmallMod(k - 1, h);
    }
  }

  lemma AndEven(v: int, mask: nat, r: int)
    requires 0 <= r < 2
    ensures And(2 * v + r, 2 * mask) == 2 * And(v, mask)
  {
    AndStep(2 * v + r, 2 * mask);
    Halve(2 * v + r, v, r);
    Halve(2 * mask, mask, 0);
  }

  lemma AndOdd(v: int, mask: nat, r: int)
    requires 0 <= r < 2
    ensures And(2 * v + r, 2 * mask + 1) == 2 * And(v, mask) + r
  {
    AndStep(2 * v + r, 2 * mask + 1);
    Halve(2 * v + r, v, r);
    Halve(2 * mask + 1, mask, 1);
  }

  lemma InsBitPair(b: nat, k: nat, q: nat, r: nat)
    requires b > 0 && k == 2 * q + r && r < 2
    ensures InsBit(b, k) == 2 * InsBit(b - 1, q) + r
  {
    Halve(k, q, r);
  }

  lemma Halve(x: int, q: int, r: int)
    requires x == 2 * q + r && 0 <= r < 2
    ensures x / 2 == q && x % 2 == r
  {
  }

  lemma {:induction false} InsBitInjective(b: nat, j: nat, k: nat)
    requires InsBit(b, j) == InsBit(b, k)
    ensures j == k
  {
    if b > 0 {
      InsBitInjective(b - 1, j / 2, k / 2);
    }
  }

  lemma {:induction false} InsBitZero(b: nat)
    ensures InsBit(b, 0) == 0
  {
    if b > 0 { InsBitZero(b - 1); }
  }

  lemma {:induction false} Pow2Add(a: nat, b: nat)
    ensures Pow2(a + b) == Pow2(a) * Pow2(b)
  {
    if a > 0 { Pow2Add(a - 1, b); }
  }

  lemma {:induction false} Pow2Monotone(a: nat, b: nat)
    requires a <= b
    ensures Pow2(a) <= Pow2(b)
  {
    if a < b { Pow2Monotone(a, b - 1); }
  }

  lemma {:induction false} Pow2Bound(k: nat)
    ensures Pow2(k) > k
  {
    if k > 0 { Pow2Bound(k - 1); }
  }
}
