/** What the operators of runtime/sparkle/schwaemm/sparkle.c do to single bits, and what sets the steps of the permutation
    apart. */
module WordBits {
  import Bits
  import Rotations
  import opened Words
  import opened Sparkle

  /** Bit `i` of `x`. */
  function Bit(x: nat, i: nat): nat {
    x / Bits.Pow2(i) % 2
  }

  lemma BitStep(x: nat, i: nat)
    ensures Bit(x, 0) == x % 2 && Bit(x, i + 1) == Bit(x / 2, i)
  {
    Rotations.DivDiv(x, 2, Bits.Pow2(i));
  }

  /** A number is its bits. */
  lemma {:induction false} BitsDetermine(x: nat, y: nat, k: nat)
    requires x < Bits.Pow2(k) && y < Bits.Pow2(k) && forall i :: 0 <= i < k ==> Bit(x, i) == Bit(y, i)
    ensures x == y
  {
    if k > 0 {
      BitStep(x, 0);
      BitStep(y, 0);
      assert Bit(x, 0) == Bit(y, 0);
      forall i | 0 <= i < k - 1 ensures Bit(x / 2, i) == Bit(y / 2, i) {
        BitStep(x, i);
        BitStep(y, i);
        var j := i + 1;
        assert Bit(x, j) == Bit(y, j);
      }
      BitsDetermine(x / 2, y / 2, k - 1);
    }
  }

  /** Bit `i` of an exclusive or. */
  lemma XorBit(a: Word, b: Word, i: nat)
    ensures Bit(Xor(a, b), i) == if Bit(a, i) == Bit(b, i) then 0 else 1
  {
    hide Bit;
    XorBits(a, b, i);
  }

  lemma {:induction false} XorBits(a: nat, b: nat, i: nat)
    ensures Bit(Bits.Xor(a, b), i) == if Bit(a, i) == Bit(b, i) then 0 else 1
    decreases i
  {
    hide Bits.Xor; hide Bit;
    XorParts(a, b);
    var x := Bits.Xor(a, b);
    if i == 0 {
      BitStep(x, 0); BitStep(a, 0); BitStep(b, 0);
    } else {
      BitStep(x, i - 1); BitStep(a, i - 1); BitStep(b, i - 1);
      XorBits(a / 2, b / 2, i - 1);
    }
  }

  /** The low `n` bits move above the others. */
  lemma RotIs(x: Word, n: nat)
    requires n <= 32
    ensures Rot(x, n) == x / Bits.Pow2(n) + x % Bits.Pow2(n) * Bits.Pow2(32 - n)
  {
    hide *;
    var p, g := Bits.Pow2(n), Bits.Pow2(32 - n);
    var q, r := x / p, x % p;
    Pow2Of32();
    Bits.Pow2Add(n, 32 - n);
    Rotations.QuotientBound(x, p, g);
    ShlIs(x, p, g, q, r);
    Rotations.OrDisjoint(q, r, 32 - n);
    RotOr(x, n);
    ShiftsAre(x, n, 32 - n);
  }

  lemma RotOr(x: Word, n: nat)
    requires n <= 32
    ensures Rot(x, n) == Bits.Or(Shr(x, n), Shl(x, 32 - n))
  {
    hide Bits.Or; hide Shr; hide Shl;
  }

  lemma ShiftsAre(x: Word, n: nat, m: nat)
    ensures Shr(x, n) == x / Bits.Pow2(n) && Shl(x, m) == x * Bits.Pow2(m) % 0x1_0000_0000
  {
    hide Bits.Pow2;
  }

  lemma ShlIs(x: nat, p: nat, g: nat, q: nat, r: nat)
    requires p >= 1 && g >= 1 && p * g == 0x1_0000_0000 && q == x / p && r == x % p
    ensures x * g % 0x1_0000_0000 == r * g && r * g >= 0
  {
    assert x == p * q + r;
    Bits.MulDist(g, p * q, r);
    Bits.MulAssoc(g, p, q);
    Bits.MulLeft(g, r + 1, p);
    Bits.MulDist(g, r, 1);
    Bits.DivModUnique(x * g, p * g, q, r * g);
  }

  lemma HighBit(q: nat, r: nat, k: nat, i: nat)
    requires q < Bits.Pow2(k)
    ensures r * Bits.Pow2(k) >= 0 && Bit(q + r * Bits.Pow2(k), k + i) == Bit(r, i)
  {
    hide *;
    var p := Bits.Pow2(k);
    Bits.DivModUnique(q + r * p, p, r, q);
    Bits.Pow2Add(k, i);
    Rotations.DivDiv(q + r * p, p, Bits.Pow2(i));
    BitIs(q + r * p, k + i);
    BitIs(r, i);
  }

  lemma BitIs(x: nat, i: nat)
    ensures Bits.Pow2(i) >= 1 && Bit(x, i) == x / Bits.Pow2(i) % 2
  {
  }

  lemma LowBit(q: nat, r: nat, k: nat, i: nat)
    requires i < k
    ensures r * Bits.Pow2(k) >= 0 && Bit(q + r * Bits.Pow2(k), i) == Bit(q, i)
  {
    hide *;
    var s, h := Bits.Pow2(i), Bits.Pow2(k - i);
    Bits.Pow2Add(i, k - i);
    EvenPower(k - i);
    LowBitArith(q, r, s, h);
    BitIs(q + r * Bits.Pow2(k), i);
    BitIs(q, i);
  }

  lemma EvenPower(k: nat)
    requires k >= 1
    ensures Bits.Pow2(k) == 2 * Bits.Pow2(k - 1)
  {
  }

  lemma LowBitArith(q: nat, r: nat, s: nat, h: nat)
    requires s >= 1 && h >= 2 && h % 2 == 0
    ensures (q + r * (s * h)) / s % 2 == q / s % 2
  {
    var d, e := q / s, q % s;
    Bits.MulAssoc(s, r, h);
    assert r * (s * h) == s * (r * h);
    Bits.MulDist(s, d, r * h);
    Bits.DivModUnique(q + r * (s * h), s, d + r * h, e);
    var t := h / 2;
    Bits.MulAssoc(2, r, t);
    assert r * h == 2 * (r * t);
    Bits.Halve(d + r * h, d / 2 + r * t, d % 2);
  }

  /** `ROT(x, n)` turns right: bit `i` goes to position `i - n`, around the word. */
  lemma RotBit(x: Word, n: nat, i: nat)
    requires n <= 32 && i < 32
    ensures Bit(Rot(x, n), (i + 32 - n) % 32) == Bit(x, i)
  {
    hide *;
    Pow2Of32();
    Bits.Pow2Add(n, 32 - n);
    RotIs(x, n);
    Rotations.QuotientBound(x, Bits.Pow2(n), Bits.Pow2(32 - n));
    Turned(x, n, i, x / Bits.Pow2(n), x % Bits.Pow2(n), Rot(x, n));
  }

  lemma Turned(x: nat, n: nat, i: nat, q: nat, r: nat, y: nat)
    requires n <= 32 && i < 32 && q < Bits.Pow2(32 - n) && r < Bits.Pow2(n) && x == Bits.Pow2(n) * q + r && y == q + r * Bits.Pow2(32 - n)
    ensures Bit(y, (i + 32 - n) % 32) == Bit(x, i)
  {
    hide *;
    assert x == r + q * Bits.Pow2(n);
    if i >= n {
      Bits.DivModUnique(i + 32 - n, 32, 1, i - n);
      LowBit(q, r, 32 - n, i - n);
      HighBit(r, q, n, i - n);
    } else {
      Bits.SmallMod(i + 32 - n, 32);
      HighBit(q, r, 32 - n, i);
      LowBit(r, q, n, i);
    }
  }

  /** `ELL` makes the halves l and h xor l of the halves h and l: the linear map of the SPARKLE specification. */
  lemma EllHalves(h: nat, l: nat)
    requires h < 0x1_0000 && l < 0x1_0000
    ensures Bits.Xor(h, l) < 0x1_0000 && Ell(h * 0x1_0000 + l) == l * 0x1_0000 + Bits.Xor(h, l)
  {
    hide *;
    Pow2Of16();
    XorRange(h, l, 16);
    var x: Word := h * 0x1_0000 + l;
    ShiftsAre(x, 16, 16);
    ShiftedHalf(h, l);
    XorHalves(h, l, l, 0, 16);
    Bits.XorZero(l);
    EllIs(x);
    var y := Xor(x, Shl(x, 16));
    XorIs(x, Shl(x, 16));
    RotIs(y, 16);
    Bits.DivModUnique(y, 0x1_0000, Bits.Xor(h, l), l);
  }

  lemma Pow2Of16()
    ensures Bits.Pow2(16) == 0x1_0000
  {
    hide Bits.Pow2;
    Pow2Of4();
    Bits.Pow2Add(8, 8);
    Bits.Pow2Add(4, 4);
  }

  lemma ShiftedHalf(h: nat, l: nat)
    requires h < 0x1_0000 && l < 0x1_0000
    ensures (h * 0x1_0000 + l) * 0x1_0000 % 0x1_0000_0000 == l * 0x1_0000
  {
    Bits.DivModUnique((h * 0x1_0000 + l) * 0x1_0000, 0x1_0000_0000, h, l * 0x1_0000);
  }

  lemma EllIs(x: Word)
    ensures Ell(x) == Rot(Xor(x, Shl(x, 16)), 16)
  {
    hide Rot; hide Xor; hide Shl;
  }

  lemma XorIs(a: Word, b: Word)
    ensures Xor(a, b) == Bits.Xor(a, b)
  {
    hide Bits.Xor;
  }

  /** Exclusive or of two numbers is that of their high and of their low parts. */
  lemma {:induction false} XorHalves(a: nat, b: nat, c: nat, d: nat, k: nat)
    requires b < Bits.Pow2(k) && d < Bits.Pow2(k)
    ensures a * Bits.Pow2(k) >= 0 && c * Bits.Pow2(k) >= 0 && Bits.Xor(a * Bits.Pow2(k) + b, c * Bits.Pow2(k) + d) == Bits.Xor(a, c) * Bits.Pow2(k) + Bits.Xor(b, d)
    decreases k
  {
    hide *;
    if k == 0 {
      PowerZero();
      Bits.XorZero(0);
      XorSelf(0);
    } else {
      EvenPower(k);
      var g := Bits.Pow2(k - 1);
      XorHalves(a, b / 2, c, d / 2, k - 1);
      DoubleHalves(a, b, g);
      DoubleHalves(c, d, g);
      XorParts(a * (2 * g) + b, c * (2 * g) + d);
      XorParts(b, d);
      FromHalves(Bits.Xor(a * (2 * g) + b, c * (2 * g) + d), Bits.Xor(a, c), Bits.Xor(b, d), g);
    }
  }

  lemma FromHalves(z: nat, x: nat, y: nat, g: nat)
    requires z / 2 == x * g + y / 2 && z % 2 == y % 2
    ensures z == x * (2 * g) + y
  {
    Bits.MulAssoc(2, x, g);
    assert x * (2 * g) == 2 * (x * g);
  }

  lemma PowerZero()
    ensures Bits.Pow2(0) == 1
  {
  }

  lemma DoubleHalves(a: nat, b: nat, g: nat)
    ensures a * (2 * g) >= 0 && a * g >= 0 && (a * (2 * g) + b) / 2 == a * g + b / 2 && (a * (2 * g) + b) % 2 == b % 2
  {
    Bits.MulAssoc(2, a, g);
    assert a * (2 * g) == 2 * (a * g);
    Bits.Halve(a * (2 * g) + b, a * g + b / 2, b % 2);
  }

  // ----- the steps differ -----

  /** The constants of two steps agree exactly when the 32-bit counters do. */
  lemma ConstantsDiffer(s: seq<Word>, i: nat, j: nat)
    requires |s| >= 4
    ensures AddConstants(s, i) == AddConstants(s, j) <==> Counter(i) == Counter(j)
  {
    hide Xor; hide Counter; hide RoundConstant;
    if AddConstants(s, i) == AddConstants(s, j) {
      assert AddConstants(s, i)[3] == Xor(s[3], Counter(i)) && AddConstants(s, j)[3] == Xor(s[3], Counter(j));
      XorCancels(Counter(i), s[3]);
      XorCancels(Counter(j), s[3]);
    }
    if Counter(i) == Counter(j) { SameConstant(i, j); }
  }

  lemma SameConstant(i: nat, j: nat)
    requires Counter(i) == Counter(j)
    ensures RoundConstant(i) == RoundConstant(j)
  {
    CounterMod8(i);
    CounterMod8(j);
    hide Counter;
  }

  lemma CounterMod8(i: nat)
    ensures Counter(i) % 8 == i % 8
  {
    var q, r := i / 0x1_0000_0000, i % 0x1_0000_0000;
    Bits.DivModUnique(i, 8, 0x2000_0000 * q + r / 8, r % 8);
  }

  /** No two steps below 2^32 are the same function anywhere: their results differ on every state. */
  lemma StepsDiffer(s: seq<Word>, b: nat, i: nat, j: nat)
    requires |s| == 2 * b <= 16 && b % 2 == 0 && b >= 2
    ensures Step(s, b, i) == Step(s, b, j) <==> Counter(i) == Counter(j)
  {
    hide *;
    StepSize(s, b);
    ConstantsDiffer(s, i, j);
    StepUndone(s, b, i);
    StepUndone(s, b, j);
    StepOf(s, b, i);
    StepOf(s, b, j);
  }

  lemma StepSize(s: seq<Word>, b: nat)
    requires |s| == 2 * b && b >= 2
    ensures |s| >= 4
  {
  }

  /** What a step makes of the state after the constants. */
  function Unmix(t: seq<Word>, b: nat): (r: seq<Word>)
    requires |t| == 2 * b <= 16 && b % 2 == 0 && b >= 2
    ensures |r| == |t|
  {
    MapPairs(LinearInv(t, b), b, true)
  }

  lemma StepUndone(s: seq<Word>, b: nat, i: nat)
    requires |s| == 2 * b <= 16 && b % 2 == 0 && b >= 2
    ensures |s| >= 4 && Unmix(Step(s, b, i), b) == AddConstants(s, i)
  {
    hide Linear; hide LinearInv; hide MapPairs; hide AddConstants;
    var t := AddConstants(s, i);
    LinearInverts(MapPairs(t, b, false), b);
    MapPairsInverts(t, b);
  }

  lemma StepOf(s: seq<Word>, b: nat, i: nat)
    requires |s| == 2 * b <= 16 && b % 2 == 0 && b >= 2
    ensures |s| >= 4 && Step(s, b, i) == Linear(MapPairs(AddConstants(s, i), b, false), b)
  {
    hide Linear; hide MapPairs; hide AddConstants;
  }
}
