/** 32-bit words as naturals below 2^32, with the C operators on them. */
module Words {
  import Bits

  type Word = w: int | 0 <= w < 0x1_0000_0000

  lemma XorStep(a: nat, b: nat)
    ensures Bits.Xor(a, b) == (if a % 2 == b % 2 then 0 else 1) + 2 * Bits.Xor(a / 2, b / 2)
  {
    Bits.XorZero(a / 2);
    Bits.XorZero(b / 2);
  }

  lemma {:induction false} XorComm(a: nat, b: nat)
    ensures Bits.Xor(a, b) == Bits.Xor(b, a)
    decreases a + b
  {
    if a > 0 && b > 0 { XorComm(a / 2, b / 2); }
  }

  lemma XorParts(a: nat, b: nat)
    ensures Bits.Xor(a, b) / 2 == Bits.Xor(a / 2, b / 2) && Bits.Xor(a, b) % 2 == if a % 2 == b % 2 then 0 else 1
  {
    hide Bits.Xor;
    XorStep(a, b);
  }

  lemma {:induction false} XorAssoc(a: nat, b: nat, c: nat)
    ensures Bits.Xor(Bits.Xor(a, b), c) == Bits.Xor(a, Bits.Xor(b, c))
    decreases a + b + c
  {
    hide Bits.Xor;
    var x, y := Bits.Xor(a, b), Bits.Xor(b, c);
    XorParts(a, b);
    XorParts(b, c);
    XorParts(x, c);
    XorParts(a, y);
    if a + b + c > 0 {
      XorAssoc(a / 2, b / 2, c / 2);
    } else {
      XorStep(0, 0);
    }
  }

  lemma {:induction false} XorSelf(a: nat)
    ensures Bits.Xor(a, a) == 0
  {
    if a > 0 { XorSelf(a / 2); }
  }

  lemma {:induction false} XorRange(a: nat, b: nat, k: nat)
    requires a < Bits.Pow2(k) && b < Bits.Pow2(k)
    ensures Bits.Xor(a, b) < Bits.Pow2(k)
    decreases k
  {
    if k > 0 {
      XorStep(a, b);
      XorRange(a / 2, b / 2, k - 1);
    }
  }

  lemma {:induction false} OrRange(a: nat, b: nat, k: nat)
    requires a < Bits.Pow2(k) && b < Bits.Pow2(k)
    ensures Bits.Or(a, b) < Bits.Pow2(k)
    decreases k
  {
    if k > 0 && a > 0 && b > 0 {
      OrRange(a / 2, b / 2, k - 1);
    }
  }

  lemma Pow2Of4()
    ensures Bits.Pow2(4) == 16
  {
  }

  lemma Pow2Of32()
    ensures Bits.Pow2(32) == 0x1_0000_0000
  {
    hide Bits.Pow2;
    Pow2Of4();
    Bits.Pow2Add(16, 16);
    Bits.Pow2Add(8, 8);
    Bits.Pow2Add(4, 4);
  }

  function Xor(a: Word, b: Word): Word {
    Pow2Of32();
    XorRange(a, b, 32);
    Bits.Xor(a, b)
  }

  function Add(a: Word, b: Word): Word {
    (a + b) % 0x1_0000_0000
  }

  function Sub(a: Word, b: Word): Word {
    (a - b) % 0x1_0000_0000
  }

  function Shl(a: Word, n: nat): Word {
    (a * Bits.Pow2(n)) % 0x1_0000_0000
  }

  function Shr(a: Word, n: nat): Word {
    var p := Bits.Pow2(n);
    ShrRange(a, p);
    a / p
  }

  lemma ShrRange(a: nat, p: nat)
    requires p >= 1
    ensures 0 <= a / p <= a
  {
    var q := a / p;
    if q < 0 { Bits.MulLeft(p, q, -1); }
    Bits.MulLeft(q, 1, p);
  }

  /** `ROT(x, n)` */
  function Rot(x: Word, n: nat): Word
    requires n <= 32
  {
    Pow2Of32();
    OrRange(Shr(x, n), Shl(x, 32 - n), 32);
    Bits.Or(Shr(x, n), Shl(x, 32 - n))
  }

  lemma XorCancels(a: Word, b: Word)
    ensures Xor(Xor(a, b), b) == a && Xor(Xor(b, a), b) == a
  {
    XorAssoc(a, b, b);
    XorSelf(b);
    Bits.XorZero(a);
    XorComm(a, b);
  }

  lemma AddCancels(a: Word, b: Word)
    ensures Sub(Add(a, b), b) == a && Add(Sub(a, b), b) == a
  {
  }

  lemma XorLaws(a: Word, b: Word, c: Word)
    ensures Xor(a, b) == Xor(b, a) && Xor(Xor(a, b), c) == Xor(a, Xor(b, c)) && Xor(a, 0) == a && Xor(a, a) == 0
  {
    XorComm(a, b);
    XorAssoc(a, b, c);
    Bits.XorZero(a);
    XorSelf(a);
  }

  lemma RotNone(x: Word)
    ensures Rot(x, 0) == x
  {
    Pow2Of32();
    assert x * Bits.Pow2(32) == x * 0x1_0000_0000;
    assert (x * 0x1_0000_0000) % 0x1_0000_0000 == 0;
    assert x / Bits.Pow2(0) == x;
    OrZero(x);
  }

  lemma OrZero(x: nat)
    ensures Bits.Or(x, 0) == x
  {
  }
}
