/** Numbers as big-endian bytes: `uint_tobytes` of compiler/src/code_gen/serializer.py, `load_u32` and
    `u32_tobytes` of runtime/utils.c, `load_bytes` of runtime/interpreter.c, and the byte widths that both
    sides derive from a count. */
module BigEndian {
  import opened Options
  import Bits
  import opened ByteView
  import opened Words

  function Pow256(k: nat): (r: nat)
    ensures r >= 1
  {
    if k == 0 then 1 else 256 * Pow256(k - 1)
  }

  /** `n.to_bytes(width, byteorder='big')` for a number that fits. */
  function ToBytes(n: nat, width: nat): (bs: seq<Byte>)
    ensures |bs| == width
  {
    if width == 0 then [] else ToBytes(n / 256, width - 1) + [n % 256]
  }

  function FromBytes(bs: seq<Byte>): nat {
    if bs == [] then 0 else 256 * FromBytes(bs[..|bs| - 1]) + bs[|bs| - 1]
  }

  lemma {:induction false} FromToBytes(n: nat, width: nat)
    requires n < Pow256(width)
    ensures FromBytes(ToBytes(n, width)) == n
  {
    if width > 0 {
      FromToBytes(n / 256, width - 1);
      var bs := ToBytes(n, width);
      assert bs[..|bs| - 1] == ToBytes(n / 256, width - 1);
    }
  }

  lemma {:induction false} FromBytesRange(bs: seq<Byte>)
    ensures FromBytes(bs) < Pow256(|bs|)
  {
    if bs != [] { FromBytesRange(bs[..|bs| - 1]); }
  }

  // ----- the C side, one expression per width -----

  /** `load_u32`: any other width exits. */
  function LoadU32(bs: seq<Byte>): (r: Option<Word>) {
    match |bs|
    case 1 => Some(bs[0])
    case 2 => Some(bs[0] as int * 0x100 + bs[1])
    case 3 => Some(bs[0] as int * 0x1_0000 + bs[1] as int * 0x100 + bs[2])
    case 4 => Some(bs[0] as int * 0x100_0000 + bs[1] as int * 0x1_0000 + bs[2] as int * 0x100 + bs[3])
    case _ => None
  }

  /** `u32_tobytes`: each byte is the shifted number, truncated. */
  function U32ToBytes(num: Word, width: nat): (r: Option<seq<Byte>>) {
    match width
    case 1 => Some([num % 256])
    case 2 => Some([(num / 0x100) % 256, num % 256])
    case 3 => Some([(num / 0x1_0000) % 256, (num / 0x100) % 256, num % 256])
    case 4 => Some([(num / 0x100_0000) % 256, (num / 0x1_0000) % 256, (num / 0x100) % 256, num % 256])
    case _ => None
  }

  lemma FromBytesStep(bs: seq<Byte>)
    requires bs != []
    ensures FromBytes(bs) == 256 * FromBytes(bs[..|bs| - 1]) + bs[|bs| - 1]
  {
  }

  /** The C expressions read what the positional definition says, exactly for widths 1 to 4. */
  lemma LoadU32Is(bs: seq<Byte>)
    ensures LoadU32(bs) == if 1 <= |bs| <= 4 then Some(FromBytes(bs)) else None
  {
    hide FromBytes;
    if 1 <= |bs| <= 4 {
      FromBytesStep(bs);
      var b3 := bs[..|bs| - 1];
      if |b3| > 0 {
        FromBytesStep(b3);
        var b2 := b3[..|b3| - 1];
        if |b2| > 0 {
          FromBytesStep(b2);
          var b1 := b2[..|b2| - 1];
          if |b1| > 0 {
            FromBytesStep(b1);
            FromEmpty(b1[..|b1| - 1]);
          } else {
            FromEmpty(b1);
          }
        } else {
          FromEmpty(b2);
        }
      } else {
        FromEmpty(b3);
      }
    }
  }

  lemma FromEmpty(bs: seq<Byte>)
    requires |bs| == 0
    ensures FromBytes(bs) == 0
  {
  }

  lemma DivSteps(n: nat)
    ensures n / 0x1_0000 == (n / 0x100) / 0x100 && n / 0x100_0000 == (n / 0x1_0000) / 0x100
  {
  }

  lemma ToBytesStep(n: nat, width: nat)
    requires width > 0
    ensures ToBytes(n, width) == ToBytes(n / 256, width - 1) + [n % 256]
    ensures width == 1 ==> ToBytes(n, width) == [n % 256]
  {
  }

  /** The C writer and the Python writer agree, exactly for widths 1 to 4. */
  lemma U32ToBytesIs(num: Word, width: nat)
    ensures U32ToBytes(num, width) == if 1 <= width <= 4 then Some(ToBytes(num, width)) else None
  {
    hide ToBytes;
    var a, b, c := num / 0x100, num / 0x1_0000, num / 0x100_0000;
    DivSteps(num);
    ToBytesStep(num, 1); ToBytesStep(num, 2); ToBytesStep(num, 3); ToBytesStep(num, 4);
    ToBytesStep(a, 1); ToBytesStep(a, 2); ToBytesStep(a, 3);
    ToBytesStep(b, 1); ToBytesStep(b, 2);
    ToBytesStep(c, 1);
    assert ToBytes(num, 2) == [a % 256, num % 256] && ToBytes(a, 2) == [b % 256, a % 256];
    assert ToBytes(num, 3) == [b % 256, a % 256, num % 256];
    assert ToBytes(num, 4) == [c % 256, b % 256, a % 256, num % 256];
  }

  // ----- widths -----

  /** The least k with `n <= 2^k`: the exact `ceil(log2(n))`. */
  function CeilLog2(n: nat): (k: nat)
    ensures n <= Bits.Pow2(k) && (k > 0 ==> Bits.Pow2(k - 1) < n)
  {
    if n <= 1 then 0 else CeilLog2((n + 1) / 2) + 1
  }

  /** `((ceil(log2(n)) + 7) & -8) // 8` in Python and `((u32) ceilf(log2f(n)) + 7) / 8` in C. */
  function WidthOf(n: nat): nat {
    (CeilLog2(n) + 7) / 8
  }

  lemma {:induction false} Pow2Of8Times(k: nat)
    ensures Bits.Pow2(8 * k) == Pow256(k)
  {
    if k > 0 {
      Pow2Of8Times(k - 1);
      Pow2Of8();
      Bits.Pow2Add(8, 8 * (k - 1));
    }
  }

  /** Every index below a count fits the width derived from the count. */
  lemma WidthFits(n: nat)
    ensures n <= Pow256(WidthOf(n))
    ensures n >= 2 ==> WidthOf(n) >= 1
    ensures n <= 0x100_0000 ==> WidthOf(n) <= 3
  {
    hide Pow256;
    var k := CeilLog2(n);
    var w := WidthOf(n);
    Pow2Of8Times(w);
    Bits.Pow2Monotone(k, 8 * w);
    Pow2Of8Times(3);
    Pow256Of3();
    if n <= 0x100_0000 && k > 24 {
      Bits.Pow2Monotone(24, k - 1);
      assert false;
    }
  }

  lemma Pow256Of3()
    ensures Pow256(3) == 0x100_0000 && Pow256(4) == 0x1_0000_0000 && Pow256(1) == 256
  {
    assert Pow256(2) == 0x1_0000;
  }
}
