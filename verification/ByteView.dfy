/** Words seen as bytes, the way `memcpy` between byte buffers and word arrays sees them
    (least significant byte first). */
module ByteView {
  import Bits
  import opened Words

  type Byte = b: int | 0 <= b < 256

  function ByteOf(w: Word, k: nat): Byte
    requires k < 4
  {
    if k == 0 then w % 256 else ByteOf(w / 256, k - 1)
  }

  function Pack(a: Byte, b: Byte, c: Byte, d: Byte): Word {
    a + 256 * b + 65536 * c + 16777216 * d
  }

  lemma ByteStep(lo: Byte, hi: nat, k: nat)
    requires k < 4 && lo + 256 * hi < 0x1_0000_0000
    ensures ByteOf(lo + 256 * hi, 0) == lo
    ensures k > 0 ==> ByteOf(lo + 256 * hi, k) == ByteOf(hi, k - 1)
  {
    assert (lo + 256 * hi) % 256 == lo && (lo + 256 * hi) / 256 == hi;
  }

  lemma PackBytes(a: Byte, b: Byte, c: Byte, d: Byte)
    ensures ByteOf(Pack(a, b, c, d), 0) == a && ByteOf(Pack(a, b, c, d), 1) == b
    ensures ByteOf(Pack(a, b, c, d), 2) == c && ByteOf(Pack(a, b, c, d), 3) == d
  {
    hide ByteOf;
    var y := c + 256 * d;
    var z := b + 256 * y;
    ByteStep(a, z, 1); ByteStep(a, z, 2); ByteStep(a, z, 3);
    ByteStep(b, y, 1); ByteStep(b, y, 2);
    ByteStep(c, d, 1);
    ByteStep(d, 0, 0);
  }

  lemma BytesPack(w: Word)
    ensures Pack(ByteOf(w, 0), ByteOf(w, 1), ByteOf(w, 2), ByteOf(w, 3)) == w
  {
    hide ByteOf;
    var z := w / 256;
    var y := z / 256;
    var d := y / 256;
    ByteStep(w % 256, z, 1); ByteStep(w % 256, z, 2); ByteStep(w % 256, z, 3);
    ByteStep(z % 256, y, 1); ByteStep(z % 256, y, 2);
    ByteStep(y % 256, d, 1);
    ByteStep(d, 0, 0);
  }

  function BytesOf(ws: seq<Word>): (bs: seq<Byte>)
    ensures |bs| == 4 * |ws|
  {
    seq(4 * |ws|, i requires 0 <= i < 4 * |ws| => ByteOf(ws[i / 4], i % 4))
  }

  function WordsOf(bs: seq<Byte>): (ws: seq<Word>)
    requires |bs| % 4 == 0
    ensures |ws| == |bs| / 4
  {
    seq(|bs| / 4, i requires 0 <= i < |bs| / 4 => Pack(bs[4 * i], bs[4 * i + 1], bs[4 * i + 2], bs[4 * i + 3]))
  }

  lemma BytesOfWordsOf(bs: seq<Byte>)
    requires |bs| % 4 == 0
    ensures BytesOf(WordsOf(bs)) == bs
  {
    hide Pack; hide ByteOf;
    var ws := WordsOf(bs);
    forall i | 0 <= i < |bs| ensures BytesOf(ws)[i] == bs[i] {
      var q := i / 4;
      PackBytes(bs[4 * q], bs[4 * q + 1], bs[4 * q + 2], bs[4 * q + 3]);
    }
  }

  lemma WordsOfBytesOf(ws: seq<Word>)
    ensures WordsOf(BytesOf(ws)) == ws
  {
    hide Pack; hide ByteOf;
    var bs := BytesOf(ws);
    forall i | 0 <= i < |ws| ensures WordsOf(bs)[i] == ws[i] {
      BytesPack(ws[i]);
      assert bs[4 * i] == ByteOf(ws[i], 0) && bs[4 * i + 1] == ByteOf(ws[i], 1);
      assert bs[4 * i + 2] == ByteOf(ws[i], 2) && bs[4 * i + 3] == ByteOf(ws[i], 3);
    }
  }

  // ----- exclusive or, by words and by bytes -----

  lemma Pow2Of8()
    ensures Bits.Pow2(8) == 256
  {
    Bits.Pow2Add(4, 4);
  }

  function XorByte(a: Byte, b: Byte): Byte {
    Pow2Of8();
    XorRange(a, b, 8);
    Bits.Xor(a, b)
  }

  function XorWords(a: seq<Word>, b: seq<Word>): (r: seq<Word>)
    requires |a| == |b|
    ensures |r| == |a|
  {
    seq(|a|, i requires 0 <= i < |a| => Xor(a[i], b[i]))
  }

  function XorBytes(a: seq<Byte>, b: seq<Byte>): (r: seq<Byte>)
    requires |a| == |b|
    ensures |r| == |a|
  {
    seq(|a|, i requires 0 <= i < |a| => XorByte(a[i], b[i]))
  }

  /** The low `k` bits, and the others. */
  function Low(x: nat, k: nat): nat
    decreases k
  {
    if k == 0 then 0 else x % 2 + 2 * Low(x / 2, k - 1)
  }

  function High(x: nat, k: nat): nat
    decreases k
  {
    if k == 0 then x else High(x / 2, k - 1)
  }

  /** Exclusive or acts on the low k bits and on the others separately. */
  lemma {:induction false} XorSplit(a: nat, b: nat, k: nat)
    ensures Low(Bits.Xor(a, b), k) == Bits.Xor(Low(a, k), Low(b, k))
    ensures High(Bits.Xor(a, b), k) == Bits.Xor(High(a, k), High(b, k))
    decreases k
  {
    if k > 0 {
      XorSplit(a / 2, b / 2, k - 1);
      XorParts(a, b);
      XorDouble(a % 2, Low(a / 2, k - 1), b % 2, Low(b / 2, k - 1));
    }
  }

  lemma XorDouble(r: nat, a: nat, s: nat, b: nat)
    requires r < 2 && s < 2
    ensures Bits.Xor(r + 2 * a, s + 2 * b) == (if r == s then 0 else 1) + 2 * Bits.Xor(a, b)
  {
    hide Bits.Xor;
    XorStep(r + 2 * a, s + 2 * b);
  }

  lemma {:induction false} LowHighIs(x: nat, k: nat)
    ensures Low(x, k) == x % Bits.Pow2(k) && High(x, k) == x / Bits.Pow2(k)
    decreases k
  {
    if k > 0 {
      LowHighIs(x / 2, k - 1);
      HalfMod(x, Bits.Pow2(k - 1));
    }
  }

  lemma HalfMod(x: nat, p: nat)
    requires p >= 1
    ensures x / (2 * p) == (x / 2) / p
    ensures x % (2 * p) == x % 2 + 2 * ((x / 2) % p)
    ensures (x % (2 * p)) / 2 == (x / 2) % p && (x % (2 * p)) % 2 == x % 2
  {
    var q, r := x / 2, x % 2;
    var d, e := q / p, q % p;
    assert q == p * d + e;
    Bits.MulDist(2, p * d, e);
    Bits.MulAssoc(2, p, d);
    assert x == (2 * p) * d + (2 * e + r);
    Bits.DivModUnique(x, 2 * p, d, 2 * e + r);
  }

  lemma {:induction false} XorByteOf(a: Word, b: Word, k: nat)
    requires k < 4
    ensures ByteOf(Xor(a, b), k) == XorByte(ByteOf(a, k), ByteOf(b, k))
  {
    Pow2Of8();
    XorSplit(a, b, 8);
    LowHighIs(a, 8);
    LowHighIs(b, 8);
    LowHighIs(Xor(a, b), 8);
    hide Low; hide High;
    if k > 0 { XorByteOf(a / 256, b / 256, k - 1); }
  }

  lemma BytesOfXor(a: seq<Word>, b: seq<Word>)
    requires |a| == |b|
    ensures BytesOf(XorWords(a, b)) == XorBytes(BytesOf(a), BytesOf(b))
  {
    hide ByteOf; hide Xor; hide XorByte;
    forall i | 0 <= i < 4 * |a| ensures BytesOf(XorWords(a, b))[i] == XorBytes(BytesOf(a), BytesOf(b))[i] {
      XorByteOf(a[i / 4], b[i / 4], i % 4);
    }
  }

  lemma XorByteCancels(a: Byte, b: Byte)
    ensures XorByte(XorByte(a, b), b) == a && XorByte(a, b) == XorByte(b, a) && XorByte(0, a) == a
  {
    XorAssoc(a, b, b);
    XorSelf(b);
    XorComm(a, b);
    Bits.XorZero(a);
  }

  lemma XorWordsCancels(a: seq<Word>, b: seq<Word>)
    requires |a| == |b|
    ensures XorWords(XorWords(a, b), b) == a
  {
    hide Xor;
    forall i | 0 <= i < |a| ensures XorWords(XorWords(a, b), b)[i] == a[i] { XorCancels(a[i], b[i]); }
  }
}
