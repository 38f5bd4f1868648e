/** The authenticated encryption SCHWAEMM as functions of the state:
    runtime/sparkle/schwaemm/schwaemm.c, for its four instances. The main result is that decryption
    returns the message and accepts the tag, because both sides go through the same states. */
module Schwaemm {
  import opened Words
  import opened Sparkle
  import opened ByteView

  /** The four parameter sets selected by SCHWAEMM_INST. */
  datatype Instance = S128x128 | S256x128 | S192x192 | S256x256 {
    function RateWords(): (r: nat)
      ensures r % 2 == 0 && 4 <= r <= 8
    {
      match this case S128x128 => 4 case S256x128 => 8 case S192x192 => 6 case S256x256 => 8
    }
    function CapWords(): (r: nat)
      ensures 4 <= r <= 8 && r % 2 == 0
    {
      match this case S128x128 => 4 case S256x128 => 4 case S192x192 => 6 case S256x256 => 8
    }
    function Slim(): nat { if this == S256x256 then 8 else 7 }
    function Big(): nat { match this case S128x128 => 10 case S256x128 => 11 case S192x192 => 11 case S256x256 => 12 }
    function Rate(): nat { 4 * RateWords() }
    function Brans(): (r: nat)
      ensures 2 * r == RateWords() + CapWords() && (r == 4 || r == 6 || r == 8)
    {
      (RateWords() + CapWords()) / 2
    }
    /** `CAP_INDEX`: the index is reduced when the rate is larger than the capacity. */
    function CapIndex(j: nat): (r: nat)
      ensures j < RateWords() ==> r < CapWords()
    {
      if RateWords() > CapWords() then j % CapWords() else j
    }
    /** `CONST_A0`, `CONST_A1`, `CONST_M2`, `CONST_M3` for k = 0..3. */
    function Constant(k: nat): Word
      requires k < 4
    {
      (k + match this case S128x128 => 4 case S256x128 => 4 case S192x192 => 8 case S256x256 => 16) * 0x100_0000
    }
    predicate Fits(s: seq<Word>) { |s| == RateWords() + CapWords() }
  }

  // ----- rho and rate whitening -----

  /** The new word at `t` when the plaintext (or associated data) block `m` is absorbed. */
  function RhoWord(inst: Instance, s: seq<Word>, m: seq<Word>, t: nat): Word
    requires inst.Fits(s) && |m| == inst.RateWords() && t < |s|
  {
    var r, h := inst.RateWords(), inst.RateWords() / 2;
    if t < h then Xor(Xor(s[t + h], m[t]), s[r + t])
    else if t < r then Xor(s[t], Xor(Xor(s[t - h], m[t]), s[r + inst.CapIndex(t)]))
    else s[t]
  }

  /** The new word at `t` when the ciphertext block `c` is absorbed. */
  function RhoDecWord(inst: Instance, s: seq<Word>, c: seq<Word>, t: nat): Word
    requires inst.Fits(s) && |c| == inst.RateWords() && t < |s|
  {
    var r, h := inst.RateWords(), inst.RateWords() / 2;
    if t < h then Xor(s[t], Xor(Xor(s[t + h], c[t]), s[r + t]))
    else if t < r then Xor(Xor(s[t - h], c[t]), s[r + inst.CapIndex(t)])
    else s[t]
  }

  function Rho(inst: Instance, s: seq<Word>, m: seq<Word>): (r: seq<Word>)
    requires inst.Fits(s) && |m| == inst.RateWords()
    ensures inst.Fits(r)
  {
    seq(|s|, t requires 0 <= t < |s| => RhoWord(inst, s, m, t))
  }

  function RhoDec(inst: Instance, s: seq<Word>, c: seq<Word>): (r: seq<Word>)
    requires inst.Fits(s) && |c| == inst.RateWords()
    ensures inst.Fits(r)
  {
    seq(|s|, t requires 0 <= t < |s| => RhoDecWord(inst, s, c, t))
  }

  function RatePart(inst: Instance, s: seq<Word>): (r: seq<Word>)
    requires inst.Fits(s)
    ensures |r| == inst.RateWords()
  {
    s[..inst.RateWords()]
  }

  lemma XorSwap(a: Word, b: Word, m: Word, k: Word)
    ensures Xor(a, Xor(Xor(b, Xor(m, a)), k)) == Xor(Xor(b, m), k)
  {
    hide Xor;
    XorLaws(b, m, a);
    var y := Xor(b, m);
    XorLaws(y, a, k);
    XorLaws(a, Xor(y, a), k);
    XorLaws(a, y, a);
    XorLaws(y, a, a);
    XorCancels(y, a);
  }

  lemma XorRegroup(b: Word, a: Word, m: Word, k: Word)
    ensures Xor(Xor(a, Xor(m, b)), k) == Xor(b, Xor(Xor(a, m), k))
  {
    hide Xor;
    XorLaws(a, m, b);
    var y := Xor(a, m);
    XorLaws(b, y, k);
    XorLaws(y, b, k);
  }

  /** Absorbing the ciphertext of a block leads to the same state as absorbing the block. */
  lemma RhoAgrees(inst: Instance, s: seq<Word>, m: seq<Word>)
    requires inst.Fits(s) && |m| == inst.RateWords()
    ensures RhoDec(inst, s, XorWords(m, RatePart(inst, s))) == Rho(inst, s, m)
  {
    hide Xor;
    var r, h := inst.RateWords(), inst.RateWords() / 2;
    var c := XorWords(m, RatePart(inst, s));
    forall t | 0 <= t < |s| ensures RhoDecWord(inst, s, c, t) == RhoWord(inst, s, m, t) {
      if t < h {
        XorSwap(s[t], s[t + h], m[t], s[r + t]);
      } else if t < r {
        XorRegroup(s[t], s[t - h], m[t], s[r + inst.CapIndex(t)]);
      }
    }
  }

  // ----- blocks -----

  function Sponge(inst: Instance, s: seq<Word>, steps: nat): (r: seq<Word>)
    requires inst.Fits(s)
    ensures inst.Fits(r)
  {
    Permute(s, inst.Brans(), steps)
  }

  /** `state[STATE_WORDS-1] ^= constant` */
  function Domain(inst: Instance, s: seq<Word>, k: nat): (r: seq<Word>)
    requires inst.Fits(s) && k < 4
    ensures inst.Fits(r) && r[..inst.RateWords()] == s[..inst.RateWords()]
  {
    s[|s| - 1 := Xor(s[|s| - 1], inst.Constant(k))]
  }

  function Pad(inst: Instance, b: seq<Byte>): (r: seq<Byte>)
    requires |b| <= inst.Rate()
    ensures |r| == inst.Rate()
  {
    if |b| < inst.Rate() then b + [0x80] + seq(inst.Rate() - |b| - 1, _ => 0) else b
  }

  /** The last ciphertext block completed from the state, as `rho_whi_dec_last` does. */
  function Complete(inst: Instance, s: seq<Word>, c: seq<Byte>): (r: seq<Byte>)
    requires inst.Fits(s) && |c| <= inst.Rate()
    ensures |r| == inst.Rate()
  {
    var known := BytesOf(RatePart(inst, s));
    if |c| < inst.Rate() then c + [XorByte(known[|c|], 0x80)] + known[|c| + 1..] else c
  }

  datatype Out = Out(state: seq<Word>, bytes: seq<Byte>)

  /** One full block. */
  function EncBlock(inst: Instance, s: seq<Word>, b: seq<Byte>): (o: Out)
    requires inst.Fits(s) && |b| == inst.Rate()
    ensures inst.Fits(o.state) && |o.bytes| == |b|
  {
    var m := WordsOf(b);
    Out(Rho(inst, s, m), BytesOf(XorWords(m, RatePart(inst, s))))
  }

  function DecBlock(inst: Instance, s: seq<Word>, b: seq<Byte>): (o: Out)
    requires inst.Fits(s) && |b| == inst.Rate()
    ensures inst.Fits(o.state) && |o.bytes| == |b|
  {
    var c := WordsOf(b);
    Out(RhoDec(inst, s, c), BytesOf(XorWords(c, RatePart(inst, s))))
  }

  /** `ProcessPlainText` */
  function PlainText(inst: Instance, s: seq<Word>, msg: seq<Byte>): (o: Out)
    requires inst.Fits(s)
    ensures inst.Fits(o.state) && |o.bytes| == |msg|
    decreases |msg|
  {
    var r := inst.Rate();
    if |msg| > r then
      var o := EncBlock(inst, s, msg[..r]);
      var rest := PlainText(inst, Sponge(inst, o.state, inst.Slim()), msg[r..]);
      Out(rest.state, o.bytes + rest.bytes)
    else
      var o := EncBlock(inst, Domain(inst, s, if |msg| < r then 2 else 3), Pad(inst, msg));
      Out(Sponge(inst, o.state, inst.Big()), o.bytes[..|msg|])
  }

  /** `ProcessCipherText` */
  function CipherText(inst: Instance, s: seq<Word>, ct: seq<Byte>): (o: Out)
    requires inst.Fits(s)
    ensures inst.Fits(o.state) && |o.bytes| == |ct|
    decreases |ct|
  {
    var r := inst.Rate();
    if |ct| > r then
      var o := DecBlock(inst, s, ct[..r]);
      var rest := CipherText(inst, Sponge(inst, o.state, inst.Slim()), ct[r..]);
      Out(rest.state, o.bytes + rest.bytes)
    else
      var d := Domain(inst, s, if |ct| < r then 2 else 3);
      var o := DecBlock(inst, d, Complete(inst, d, ct));
      Out(Sponge(inst, o.state, inst.Big()), o.bytes[..|ct|])
  }

  /** Decrypting the bytes of an encrypted block restores the block and leads to the same state. */
  lemma BlockInverts(inst: Instance, s: seq<Word>, b: seq<Byte>)
    requires inst.Fits(s) && |b| == inst.Rate()
    ensures DecBlock(inst, s, EncBlock(inst, s, b).bytes) == Out(EncBlock(inst, s, b).state, b)
  {
    hide Rho; hide RhoDec; hide XorWords; hide BytesOf; hide WordsOf;
    var m := WordsOf(b);
    var c := XorWords(m, RatePart(inst, s));
    WordsOfBytesOf(c);
    RhoAgrees(inst, s, m);
    XorWordsCancels(m, RatePart(inst, s));
    BytesOfWordsOf(b);
  }

  lemma PadAt(inst: Instance, b: seq<Byte>, i: nat)
    requires |b| < inst.Rate() && i < inst.Rate()
    ensures Pad(inst, b)[i] == if i < |b| then b[i] else if i == |b| then 0x80 else 0
  {
  }

  lemma CompleteAt(inst: Instance, s: seq<Word>, c: seq<Byte>, i: nat)
    requires inst.Fits(s) && |c| < inst.Rate() && i < inst.Rate()
    ensures var known := BytesOf(RatePart(inst, s));
      Complete(inst, s, c)[i] == if i < |c| then c[i] else if i == |c| then XorByte(known[i], 0x80) else known[i]
  {
    hide BytesOf; hide XorByte;
  }

  lemma XorBytesAt(a: seq<Byte>, b: seq<Byte>, i: nat)
    requires |a| == |b| && i < |a|
    ensures XorBytes(a, b)[i] == XorByte(a[i], b[i])
  {
    hide XorByte;
  }

  /** Completing the truncated last ciphertext block from the state yields the untruncated one. */
  lemma CompleteIsCipher(inst: Instance, s: seq<Word>, msg: seq<Byte>)
    requires inst.Fits(s) && |msg| <= inst.Rate()
    ensures Complete(inst, s, EncBlock(inst, s, Pad(inst, msg)).bytes[..|msg|]) == EncBlock(inst, s, Pad(inst, msg)).bytes
  {
    hide *;
    var p := Pad(inst, msg);
    var known := BytesOf(RatePart(inst, s));
    var full := EncBlock(inst, s, p).bytes;
    if |msg| < inst.Rate() {
      EncBlockBytes(inst, s, p);
      RateBytes(inst);
      var q := Complete(inst, s, full[..|msg|]);
      forall i | 0 <= i < |q| ensures q[i] == full[i] {
        PadAt(inst, msg, i);
        CompleteAt(inst, s, full[..|msg|], i);
        XorBytesAt(p, known, i);
        XorByteCancels(known[i], 0x80);
        XorByteCancels(known[i], 0);
      }
    } else {
      assert full[..|msg|] == full;
      CompleteFull(inst, s, full);
    }
  }

  lemma RateBytes(inst: Instance)
    ensures inst.Rate() == 4 * inst.RateWords()
  {
  }

  lemma CompleteFull(inst: Instance, s: seq<Word>, c: seq<Byte>)
    requires inst.Fits(s) && |c| == inst.Rate()
    ensures Complete(inst, s, c) == c
  {
  }

  lemma EncBlockBytes(inst: Instance, s: seq<Word>, b: seq<Byte>)
    requires inst.Fits(s) && |b| == inst.Rate()
    ensures EncBlock(inst, s, b).bytes == XorBytes(b, BytesOf(RatePart(inst, s)))
  {
    hide Rho; hide XorWords; hide BytesOf; hide WordsOf; hide XorBytes;
    BytesOfXor(WordsOf(b), RatePart(inst, s));
    BytesOfWordsOf(b);
  }

  /** Both directions go through the same states, and decryption returns the message. */
  lemma {:induction false} CipherTextInverts(inst: Instance, s: seq<Word>, msg: seq<Byte>)
    requires inst.Fits(s)
    ensures CipherText(inst, s, PlainText(inst, s, msg).bytes) == Out(PlainText(inst, s, msg).state, msg)
    decreases |msg|
  {
    hide EncBlock; hide DecBlock; hide Sponge; hide Domain; hide Pad; hide Complete;
    var r := inst.Rate();
    var ct := PlainText(inst, s, msg).bytes;
    if |msg| > r {
      var o := EncBlock(inst, s, msg[..r]);
      var t := Sponge(inst, o.state, inst.Slim());
      CipherTextInverts(inst, t, msg[r..]);
      BlockInverts(inst, s, msg[..r]);
      assert ct[..r] == o.bytes && ct[r..] == PlainText(inst, t, msg[r..]).bytes;
      assert msg[..r] + msg[r..] == msg;
    } else {
      var d := Domain(inst, s, if |msg| < r then 2 else 3);
      CompleteIsCipher(inst, d, msg);
      BlockInverts(inst, d, Pad(inst, msg));
      PadPrefix(inst, msg);
    }
  }

  lemma PadPrefix(inst: Instance, b: seq<Byte>)
    requires |b| <= inst.Rate()
    ensures Pad(inst, b)[..|b|] == b
  {
  }

  // ----- the complete construction -----

  /** `Initialize` */
  function Initial(inst: Instance, key: seq<Byte>, nonce: seq<Byte>): (s: seq<Word>)
    requires |key| == 4 * inst.CapWords() && |nonce| == inst.Rate()
    ensures inst.Fits(s)
  {
    Sponge(inst, WordsOf(nonce) + WordsOf(key), inst.Big())
  }

  /** `ProcessAssocData` */
  function AssocData(inst: Instance, s: seq<Word>, ad: seq<Byte>): (r: seq<Word>)
    requires inst.Fits(s)
    ensures inst.Fits(r)
    decreases |ad|
  {
    var r := inst.Rate();
    if |ad| > r then AssocData(inst, Sponge(inst, Rho(inst, s, WordsOf(ad[..r])), inst.Slim()), ad[r..])
    else Sponge(inst, Rho(inst, Domain(inst, s, if |ad| < r then 0 else 1), WordsOf(Pad(inst, ad))), inst.Big())
  }

  /** `Finalize` and `GenerateTag` */
  function Tag(inst: Instance, s: seq<Word>, key: seq<Byte>): (t: seq<Byte>)
    requires inst.Fits(s) && |key| == 4 * inst.CapWords()
    ensures |t| == 4 * inst.CapWords()
  {
    BytesOf(XorWords(s[inst.RateWords()..], WordsOf(key)))
  }

  /** The state after key, nonce and associated data; nothing is absorbed for empty associated data. */
  function Opened(inst: Instance, key: seq<Byte>, nonce: seq<Byte>, ad: seq<Byte>): (s: seq<Word>)
    requires |key| == 4 * inst.CapWords() && |nonce| == inst.Rate()
    ensures inst.Fits(s)
  {
    var s := Initial(inst, key, nonce);
    if |ad| != 0 then AssocData(inst, s, ad) else s
  }

  /** `crypto_aead_encrypt`: ciphertext followed by the tag. */
  function Encrypt(inst: Instance, key: seq<Byte>, nonce: seq<Byte>, ad: seq<Byte>, msg: seq<Byte>): (c: seq<Byte>)
    requires |key| == 4 * inst.CapWords() && |nonce| == inst.Rate()
    ensures |c| == |msg| + 4 * inst.CapWords()
  {
    var s := Opened(inst, key, nonce, ad);
    var o := if |msg| != 0 then PlainText(inst, s, msg) else Out(s, []);
    o.bytes + Tag(inst, o.state, key)
  }

  datatype Opening = Opening(accepted: bool, msg: seq<Byte>)

  /** `crypto_aead_decrypt`: the message, and whether the tag matches. */
  function Decrypt(inst: Instance, key: seq<Byte>, nonce: seq<Byte>, ad: seq<Byte>, c: seq<Byte>): Opening
    requires |key| == 4 * inst.CapWords() && |nonce| == inst.Rate() && |c| >= 4 * inst.CapWords()
  {
    var n := |c| - 4 * inst.CapWords();
    var s := Opened(inst, key, nonce, ad);
    var o := if n != 0 then CipherText(inst, s, c[..n]) else Out(s, []);
    Opening(Tag(inst, o.state, key) == c[n..], o.bytes)
  }

  /** Decryption undoes encryption and accepts, for every key, nonce, message and associated data. */
  lemma DecryptInverts(inst: Instance, key: seq<Byte>, nonce: seq<Byte>, ad: seq<Byte>, msg: seq<Byte>)
    requires |key| == 4 * inst.CapWords() && |nonce| == inst.Rate()
    ensures Decrypt(inst, key, nonce, ad, Encrypt(inst, key, nonce, ad, msg)) == Opening(true, msg)
  {
    hide PlainText; hide CipherText; hide Opened; hide Tag;
    var s := Opened(inst, key, nonce, ad);
    var c := Encrypt(inst, key, nonce, ad, msg);
    var o := if |msg| != 0 then PlainText(inst, s, msg) else Out(s, []);
    var n := |c| - 4 * inst.CapWords();
    assert c[..n] == o.bytes && c[n..] == Tag(inst, o.state, key);
    CipherTextInverts(inst, s, msg);
  }
}
