/** What the encryption of runtime/sparkle/schwaemm/schwaemm.c is bound to: key, nonce, associated data and message all enter
    the state, through the padding and the domain constants of their last blocks. */
module SchwaemmBinding {
  import opened Words
  import opened ByteView
  import opened Schwaemm
  import Sparkle

  // ----- the steps are injective -----

  lemma XorLeft(a: Word, b: Word, c: Word)
    requires Xor(a, b) == Xor(a, c)
    ensures b == c
  {
    hide Xor;
    XorLaws(a, a, b);
    XorLaws(a, a, c);
    XorLaws(b, 0, 0);
    XorLaws(c, 0, 0);
    XorCancels(b, a);
    XorCancels(c, a);
    XorLaws(a, b, 0);
    XorLaws(a, c, 0);
  }

  lemma XorRight(a: Word, b: Word, c: Word)
    requires Xor(a, c) == Xor(b, c)
    ensures a == b
  {
    hide Xor;
    XorLaws(a, c, 0);
    XorLaws(b, c, 0);
    XorLeft(c, a, b);
  }

  lemma SpongeInjective(inst: Instance, s: seq<Word>, t: seq<Word>, steps: nat)
    requires inst.Fits(s) && inst.Fits(t) && Sponge(inst, s, steps) == Sponge(inst, t, steps)
    ensures s == t
  {
    hide Sparkle.Permute; hide Sparkle.PermuteInv;
    Sparkle.PermuteInverts(s, inst.Brans(), steps);
    Sparkle.PermuteInverts(t, inst.Brans(), steps);
  }

  lemma RhoAt(inst: Instance, s: seq<Word>, m: seq<Word>, t: nat)
    requires inst.Fits(s) && |m| == inst.RateWords() && t < |s|
    ensures |Rho(inst, s, m)| == |s| && Rho(inst, s, m)[t] == RhoWord(inst, s, m, t)
  {
    hide RhoWord;
  }

  /** Absorbing a block is injective in the block. */
  lemma RhoBlock(inst: Instance, s: seq<Word>, m: seq<Word>, n: seq<Word>)
    requires inst.Fits(s) && |m| == |n| == inst.RateWords() && Rho(inst, s, m) == Rho(inst, s, n)
    ensures m == n
  {
    hide Xor; hide Rho;
    var r, h := inst.RateWords(), inst.RateWords() / 2;
    forall t | 0 <= t < r ensures m[t] == n[t] {
      RhoAt(inst, s, m, t);
      RhoAt(inst, s, n, t);
      if t < h {
        XorRight(Xor(s[t + h], m[t]), Xor(s[t + h], n[t]), s[r + t]);
        XorLeft(s[t + h], m[t], n[t]);
      } else {
        var k := s[r + inst.CapIndex(t)];
        XorLeft(s[t], Xor(Xor(s[t - h], m[t]), k), Xor(Xor(s[t - h], n[t]), k));
        XorRight(Xor(s[t - h], m[t]), Xor(s[t - h], n[t]), k);
        XorLeft(s[t - h], m[t], n[t]);
      }
    }
  }

  /** And in the state. */
  lemma RhoState(inst: Instance, s: seq<Word>, t: seq<Word>, m: seq<Word>)
    requires inst.Fits(s) && inst.Fits(t) && |m| == inst.RateWords() && Rho(inst, s, m) == Rho(inst, t, m)
    ensures s == t
  {
    hide Xor; hide Rho;
    var r, h := inst.RateWords(), inst.RateWords() / 2;
    forall i | r <= i < |s| ensures s[i] == t[i] {
      RhoAt(inst, s, m, i);
      RhoAt(inst, t, m, i);
    }
    forall i | h <= i < r ensures s[i] == t[i] { HighWord(inst, s, t, m, i - h); }
    forall i | 0 <= i < h ensures s[i] == t[i] { LowWord(inst, s, t, m, i); }
  }

  lemma HighWord(inst: Instance, s: seq<Word>, t: seq<Word>, m: seq<Word>, i: nat)
    requires inst.Fits(s) && inst.Fits(t) && |m| == inst.RateWords() && Rho(inst, s, m) == Rho(inst, t, m) && i < inst.RateWords() / 2
    requires forall j :: inst.RateWords() <= j < |s| ==> s[j] == t[j]
    ensures s[i + inst.RateWords() / 2] == t[i + inst.RateWords() / 2]
  {
    hide Xor; hide Rho;
    var r, h := inst.RateWords(), inst.RateWords() / 2;
    RhoAt(inst, s, m, i);
    RhoAt(inst, t, m, i);
    XorRight(Xor(s[i + h], m[i]), Xor(t[i + h], m[i]), s[r + i]);
    XorRight(s[i + h], t[i + h], m[i]);
  }

  lemma LowWord(inst: Instance, s: seq<Word>, t: seq<Word>, m: seq<Word>, i: nat)
    requires inst.Fits(s) && inst.Fits(t) && |m| == inst.RateWords() && Rho(inst, s, m) == Rho(inst, t, m) && i < inst.RateWords() / 2
    requires (forall j :: inst.RateWords() <= j < |s| ==> s[j] == t[j]) && s[i + inst.RateWords() / 2] == t[i + inst.RateWords() / 2]
    ensures s[i] == t[i]
  {
    hide Xor; hide Rho;
    var r, h := inst.RateWords(), inst.RateWords() / 2;
    RhoAt(inst, s, m, i + h);
    RhoAt(inst, t, m, i + h);
    var k := s[r + inst.CapIndex(i + h)];
    XorLeft(s[i + h], Xor(Xor(s[i], m[i + h]), k), Xor(Xor(t[i], m[i + h]), k));
    XorRight(Xor(s[i], m[i + h]), Xor(t[i], m[i + h]), k);
    XorRight(s[i], t[i], m[i + h]);
  }

  /** Rate whitening: what the rate becomes depends on the capacity. */
  lemma RhoWhitens(inst: Instance, s: seq<Word>, t: seq<Word>, m: seq<Word>, i: nat)
    requires inst.Fits(s) && inst.Fits(t) && |m| == inst.RateWords() && i < inst.RateWords() && (forall j :: 0 <= j < inst.RateWords() ==> s[j] == t[j])
    ensures inst.CapIndex(i) < inst.CapWords()
    ensures Rho(inst, s, m)[i] == Rho(inst, t, m)[i] <==> s[inst.RateWords() + inst.CapIndex(i)] == t[inst.RateWords() + inst.CapIndex(i)]
  {
    hide Xor; hide Rho;
    var r, h := inst.RateWords(), inst.RateWords() / 2;
    RhoAt(inst, s, m, i);
    RhoAt(inst, t, m, i);
    if Rho(inst, s, m)[i] == Rho(inst, t, m)[i] {
      if i < h {
        XorLeft(Xor(s[i + h], m[i]), s[r + i], t[r + i]);
      } else {
        var a := Xor(s[i - h], m[i]);
        XorLeft(s[i], Xor(a, s[r + inst.CapIndex(i)]), Xor(a, t[r + inst.CapIndex(i)]));
        XorLeft(a, s[r + inst.CapIndex(i)], t[r + inst.CapIndex(i)]);
      }
    }
  }

  /** Absorbing leaves the capacity. */
  lemma RhoKeeps(inst: Instance, s: seq<Word>, m: seq<Word>)
    requires inst.Fits(s) && |m| == inst.RateWords()
    ensures |Rho(inst, s, m)| == |s| > 0 && Rho(inst, s, m)[|s| - 1] == s[|s| - 1]
  {
    RhoAt(inst, s, m, |s| - 1);
  }

  lemma ConstantsDiffer(inst: Instance, j: nat, k: nat)
    requires j < 4 && k < 4 && inst.Constant(j) == inst.Constant(k)
    ensures j == k
  {
  }

  lemma DomainState(inst: Instance, s: seq<Word>, t: seq<Word>, k: nat)
    requires inst.Fits(s) && inst.Fits(t) && k < 4 && Domain(inst, s, k) == Domain(inst, t, k)
    ensures s == t
  {
    hide Xor;
    var n := |s| - 1;
    assert Domain(inst, s, k)[n] == Xor(s[n], inst.Constant(k)) && Domain(inst, t, k)[n] == Xor(t[n], inst.Constant(k));
    XorRight(s[n], t[n], inst.Constant(k));
    forall i | 0 <= i < n ensures s[i] == t[i] { assert Domain(inst, s, k)[i] == Domain(inst, t, k)[i]; }
  }

  lemma WordsInjective(a: seq<Byte>, b: seq<Byte>)
    requires |a| % 4 == 0 && |b| % 4 == 0 && WordsOf(a) == WordsOf(b)
    ensures a == b
  {
    hide WordsOf; hide BytesOf;
    BytesOfWordsOf(a);
    BytesOfWordsOf(b);
  }

  lemma PadInjective(inst: Instance, a: seq<Byte>, b: seq<Byte>)
    requires |a| <= inst.Rate() && |b| <= inst.Rate() && (|a| < inst.Rate() <==> |b| < inst.Rate()) && Pad(inst, a) == Pad(inst, b)
    ensures a == b
  {
    hide Pad;
    if |a| < inst.Rate() {
      if |a| != |b| {
        var n := if |a| < |b| then |b| else |a|;
        PadAt(inst, a, n);
        PadAt(inst, b, n);
      }
      forall i | 0 <= i < |a| ensures a[i] == b[i] {
        PadAt(inst, a, i);
        PadAt(inst, b, i);
      }
    } else {
      PadFull(inst, a);
      PadFull(inst, b);
    }
  }

  lemma PadFull(inst: Instance, a: seq<Byte>)
    requires |a| == inst.Rate()
    ensures Pad(inst, a) == a
  {
  }

  // ----- last blocks -----

  /** The absorption of a last block, of associated data (`k` is 0) or of the message (`k` is 2). */
  function LastBlock(inst: Instance, s: seq<Word>, b: seq<Byte>, k: nat): (r: seq<Word>)
    requires inst.Fits(s) && |b| <= inst.Rate() && k <= 2
    ensures inst.Fits(r)
  {
    Sponge(inst, Rho(inst, Domain(inst, s, if |b| < inst.Rate() then k else k + 1), WordsOf(Pad(inst, b))), inst.Big())
  }

  /** Different last blocks lead to different states: by their padded words, or by the constants when one is full. */
  lemma LastBlockBinds(inst: Instance, s: seq<Word>, a: seq<Byte>, b: seq<Byte>, k: nat)
    requires inst.Fits(s) && |a| <= inst.Rate() && |b| <= inst.Rate() && k <= 2 && LastBlock(inst, s, a, k) == LastBlock(inst, s, b, k)
    ensures a == b
  {
    hide *;
    RateBytes(inst);
    LastBlockIs(inst, s, a, k);
    LastBlockIs(inst, s, b, k);
    var i, j := if |a| < inst.Rate() then k else k + 1, if |b| < inst.Rate() then k else k + 1;
    var d, e := Domain(inst, s, i), Domain(inst, s, j);
    var v, w := WordsOf(Pad(inst, a)), WordsOf(Pad(inst, b));
    SpongeInjective(inst, Rho(inst, d, v), Rho(inst, e, w), inst.Big());
    RhoKeeps(inst, d, v);
    RhoKeeps(inst, e, w);
    DomainLast(inst, s, i);
    DomainLast(inst, s, j);
    XorLeft(s[|s| - 1], inst.Constant(i), inst.Constant(j));
    ConstantsDiffer(inst, i, j);
    RhoBlock(inst, d, v, w);
    WordsInjective(Pad(inst, a), Pad(inst, b));
    PadInjective(inst, a, b);
  }

  lemma LastBlockIs(inst: Instance, s: seq<Word>, b: seq<Byte>, k: nat)
    requires inst.Fits(s) && |b| <= inst.Rate() && k <= 2
    ensures var i := if |b| < inst.Rate() then k else k + 1;
      && inst.Fits(Domain(inst, s, i)) && |Pad(inst, b)| == inst.Rate() && |WordsOf(Pad(inst, b))| == inst.RateWords() && inst.Fits(Rho(inst, Domain(inst, s, i), WordsOf(Pad(inst, b))))
      && LastBlock(inst, s, b, k) == Sponge(inst, Rho(inst, Domain(inst, s, i), WordsOf(Pad(inst, b))), inst.Big())
  {
    hide Sponge; hide Rho; hide Pad;
  }

  lemma DomainLast(inst: Instance, s: seq<Word>, k: nat)
    requires inst.Fits(s) && k < 4
    ensures |Domain(inst, s, k)| == |s| > 0 && Domain(inst, s, k)[|s| - 1] == Xor(s[|s| - 1], inst.Constant(k))
  {
    hide Xor;
  }

  lemma LastBlockState(inst: Instance, s: seq<Word>, t: seq<Word>, b: seq<Byte>, k: nat)
    requires inst.Fits(s) && inst.Fits(t) && |b| <= inst.Rate() && k <= 2 && LastBlock(inst, s, b, k) == LastBlock(inst, t, b, k)
    ensures s == t
  {
    hide *;
    RateBytes(inst);
    LastBlockIs(inst, s, b, k);
    LastBlockIs(inst, t, b, k);
    var i := if |b| < inst.Rate() then k else k + 1;
    var w := WordsOf(Pad(inst, b));
    SpongeInjective(inst, Rho(inst, Domain(inst, s, i), w), Rho(inst, Domain(inst, t, i), w), inst.Big());
    RhoState(inst, Domain(inst, s, i), Domain(inst, t, i), w);
    DomainState(inst, s, t, i);
  }

  // ----- associated data -----

  lemma AssocDataStep(inst: Instance, s: seq<Word>, ad: seq<Byte>)
    requires inst.Fits(s)
    ensures |ad| > inst.Rate() ==> |WordsOf(ad[..inst.Rate()])| == inst.RateWords() && inst.Fits(Rho(inst, s, WordsOf(ad[..inst.Rate()])))
    ensures |ad| > inst.Rate() ==> AssocData(inst, s, ad) == AssocData(inst, Sponge(inst, Rho(inst, s, WordsOf(ad[..inst.Rate()])), inst.Slim()), ad[inst.Rate()..])
    ensures |ad| <= inst.Rate() ==> AssocData(inst, s, ad) == LastBlock(inst, s, ad, 0)
  {
    hide Sponge; hide Rho; hide Domain; hide Pad;
  }

  /** The state before is determined by the state after. */
  lemma {:induction false} AssocDataState(inst: Instance, s: seq<Word>, t: seq<Word>, ad: seq<Byte>)
    requires inst.Fits(s) && inst.Fits(t) && AssocData(inst, s, ad) == AssocData(inst, t, ad)
    ensures s == t
    decreases |ad|
  {
    hide *;
    RateBytes(inst);
    AssocDataStep(inst, s, ad);
    AssocDataStep(inst, t, ad);
    if |ad| > inst.Rate() {
      var m := WordsOf(ad[..inst.Rate()]);
      AssocDataState(inst, Sponge(inst, Rho(inst, s, m), inst.Slim()), Sponge(inst, Rho(inst, t, m), inst.Slim()), ad[inst.Rate()..]);
      SpongeInjective(inst, Rho(inst, s, m), Rho(inst, t, m), inst.Slim());
      RhoState(inst, s, t, m);
    } else {
      LastBlockState(inst, s, t, ad, 0);
    }
  }

  /** Associated data that differ in their last blocks only lead to different states. */
  lemma {:induction false} AssocDataBinds(inst: Instance, s: seq<Word>, pre: seq<Byte>, a: seq<Byte>, b: seq<Byte>, n: nat)
    requires inst.Fits(s) && |pre| == n * inst.Rate() && 1 <= |a| <= inst.Rate() && 1 <= |b| <= inst.Rate()
    requires AssocData(inst, s, pre + a) == AssocData(inst, s, pre + b)
    ensures a == b
    decreases n
  {
    hide *;
    RateBytes(inst);
    AssocDataStep(inst, s, pre + a);
    AssocDataStep(inst, s, pre + b);
    if n == 0 {
      assert pre + a == a && pre + b == b;
      LastBlockBinds(inst, s, a, b, 0);
    } else {
      var r := inst.Rate();
      BlocksLeft(n, r);
      assert (pre + a)[..r] == pre[..r] && (pre + b)[..r] == pre[..r] && (pre + a)[r..] == pre[r..] + a && (pre + b)[r..] == pre[r..] + b;
      AssocDataBinds(inst, Sponge(inst, Rho(inst, s, WordsOf(pre[..r])), inst.Slim()), pre[r..], a, b, n - 1);
    }
  }

  lemma BlocksLeft(n: nat, r: nat)
    requires n > 0
    ensures n * r == r + (n - 1) * r && n * r >= r
  {
  }

  // ----- key and nonce -----

  /** The state after the key and the nonce determines them. */
  lemma InitialBinds(inst: Instance, key: seq<Byte>, nonce: seq<Byte>, key2: seq<Byte>, nonce2: seq<Byte>)
    requires |key| == |key2| == 4 * inst.CapWords() && |nonce| == |nonce2| == inst.Rate() && Initial(inst, key, nonce) == Initial(inst, key2, nonce2)
    ensures key == key2 && nonce == nonce2
  {
    hide Sponge; hide WordsOf;
    var s, t := WordsOf(nonce) + WordsOf(key), WordsOf(nonce2) + WordsOf(key2);
    SpongeInjective(inst, s, t, inst.Big());
    assert WordsOf(nonce) == s[..inst.RateWords()] && WordsOf(nonce2) == t[..inst.RateWords()];
    assert WordsOf(key) == s[inst.RateWords()..] && WordsOf(key2) == t[inst.RateWords()..];
    WordsInjective(nonce, nonce2);
    WordsInjective(key, key2);
  }

  lemma OpenedIs(inst: Instance, key: seq<Byte>, nonce: seq<Byte>, ad: seq<Byte>)
    requires |key| == 4 * inst.CapWords() && |nonce| == inst.Rate()
    ensures inst.Fits(Initial(inst, key, nonce)) && Opened(inst, key, nonce, ad) == if ad == [] then Initial(inst, key, nonce) else AssocData(inst, Initial(inst, key, nonce), ad)
  {
    hide Initial; hide AssocData;
  }

  /** For any associated data the state determines key and nonce. */
  lemma OpenedBinds(inst: Instance, key: seq<Byte>, nonce: seq<Byte>, key2: seq<Byte>, nonce2: seq<Byte>, ad: seq<Byte>)
    requires |key| == |key2| == 4 * inst.CapWords() && |nonce| == |nonce2| == inst.Rate() && Opened(inst, key, nonce, ad) == Opened(inst, key2, nonce2, ad)
    ensures key == key2 && nonce == nonce2
  {
    hide *;
    OpenedIs(inst, key, nonce, ad);
    OpenedIs(inst, key2, nonce2, ad);
    if ad != [] { AssocDataState(inst, Initial(inst, key, nonce), Initial(inst, key2, nonce2), ad); }
    InitialBinds(inst, key, nonce, key2, nonce2);
  }

  /** For one key and nonce, associated data with the same full blocks before the last are told apart. */
  lemma OpenedBindsData(inst: Instance, key: seq<Byte>, nonce: seq<Byte>, pre: seq<Byte>, a: seq<Byte>, b: seq<Byte>, n: nat)
    requires |key| == 4 * inst.CapWords() && |nonce| == inst.Rate() && |pre| == n * inst.Rate() && 1 <= |a| <= inst.Rate() && 1 <= |b| <= inst.Rate()
    requires Opened(inst, key, nonce, pre + a) == Opened(inst, key, nonce, pre + b)
    ensures a == b
  {
    hide *;
    OpenedIs(inst, key, nonce, pre + a);
    OpenedIs(inst, key, nonce, pre + b);
    AssocDataBinds(inst, Initial(inst, key, nonce), pre, a, b, n);
  }

  // ----- the message and the tag -----

  lemma PlainTextStep(inst: Instance, s: seq<Word>, msg: seq<Byte>)
    requires inst.Fits(s)
    ensures |msg| > inst.Rate() ==> |WordsOf(msg[..inst.Rate()])| == inst.RateWords() && inst.Fits(Rho(inst, s, WordsOf(msg[..inst.Rate()])))
    ensures |msg| > inst.Rate() ==> PlainText(inst, s, msg).state == PlainText(inst, Sponge(inst, Rho(inst, s, WordsOf(msg[..inst.Rate()])), inst.Slim()), msg[inst.Rate()..]).state
    ensures |msg| <= inst.Rate() ==> PlainText(inst, s, msg).state == LastBlock(inst, s, msg, 2)
  {
    hide Sponge; hide Rho; hide Domain; hide Pad; hide XorWords; hide BytesOf;
  }

  /** Messages that differ in their last blocks only end in different states, also when one block is padded to the other. */
  lemma {:induction false} MessageBinds(inst: Instance, s: seq<Word>, pre: seq<Byte>, a: seq<Byte>, b: seq<Byte>, n: nat)
    requires inst.Fits(s) && |pre| == n * inst.Rate() && 1 <= |a| <= inst.Rate() && 1 <= |b| <= inst.Rate()
    requires PlainText(inst, s, pre + a).state == PlainText(inst, s, pre + b).state
    ensures a == b
    decreases n
  {
    hide *;
    RateBytes(inst);
    PlainTextStep(inst, s, pre + a);
    PlainTextStep(inst, s, pre + b);
    if n == 0 {
      assert pre + a == a && pre + b == b;
      LastBlockBinds(inst, s, a, b, 2);
    } else {
      var r := inst.Rate();
      BlocksLeft(n, r);
      assert (pre + a)[..r] == pre[..r] && (pre + b)[..r] == pre[..r] && (pre + a)[r..] == pre[r..] + a && (pre + b)[r..] == pre[r..] + b;
      MessageBinds(inst, Sponge(inst, Rho(inst, s, WordsOf(pre[..r])), inst.Slim()), pre[r..], a, b, n - 1);
    }
  }

  /** The tag determines the capacity, given the key, and the key, given the capacity. */
  lemma TagBinds(inst: Instance, s: seq<Word>, t: seq<Word>, key: seq<Byte>, key2: seq<Byte>)
    requires inst.Fits(s) && inst.Fits(t) && |key| == |key2| == 4 * inst.CapWords() && Tag(inst, s, key) == Tag(inst, t, key2)
    ensures s[inst.RateWords()..] == t[inst.RateWords()..] <==> key == key2
  {
    hide Xor; hide BytesOf; hide WordsOf;
    var c, d, v, w := s[inst.RateWords()..], t[inst.RateWords()..], WordsOf(key), WordsOf(key2);
    WordsOfBytesOf(XorWords(c, v));
    WordsOfBytesOf(XorWords(d, w));
    forall i | 0 <= i < |c| ensures (c[i] == d[i] ==> v[i] == w[i]) && (v[i] == w[i] ==> c[i] == d[i]) {
      assert XorWords(c, v)[i] == Xor(c[i], v[i]) && XorWords(d, w)[i] == Xor(d[i], w[i]);
      if c[i] == d[i] { XorLeft(c[i], v[i], w[i]); }
      if v[i] == w[i] { XorRight(c[i], d[i], v[i]); }
    }
    if c == d {
      assert v == w;
      WordsInjective(key, key2);
    }
    if key == key2 { assert c == d; }
  }

  // ----- ciphertexts -----

  /** A full block of ciphertext and the tag of the empty message together reveal the state. */
  lemma CiphertextsDetermine(inst: Instance, key: seq<Byte>, s: seq<Word>, t: seq<Word>, msg: seq<Byte>)
    requires inst.Fits(s) && inst.Fits(t) && |key| == 4 * inst.CapWords() && |msg| == inst.Rate()
    requires Tag(inst, s, key) == Tag(inst, t, key) && PlainText(inst, s, msg).bytes == PlainText(inst, t, msg).bytes
    ensures s == t
  {
    hide *;
    RateBytes(inst);
    TagBinds(inst, s, t, key, key);
    OneBlock(inst, s, msg);
    OneBlock(inst, t, msg);
    XorBytesLeft(msg, BytesOf(RatePart(inst, s)), BytesOf(RatePart(inst, t)));
    WordsOfBytesOf(RatePart(inst, s));
    WordsOfBytesOf(RatePart(inst, t));
    RateIs(inst, s);
    RateIs(inst, t);
    assert s == s[..inst.RateWords()] + s[inst.RateWords()..] && t == t[..inst.RateWords()] + t[inst.RateWords()..];
  }

  lemma RateIs(inst: Instance, s: seq<Word>)
    requires inst.Fits(s)
    ensures |s| >= inst.RateWords() && RatePart(inst, s) == s[..inst.RateWords()]
  {
  }

  lemma OneBlock(inst: Instance, s: seq<Word>, msg: seq<Byte>)
    requires inst.Fits(s) && |msg| == inst.Rate()
    ensures |BytesOf(RatePart(inst, s))| == |msg| && PlainText(inst, s, msg).bytes == XorBytes(msg, BytesOf(RatePart(inst, s)))
  {
    hide EncBlock; hide Sponge; hide Domain; hide Pad; hide XorBytes; hide BytesOf;
    PadFull(inst, msg);
    var d := Domain(inst, s, 3);
    EncBlockBytes(inst, d, msg);
    assert PlainText(inst, s, msg).bytes == EncBlock(inst, d, msg).bytes[..|msg|];
    assert EncBlock(inst, d, msg).bytes[..|msg|] == EncBlock(inst, d, msg).bytes;
    DomainRate(inst, s);
  }

  lemma DomainRate(inst: Instance, s: seq<Word>)
    requires inst.Fits(s)
    ensures inst.Fits(Domain(inst, s, 3)) && RatePart(inst, Domain(inst, s, 3)) == RatePart(inst, s)
  {
  }

  lemma XorBytesLeft(m: seq<Byte>, a: seq<Byte>, b: seq<Byte>)
    requires |m| == |a| == |b| && XorBytes(m, a) == XorBytes(m, b)
    ensures a == b
  {
    hide XorByte;
    forall i | 0 <= i < |a| ensures a[i] == b[i] {
      XorBytesAt(m, a, i);
      XorBytesAt(m, b, i);
      XorByteLeft(m[i], a[i], b[i]);
    }
  }

  lemma XorByteLeft(m: Byte, a: Byte, b: Byte)
    requires XorByte(m, a) == XorByte(m, b)
    ensures a == b
  {
    XorLeft(m, a, b);
  }

  lemma EncryptIs(inst: Instance, key: seq<Byte>, nonce: seq<Byte>, ad: seq<Byte>, msg: seq<Byte>)
    requires |key| == 4 * inst.CapWords() && |nonce| == inst.Rate()
    ensures var s := Opened(inst, key, nonce, ad);
      && (msg == [] ==> Encrypt(inst, key, nonce, ad, msg) == Tag(inst, s, key))
      && (msg != [] ==> |Encrypt(inst, key, nonce, ad, msg)| >= |msg| && Encrypt(inst, key, nonce, ad, msg)[..|msg|] == PlainText(inst, s, msg).bytes)
  {
    hide PlainText; hide Opened; hide Tag;
  }

  /** Encryptions under different nonces are told apart by the empty message or by any message of one block. */
  lemma NonceEnters(inst: Instance, key: seq<Byte>, nonce: seq<Byte>, nonce2: seq<Byte>, ad: seq<Byte>, msg: seq<Byte>)
    requires |key| == 4 * inst.CapWords() && |nonce| == |nonce2| == inst.Rate() == |msg|
    requires Encrypt(inst, key, nonce, ad, []) == Encrypt(inst, key, nonce2, ad, []) && Encrypt(inst, key, nonce, ad, msg) == Encrypt(inst, key, nonce2, ad, msg)
    ensures nonce == nonce2
  {
    hide *;
    RateBytes(inst);
    EncryptsSame(inst, key, nonce, ad, nonce2, ad, msg);
    OpenedBinds(inst, key, nonce, key, nonce2, ad);
  }

  /** And so are associated data with the same blocks before the last. */
  lemma DataEnters(inst: Instance, key: seq<Byte>, nonce: seq<Byte>, pre: seq<Byte>, a: seq<Byte>, b: seq<Byte>, n: nat, msg: seq<Byte>)
    requires |key| == 4 * inst.CapWords() && |nonce| == inst.Rate() == |msg| && |pre| == n * inst.Rate() && 1 <= |a| <= inst.Rate() && 1 <= |b| <= inst.Rate()
    requires Encrypt(inst, key, nonce, pre + a, []) == Encrypt(inst, key, nonce, pre + b, []) && Encrypt(inst, key, nonce, pre + a, msg) == Encrypt(inst, key, nonce, pre + b, msg)
    ensures a == b
  {
    hide *;
    RateBytes(inst);
    EncryptsSame(inst, key, nonce, pre + a, nonce, pre + b, msg);
    OpenedBindsData(inst, key, nonce, pre, a, b, n);
  }

  lemma EncryptsSame(inst: Instance, key: seq<Byte>, nonce: seq<Byte>, ad: seq<Byte>, nonce2: seq<Byte>, ad2: seq<Byte>, msg: seq<Byte>)
    requires |key| == 4 * inst.CapWords() && |nonce| == |nonce2| == inst.Rate() == |msg|
    requires Encrypt(inst, key, nonce, ad, []) == Encrypt(inst, key, nonce2, ad2, []) && Encrypt(inst, key, nonce, ad, msg) == Encrypt(inst, key, nonce2, ad2, msg)
    ensures Opened(inst, key, nonce, ad) == Opened(inst, key, nonce2, ad2)
  {
    hide *;
    RateBytes(inst);
    FitsOpened(inst, key, nonce, ad);
    FitsOpened(inst, key, nonce2, ad2);
    EncryptIs(inst, key, nonce, ad, []);
    EncryptIs(inst, key, nonce2, ad2, []);
    EncryptIs(inst, key, nonce, ad, msg);
    EncryptIs(inst, key, nonce2, ad2, msg);
    RatePositive(inst);
    CiphertextsDetermine(inst, key, Opened(inst, key, nonce, ad), Opened(inst, key, nonce2, ad2), msg);
  }

  lemma RatePositive(inst: Instance)
    ensures inst.Rate() >= 16
  {
  }

  lemma FitsOpened(inst: Instance, key: seq<Byte>, nonce: seq<Byte>, ad: seq<Byte>)
    requires |key| == 4 * inst.CapWords() && |nonce| == inst.Rate()
    ensures inst.Fits(Opened(inst, key, nonce, ad))
  {
  }
}
