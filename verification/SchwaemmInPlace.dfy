/** The in-place form of SCHWAEMM: the block loops of runtime/sparkle/schwaemm/schwaemm.c over the state
    array and the byte buffers. The input and the output buffer may be the same array. */
module SchwaemmInPlace {
  import Bits
  import opened Words
  import Sparkle
  import SparkleInPlace
  import opened ByteView
  import opened Schwaemm

  // ----- memory copies -----

  /** `memcpy` of bytes into a word buffer. */
  method AsWords(bytes: seq<Byte>) returns (w: array<Word>)
    requires |bytes| % 4 == 0
    ensures fresh(w) && w[..] == WordsOf(bytes)
  {
    hide *;
    var ws := WordsOf(bytes);
    w := new Word[|ws|](i requires 0 <= i < |ws| => ws[i]);
  }

  /** A buffer after `block` has been written at `off`. */
  function Written(was: seq<Byte>, off: nat, block: seq<Byte>): (r: seq<Byte>)
    requires off + |block| <= |was|
    ensures |r| == |was|
  {
    was[..off] + block + was[off + |block|..]
  }

  /** `memcpy` of bytes into a byte buffer. */
  method CopyOut(out: array<Byte>, off: nat, bytes: seq<Byte>)
    requires off + |bytes| <= out.Length
    modifies out
    ensures out[..] == Written(old(out[..]), off, bytes)
  {
    for i := 0 to |bytes|
      invariant out[..] == old(out[..])[..off] + bytes[..i] + old(out[..])[off + i..]
    {
      out[off + i] := bytes[i];
    }
  }

  // ----- rho and rate whitening, two words at a time -----

  /** The pairs `k`, `h + k` with `k < i` have been replaced. */
  ghost predicate Halfway(was: seq<Word>, new_: seq<Word>, t: seq<Word>, h: nat, i: nat)
    requires |was| == |new_| == |t|
  {
    forall k :: 0 <= k < |t| ==> t[k] == if k < i || h <= k < h + i then new_[k] else was[k]
  }

  lemma HalfwayStep(was: seq<Word>, new_: seq<Word>, t: seq<Word>, u: seq<Word>, h: nat, i: nat)
    requires |was| == |new_| == |t| == |u| && i < h && 2 * h <= |t| && Halfway(was, new_, t, h, i)
    requires u == t[i := new_[i]][h + i := new_[h + i]]
    ensures Halfway(was, new_, u, h, i + 1)
  {
  }

  lemma HalfwayStart(was: seq<Word>, new_: seq<Word>, h: nat)
    requires |was| == |new_|
    ensures Halfway(was, new_, was, h, 0)
  {
  }

  lemma HalfwayEnd(was: seq<Word>, new_: seq<Word>, t: seq<Word>, h: nat)
    requires |was| == |new_| == |t| && 2 * h <= |t| && Halfway(was, new_, t, h, h)
    requires forall k :: 2 * h <= k < |t| ==> was[k] == new_[k]
    ensures t == new_
  {
  }

  lemma HalfwayAt(was: seq<Word>, new_: seq<Word>, t: seq<Word>, h: nat, i: nat)
    requires |was| == |new_| == |t| && i < h && 2 * h <= |t| && Halfway(was, new_, t, h, i)
    ensures t[i] == was[i] && t[h + i] == was[h + i]
    ensures forall k :: 2 * h <= k < |t| ==> t[k] == was[k]
  {
  }

  lemma RhoAt(inst: Instance, s: seq<Word>, m: seq<Word>, i: nat)
    requires inst.Fits(s) && |m| == inst.RateWords() && i < inst.RateWords() / 2
    ensures var r, h := inst.RateWords(), inst.RateWords() / 2;
      && Rho(inst, s, m)[i] == Xor(Xor(s[h + i], m[i]), s[r + i])
      && Rho(inst, s, m)[h + i] == Xor(s[h + i], Xor(Xor(s[i], m[h + i]), s[r + inst.CapIndex(h + i)]))
  {
    hide Xor;
  }

  lemma RhoDecAt(inst: Instance, s: seq<Word>, c: seq<Word>, i: nat)
    requires inst.Fits(s) && |c| == inst.RateWords() && i < inst.RateWords() / 2
    ensures var r, h := inst.RateWords(), inst.RateWords() / 2;
      && RhoDec(inst, s, c)[i] == Xor(s[i], Xor(Xor(s[h + i], c[i]), s[r + i]))
      && RhoDec(inst, s, c)[h + i] == Xor(Xor(s[i], c[h + i]), s[r + inst.CapIndex(h + i)])
  {
    hide Xor;
  }

  lemma RhoKeepsCapacity(inst: Instance, s: seq<Word>, m: seq<Word>)
    requires inst.Fits(s) && |m| == inst.RateWords()
    ensures forall k :: inst.RateWords() <= k < |s| ==> s[k] == Rho(inst, s, m)[k] == RhoDec(inst, s, m)[k]
  {
    hide Xor;
  }

  lemma XorRateAt(inst: Instance, s: seq<Word>, m: seq<Word>, k: nat)
    requires inst.Fits(s) && k < |m| == inst.RateWords()
    ensures XorWords(m, RatePart(inst, s))[k] == Xor(m[k], s[k])
  {
    hide Xor;
  }

  lemma FitsIs(inst: Instance, s: seq<Word>)
    ensures inst.Fits(s) <==> |s| == inst.RateWords() + inst.CapWords()
    ensures inst.RateWords() / 2 <= inst.CapWords() && inst.Rate() == 4 * inst.RateWords()
  {
  }

  /** `rho_whi_aut` on a loaded block. */
  method Absorb(inst: Instance, state: array<Word>, buffer: array<Word>)
    requires inst.Fits(state[..]) && buffer.Length == inst.RateWords() && buffer != state
    modifies state
    ensures state[..] == Rho(inst, old(state[..]), buffer[..])
  {
    hide *;
    ghost var s, m := state[..], buffer[..];
    FitsIs(inst, s);
    ghost var goal := Rho(inst, s, m);
    var r := inst.RateWords();
    var h := r / 2;
    FitsIs(inst, goal);
    HalfwayStart(s, goal, h);
    for i := 0 to h
      invariant state.Length == |s| && Halfway(s, goal, state[..], h, i)
    {
      var j := h + i;
      ghost var t := state[..];
      HalfwayAt(s, goal, t, h, i);
      RhoAt(inst, s, m, i);
      var tmp := state[i];
      state[i] := Xor(Xor(state[j], buffer[i]), state[r + i]);
      state[j] := Xor(state[j], Xor(Xor(tmp, buffer[j]), state[r + inst.CapIndex(j)]));
      HalfwayStep(s, goal, t, state[..], h, i);
    }
    RhoKeepsCapacity(inst, s, m);
    HalfwayEnd(s, goal, state[..], h);
  }

  /** The loop of `rho_whi_enc` and `rho_whi_enc_last` on a loaded block. */
  method EncryptBlock(inst: Instance, state: array<Word>, buffer: array<Word>)
    requires inst.Fits(state[..]) && buffer.Length == inst.RateWords() && buffer != state
    modifies state, buffer
    ensures state[..] == Rho(inst, old(state[..]), old(buffer[..]))
    ensures buffer[..] == XorWords(old(buffer[..]), RatePart(inst, old(state[..])))
  {
    hide *;
    ghost var s, m := state[..], buffer[..];
    FitsIs(inst, s);
    ghost var goal, sent := Rho(inst, s, m), XorWords(m, RatePart(inst, s));
    var r := inst.RateWords();
    var h := r / 2;
    FitsIs(inst, goal);
    HalfwayStart(s, goal, h);
    HalfwayStart(m, sent, h);
    for i := 0 to h
      invariant state.Length == |s| && Halfway(s, goal, state[..], h, i)
      invariant buffer.Length == |m| && Halfway(m, sent, buffer[..], h, i)
    {
      var j := h + i;
      ghost var t, b := state[..], buffer[..];
      HalfwayAt(s, goal, t, h, i);
      HalfwayAt(m, sent, b, h, i);
      RhoAt(inst, s, m, i);
      XorRateAt(inst, s, m, i);
      XorRateAt(inst, s, m, j);
      var tmp1, tmp2 := state[i], state[j];
      state[i] := Xor(Xor(state[j], buffer[i]), state[r + i]);
      state[j] := Xor(state[j], Xor(Xor(tmp1, buffer[j]), state[r + inst.CapIndex(j)]));
      buffer[i] := Xor(buffer[i], tmp1);
      buffer[j] := Xor(buffer[j], tmp2);
      HalfwayStep(s, goal, t, state[..], h, i);
      HalfwayStep(m, sent, b, buffer[..], h, i);
    }
    RhoKeepsCapacity(inst, s, m);
    HalfwayEnd(s, goal, state[..], h);
    HalfwayEnd(m, sent, buffer[..], h);
  }

  /** The loop of `rho_whi_dec` and `rho_whi_dec_last` on a loaded block. */
  method DecryptBlock(inst: Instance, state: array<Word>, buffer: array<Word>)
    requires inst.Fits(state[..]) && buffer.Length == inst.RateWords() && buffer != state
    modifies state, buffer
    ensures state[..] == RhoDec(inst, old(state[..]), old(buffer[..]))
    ensures buffer[..] == XorWords(old(buffer[..]), RatePart(inst, old(state[..])))
  {
    hide *;
    ghost var s, c := state[..], buffer[..];
    FitsIs(inst, s);
    ghost var goal, plain := RhoDec(inst, s, c), XorWords(c, RatePart(inst, s));
    var r := inst.RateWords();
    var h := r / 2;
    FitsIs(inst, goal);
    HalfwayStart(s, goal, h);
    HalfwayStart(c, plain, h);
    for i := 0 to h
      invariant state.Length == |s| && Halfway(s, goal, state[..], h, i)
      invariant buffer.Length == |c| && Halfway(c, plain, buffer[..], h, i)
    {
      var j := h + i;
      ghost var t, b := state[..], buffer[..];
      HalfwayAt(s, goal, t, h, i);
      HalfwayAt(c, plain, b, h, i);
      RhoDecAt(inst, s, c, i);
      XorRateAt(inst, s, c, i);
      XorRateAt(inst, s, c, j);
      var tmp1, tmp2 := state[i], state[j];
      state[i] := Xor(state[i], Xor(Xor(state[j], buffer[i]), state[r + i]));
      state[j] := Xor(Xor(tmp1, buffer[j]), state[r + inst.CapIndex(j)]);
      buffer[i] := Xor(buffer[i], tmp1);
      buffer[j] := Xor(buffer[j], tmp2);
      HalfwayStep(s, goal, t, state[..], h, i);
      HalfwayStep(c, plain, b, buffer[..], h, i);
    }
    RhoKeepsCapacity(inst, s, c);
    HalfwayEnd(s, goal, state[..], h);
    HalfwayEnd(c, plain, buffer[..], h);
  }

  // ----- blocks of a buffer -----

  method DomainInPlace(inst: Instance, state: array<Word>, k: nat)
    requires inst.Fits(state[..]) && k < 4
    modifies state
    ensures state[..] == Domain(inst, old(state[..]), k)
  {
    hide Xor;
    state[state.Length - 1] := Xor(state[state.Length - 1], inst.Constant(k));
  }

  method SpongeInPlace(inst: Instance, state: array<Word>, steps: nat)
    requires inst.Fits(state[..])
    modifies state
    ensures state[..] == Sponge(inst, old(state[..]), steps)
  {
    hide Sparkle.Permute;
    SparkleInPlace.SparklePermutation(state, inst.Brans(), steps);
  }

  /** `memcpy`, then zeroes after one byte 0x80 when the block is not full. */
  method LoadPadded(inst: Instance, block: seq<Byte>) returns (buffer: array<Word>)
    requires |block| <= inst.Rate()
    ensures fresh(buffer) && buffer[..] == WordsOf(Pad(inst, block))
  {
    hide WordsOf;
    var bytes := new Byte[inst.Rate()](_ => 0);
    CopyOut(bytes, 0, block);
    if |block| < inst.Rate() {
      bytes[|block|] := 0x80;
    }
    assert bytes[..] == Pad(inst, block);
    buffer := AsWords(bytes[..]);
  }

  lemma CompletedBytes(inst: Instance, s: seq<Word>, block: seq<Byte>, t: seq<Byte>)
    requires inst.Fits(s) && |block| < |t| == inst.Rate()
    ensures var n, known := |block|, BytesOf(RatePart(inst, s));
      var u := Written(Written(t, 0, block), n, known[n..]);
      u[n] == known[n] && u[n := XorByte(known[n], 0x80)] == Complete(inst, s, block)
  {
    hide BytesOf; hide XorByte;
  }

  lemma WrittenFull(t: seq<Byte>, block: seq<Byte>)
    requires |block| == |t|
    ensures Written(t, 0, block) == block
  {
  }

  /** `memcpy`, then the bytes of the state when the block is not full, the first of them with its top bit flipped. */
  method LoadCompleted(inst: Instance, state: array<Word>, block: seq<Byte>) returns (buffer: array<Word>)
    requires inst.Fits(state[..]) && |block| <= inst.Rate()
    ensures fresh(buffer) && buffer[..] == WordsOf(Complete(inst, state[..], block))
  {
    hide *;
    FitsIs(inst, state[..]);
    var n := |block|;
    var bytes := new Byte[inst.Rate()](_ => 0);
    ghost var t := bytes[..];
    CopyOut(bytes, 0, block);
    if n < inst.Rate() {
      CompletedBytes(inst, state[..], block, t);
      var known := BytesOf(RatePart(inst, state[..]));
      CopyOut(bytes, n, known[n..]);
      bytes[n] := XorByte(bytes[n], 0x80);
    } else {
      WrittenFull(t, block);
      CompleteFull(inst, state[..], block);
    }
    assert bytes[..] == Complete(inst, state[..], block);
    buffer := AsWords(bytes[..]);
  }

  lemma AssocDataStep(inst: Instance, s: seq<Word>, ad: seq<Byte>)
    requires inst.Fits(s)
    ensures |ad| > inst.Rate() ==>
      AssocData(inst, s, ad) == AssocData(inst, Sponge(inst, Rho(inst, s, WordsOf(ad[..inst.Rate()])), inst.Slim()), ad[inst.Rate()..])
    ensures |ad| <= inst.Rate() ==>
      AssocData(inst, s, ad) == Sponge(inst, Rho(inst, Domain(inst, s, if |ad| < inst.Rate() then 0 else 1), WordsOf(Pad(inst, ad))), inst.Big())
  {
    hide Sponge; hide Rho; hide Domain; hide Pad; hide WordsOf;
  }

  /** `ProcessAssocData` */
  method ProcessAssocData(inst: Instance, state: array<Word>, input: array<Byte>)
    requires inst.Fits(state[..])
    modifies state
    ensures state[..] == AssocData(inst, old(state[..]), input[..])
  {
    hide *;
    ghost var goal := AssocData(inst, state[..], input[..]);
    var r := inst.Rate();
    FitsIs(inst, state[..]);
    var off := 0;
    while input.Length - off > r
      invariant 0 <= off <= input.Length && inst.Fits(state[..])
      invariant AssocData(inst, state[..], input[off..]) == goal
      decreases input.Length - off
    {
      AssocDataStep(inst, state[..], input[off..]);
      assert input[off..][..r] == input[off..off + r] && input[off..][r..] == input[off + r..];
      var buffer := AsWords(input[off..off + r]);
      Absorb(inst, state, buffer);
      SpongeInPlace(inst, state, inst.Slim());
      off := off + r;
    }
    AssocDataStep(inst, state[..], input[off..]);
    DomainInPlace(inst, state, if input.Length - off < r then 0 else 1);
    var buffer := LoadPadded(inst, input[off..]);
    Absorb(inst, state, buffer);
    SpongeInPlace(inst, state, inst.Big());
  }

  lemma PlainTextStep(inst: Instance, s: seq<Word>, msg: seq<Byte>)
    requires inst.Fits(s)
    ensures var r := inst.Rate();
      |msg| > r ==>
        var o := EncBlock(inst, s, msg[..r]);
        var rest := PlainText(inst, Sponge(inst, o.state, inst.Slim()), msg[r..]);
        PlainText(inst, s, msg) == Out(rest.state, o.bytes + rest.bytes)
    ensures var r := inst.Rate();
      |msg| <= r ==>
        var o := EncBlock(inst, Domain(inst, s, if |msg| < r then 2 else 3), Pad(inst, msg));
        PlainText(inst, s, msg) == Out(Sponge(inst, o.state, inst.Big()), o.bytes[..|msg|])
  {
    hide Sponge; hide EncBlock; hide Domain; hide Pad;
  }

  lemma CipherTextStep(inst: Instance, s: seq<Word>, ct: seq<Byte>)
    requires inst.Fits(s)
    ensures var r := inst.Rate();
      |ct| > r ==>
        var o := DecBlock(inst, s, ct[..r]);
        var rest := CipherText(inst, Sponge(inst, o.state, inst.Slim()), ct[r..]);
        CipherText(inst, s, ct) == Out(rest.state, o.bytes + rest.bytes)
    ensures var r := inst.Rate();
      |ct| <= r ==>
        var d := Domain(inst, s, if |ct| < r then 2 else 3);
        var o := DecBlock(inst, d, Complete(inst, d, ct));
        CipherText(inst, s, ct) == Out(Sponge(inst, o.state, inst.Big()), o.bytes[..|ct|])
  {
    hide Sponge; hide DecBlock; hide Domain; hide Complete;
  }

  lemma BlockParts(inst: Instance, s: seq<Word>, b: seq<Byte>)
    requires inst.Fits(s) && |b| == inst.Rate()
    ensures EncBlock(inst, s, b) == Out(Rho(inst, s, WordsOf(b)), BytesOf(XorWords(WordsOf(b), RatePart(inst, s))))
    ensures DecBlock(inst, s, b) == Out(RhoDec(inst, s, WordsOf(b)), BytesOf(XorWords(WordsOf(b), RatePart(inst, s))))
  {
    hide Rho; hide RhoDec; hide WordsOf; hide BytesOf; hide XorWords;
  }

  /** Where a block loop stands: `off` bytes are written, the rest of the input is untouched, and finishing
      from the current state completes `goal`. */
  ghost predicate Progress(goal: Out, rest: Out, was: seq<Byte>, now: seq<Byte>, off: nat, n: nat)
    requires off <= n <= |was| && |now| == |was|
  {
    && goal == Out(rest.state, now[..off] + rest.bytes)
    && now[n..] == was[n..]
  }

  lemma ProgressBlock(goal: Out, rest: Out, next: Out, block: seq<Byte>, was: seq<Byte>, now: seq<Byte>, off: nat, n: nat)
    requires off + |block| <= n <= |was| == |now| && Progress(goal, rest, was, now, off, n)
    requires rest == Out(next.state, block + next.bytes)
    ensures Progress(goal, next, was, Written(now, off, block), off + |block|, n)
  {
    var then_ := Written(now, off, block);
    assert then_[..off + |block|] == now[..off] + block;
    assert then_[n..] == now[n..];
    assert now[..off] + (block + next.bytes) == now[..off] + block + next.bytes;
  }

  lemma ProgressEnd(goal: Out, rest: Out, was: seq<Byte>, now: seq<Byte>, off: nat, n: nat)
    requires off + |rest.bytes| == n <= |was| == |now| && Progress(goal, rest, was, now, off, n)
    ensures Written(now, off, rest.bytes) == goal.bytes + was[n..] && goal.state == rest.state
  {
  }

  lemma WrittenKeepsTail(now: seq<Byte>, off: nat, block: seq<Byte>)
    requires off + |block| <= |now|
    ensures Written(now, off, block)[off + |block|..] == now[off + |block|..]
  {
  }

  lemma ProgressStart(goal: Out, was: seq<Byte>, n: nat)
    requires n <= |was|
    ensures Progress(goal, goal, was, was, 0, n)
  {
    assert was[..0] + goal.bytes == goal.bytes;
  }

  lemma NextBlock(inp: seq<Byte>, msg: seq<Byte>, off: nat, r: nat, n: nat)
    requires off + r <= n == |msg| <= |inp| && inp[off..n] == msg[off..]
    ensures msg[off..][..r] == inp[off..off + r] && msg[off..][r..] == msg[off + r..] == inp[off + r..n]
  {
    assert inp[off..n][..r] == inp[off..off + r] && inp[off..n][r..] == inp[off + r..n];
  }

  lemma SliceOfTail(a: seq<Byte>, b: seq<Byte>, off: nat, n: nat)
    requires off <= n <= |a| == |b|
    ensures a[off..] == b[off..] ==> a[off..n] == b[off..n]
  {
    assert a[off..n] == a[off..][..n - off] && b[off..n] == b[off..][..n - off];
  }

  /** `rho_whi_enc` on the block at `off`. */
  method RhoWhiEnc(inst: Instance, state: array<Word>, output: array<Byte>, input: array<Byte>, off: nat)
    requires inst.Fits(state[..]) && off + inst.Rate() <= input.Length && off + inst.Rate() <= output.Length
    modifies state, output
    ensures inst.Fits(state[..])
    ensures state[..] == EncBlock(inst, old(state[..]), old(input[..])[off..off + inst.Rate()]).state
    ensures output[..] == Written(old(output[..]), off, EncBlock(inst, old(state[..]), old(input[..])[off..off + inst.Rate()]).bytes)
  {
    hide *;
    FitsIs(inst, state[..]);
    var block := input[..][off..off + inst.Rate()];
    BlockParts(inst, state[..], block);
    var buffer := AsWords(block);
    EncryptBlock(inst, state, buffer);
    CopyOut(output, off, BytesOf(buffer[..]));
  }

  /** `rho_whi_enc_last` on the bytes from `off` to `n`. */
  method RhoWhiEncLast(inst: Instance, state: array<Word>, output: array<Byte>, input: array<Byte>, off: nat, n: nat)
    requires inst.Fits(state[..]) && off <= n <= input.Length && n <= output.Length && n - off <= inst.Rate()
    modifies state, output
    ensures inst.Fits(state[..])
    ensures var o := EncBlock(inst, old(state[..]), Pad(inst, old(input[..])[off..n]));
      && state[..] == o.state
      && output[..] == Written(old(output[..]), off, o.bytes[..n - off])
  {
    hide *;
    FitsIs(inst, state[..]);
    var block := input[..][off..n];
    BlockParts(inst, state[..], Pad(inst, block));
    var buffer := LoadPadded(inst, block);
    EncryptBlock(inst, state, buffer);
    CopyOut(output, off, BytesOf(buffer[..])[..|block|]);
  }

  /** `ProcessPlainText`; `input` and `output` may be the same array. */
  method ProcessPlainText(inst: Instance, state: array<Word>, output: array<Byte>, input: array<Byte>, n: nat)
    requires inst.Fits(state[..]) && n <= input.Length && n <= output.Length
    modifies state, output
    ensures state[..] == PlainText(inst, old(state[..]), old(input[..n])).state
    ensures output[..] == PlainText(inst, old(state[..]), old(input[..n])).bytes + old(output[n..])
  {
    hide *;
    ghost var was, msg := output[..], input[..n];
    ghost var goal := PlainText(inst, state[..], msg);
    ProgressStart(goal, was, n);
    assert was[n..] == output[n..] && msg[0..] == msg;
    var r := inst.Rate();
    FitsIs(inst, state[..]);
    var off := 0;
    while n - off > r
      invariant 0 <= off <= n && inst.Fits(state[..]) && |was| == output.Length
      invariant input[..][off..n] == msg[off..]
      invariant Progress(goal, PlainText(inst, state[..], msg[off..]), was, output[..], off, n)
      decreases n - off
    {
      ghost var now, inp, s := output[..], input[..], state[..];
      NextBlock(inp, msg, off, r, n);
      PlainTextStep(inst, s, msg[off..]);
      RhoWhiEnc(inst, state, output, input, off);
      ghost var block := EncBlock(inst, s, inp[off..off + r]).bytes;
      WrittenKeepsTail(now, off, block);
      SpongeInPlace(inst, state, inst.Slim());
      SliceOfTail(input[..], inp, off + r, n);
      ProgressBlock(goal, PlainText(inst, s, msg[off..]), PlainText(inst, state[..], msg[off + r..]), block, was, now, off, n);
      off := off + r;
    }
    ghost var now, s, rest := output[..], state[..], input[..][off..n];
    PlainTextStep(inst, s, rest);
    DomainInPlace(inst, state, if n - off < r then 2 else 3);
    RhoWhiEncLast(inst, state, output, input, off, n);
    SpongeInPlace(inst, state, inst.Big());
    ProgressEnd(goal, PlainText(inst, s, rest), was, now, off, n);
  }

  /** `rho_whi_dec` on the block at `off`. */
  method RhoWhiDec(inst: Instance, state: array<Word>, output: array<Byte>, input: array<Byte>, off: nat)
    requires inst.Fits(state[..]) && off + inst.Rate() <= input.Length && off + inst.Rate() <= output.Length
    modifies state, output
    ensures inst.Fits(state[..])
    ensures state[..] == DecBlock(inst, old(state[..]), old(input[..])[off..off + inst.Rate()]).state
    ensures output[..] == Written(old(output[..]), off, DecBlock(inst, old(state[..]), old(input[..])[off..off + inst.Rate()]).bytes)
  {
    hide *;
    FitsIs(inst, state[..]);
    var block := input[..][off..off + inst.Rate()];
    BlockParts(inst, state[..], block);
    var buffer := AsWords(block);
    DecryptBlock(inst, state, buffer);
    CopyOut(output, off, BytesOf(buffer[..]));
  }

  /** `rho_whi_dec_last` on the bytes from `off` to `n`. */
  method RhoWhiDecLast(inst: Instance, state: array<Word>, output: array<Byte>, input: array<Byte>, off: nat, n: nat)
    requires inst.Fits(state[..]) && off <= n <= input.Length && n <= output.Length && n - off <= inst.Rate()
    modifies state, output
    ensures inst.Fits(state[..])
    ensures var o := DecBlock(inst, old(state[..]), Complete(inst, old(state[..]), old(input[..])[off..n]));
      && state[..] == o.state
      && output[..] == Written(old(output[..]), off, o.bytes[..n - off])
  {
    hide *;
    FitsIs(inst, state[..]);
    var block := input[..][off..n];
    BlockParts(inst, state[..], Complete(inst, state[..], block));
    var buffer := LoadCompleted(inst, state, block);
    DecryptBlock(inst, state, buffer);
    CopyOut(output, off, BytesOf(buffer[..])[..|block|]);
  }

  /** `ProcessCipherText`; `input` and `output` may be the same array. */
  method ProcessCipherText(inst: Instance, state: array<Word>, output: array<Byte>, input: array<Byte>, n: nat)
    requires inst.Fits(state[..]) && n <= input.Length && n <= output.Length
    modifies state, output
    ensures state[..] == CipherText(inst, old(state[..]), old(input[..n])).state
    ensures output[..] == CipherText(inst, old(state[..]), old(input[..n])).bytes + old(output[n..])
  {
    hide *;
    ghost var was, ct := output[..], input[..n];
    ghost var goal := CipherText(inst, state[..], ct);
    ProgressStart(goal, was, n);
    assert was[n..] == output[n..] && ct[0..] == ct;
    var r := inst.Rate();
    FitsIs(inst, state[..]);
    var off := 0;
    while n - off > r
      invariant 0 <= off <= n && inst.Fits(state[..]) && |was| == output.Length
      invariant input[..][off..n] == ct[off..]
      invariant Progress(goal, CipherText(inst, state[..], ct[off..]), was, output[..], off, n)
      decreases n - off
    {
      ghost var now, inp, s := output[..], input[..], state[..];
      NextBlock(inp, ct, off, r, n);
      CipherTextStep(inst, s, ct[off..]);
      RhoWhiDec(inst, state, output, input, off);
      ghost var block := DecBlock(inst, s, inp[off..off + r]).bytes;
      WrittenKeepsTail(now, off, block);
      SpongeInPlace(inst, state, inst.Slim());
      SliceOfTail(input[..], inp, off + r, n);
      ProgressBlock(goal, CipherText(inst, s, ct[off..]), CipherText(inst, state[..], ct[off + r..]), block, was, now, off, n);
      off := off + r;
    }
    ghost var now, s, rest := output[..], state[..], input[..][off..n];
    CipherTextStep(inst, s, rest);
    DomainInPlace(inst, state, if n - off < r then 2 else 3);
    RhoWhiDecLast(inst, state, output, input, off, n);
    SpongeInPlace(inst, state, inst.Big());
    ProgressEnd(goal, CipherText(inst, s, rest), was, now, off, n);
  }

  // ----- the AEAD interface -----

  /** `Initialize` */
  method Initialize(inst: Instance, key: array<Byte>, nonce: array<Byte>) returns (state: array<Word>)
    requires key.Length == 4 * inst.CapWords() && nonce.Length == inst.Rate()
    ensures fresh(state) && state[..] == Initial(inst, key[..], nonce[..])
  {
    hide WordsOf; hide Sponge;
    state := AsWords(nonce[..] + key[..]);
    WordsOfConcat(nonce[..], key[..]);
    SpongeInPlace(inst, state, inst.Big());
  }

  lemma WordsOfConcat(a: seq<Byte>, b: seq<Byte>)
    requires |a| % 4 == 0 && |b| % 4 == 0
    ensures WordsOf(a + b) == WordsOf(a) + WordsOf(b)
  {
    hide Pack;
  }

  /** `Finalize`: the key is added to the capacity part. */
  method Finalize(inst: Instance, state: array<Word>, key: array<Byte>)
    requires inst.Fits(state[..]) && key.Length == 4 * inst.CapWords()
    modifies state
    ensures inst.Fits(state[..])
    ensures state[inst.RateWords()..] == XorWords(old(state[inst.RateWords()..]), WordsOf(key[..]))
  {
    hide Xor; hide WordsOf;
    var buffer := AsWords(key[..]);
    ghost var s := state[..];
    var r := inst.RateWords();
    for i := 0 to inst.CapWords()
      invariant buffer[..] == WordsOf(key[..])
      invariant forall k {:trigger state[k]} :: r <= k < |s| ==> state[k] == if k < r + i then Xor(s[k], buffer[k - r]) else s[k]
    {
      state[r + i] := Xor(state[r + i], buffer[i]);
    }
    ghost var goal := XorWords(s[r..], WordsOf(key[..]));
    forall i | 0 <= i < |goal| ensures state[r..][i] == goal[i] {
      assert state[r + i] == Xor(s[r + i], buffer[i]) && buffer[i] == buffer[..][i];
    }
    assert s[r..] == old(state[r..]);
  }

  lemma {:induction false} OrIsZero(a: nat, b: nat)
    ensures Bits.Or(a, b) == 0 <==> a == 0 && b == 0
    decreases a + b
  {
    if a > 0 && b > 0 { OrIsZero(a / 2, b / 2); }
  }

  lemma XorIsZero(a: Word, b: Word)
    ensures Xor(a, b) == 0 <==> a == b
  {
    hide Xor;
    XorCancels(a, b);
    XorLaws(b, 0, b);
    XorLaws(a, b, b);
    XorLaws(0, b, b);
  }

  /** `VerifyTag`: 0 exactly when the tag is the capacity part, -1 otherwise. */
  method VerifyTag(inst: Instance, state: array<Word>, tag: seq<Byte>) returns (ret: int)
    requires inst.Fits(state[..]) && |tag| == 4 * inst.CapWords()
    ensures ret == if BytesOf(state[inst.RateWords()..]) == tag then 0 else -1
  {
    hide *;
    FitsIs(inst, state[..]);
    var buffer := WordsOf(tag);
    var r := inst.RateWords();
    var diff: nat := 0;
    for i := 0 to inst.CapWords()
      invariant diff == 0 <==> forall k :: 0 <= k < i ==> state[r + k] == buffer[k]
    {
      OrIsZero(diff, Xor(state[r + i], buffer[i]));
      XorIsZero(state[r + i], buffer[i]);
      diff := Bits.Or(diff, Xor(state[r + i], buffer[i]));
    }
    ghost var cap := state[r..];
    assert diff == 0 <==> cap == buffer;
    WordsOfBytesOf(cap);
    BytesOfWordsOf(tag);
    ret := (if diff == 0 then 1 else 0) - 1;
  }

  lemma EncryptIs(inst: Instance, key: seq<Byte>, nonce: seq<Byte>, ad: seq<Byte>, msg: seq<Byte>)
    requires |key| == 4 * inst.CapWords() && |nonce| == inst.Rate()
    ensures var s := Opened(inst, key, nonce, ad);
      var o := if |msg| != 0 then PlainText(inst, s, msg) else Out(s, []);
      Encrypt(inst, key, nonce, ad, msg) == o.bytes + Tag(inst, o.state, key)
  {
    hide PlainText; hide Opened; hide Tag;
  }

  lemma DecryptIs(inst: Instance, key: seq<Byte>, nonce: seq<Byte>, ad: seq<Byte>, c: seq<Byte>)
    requires |key| == 4 * inst.CapWords() && |nonce| == inst.Rate() && |c| >= 4 * inst.CapWords()
    ensures var n := |c| - 4 * inst.CapWords();
      var s := Opened(inst, key, nonce, ad);
      var o := if n != 0 then CipherText(inst, s, c[..n]) else Out(s, []);
      Decrypt(inst, key, nonce, ad, c) == Opening(Tag(inst, o.state, key) == c[n..], o.bytes)
  {
    hide CipherText; hide Opened; hide Tag;
  }

  /** Key, nonce and associated data. */
  method Open(inst: Instance, key: array<Byte>, nonce: array<Byte>, ad: array<Byte>) returns (state: array<Word>)
    requires key.Length == 4 * inst.CapWords() && nonce.Length == inst.Rate()
    ensures fresh(state) && state[..] == Opened(inst, key[..], nonce[..], ad[..])
  {
    hide AssocData; hide Initial;
    state := Initialize(inst, key, nonce);
    if ad.Length != 0 {
      ProcessAssocData(inst, state, ad);
    }
  }

  lemma TagIs(inst: Instance, s: seq<Word>, key: seq<Byte>)
    requires inst.Fits(s) && |key| == 4 * inst.CapWords()
    ensures Tag(inst, s, key) == BytesOf(XorWords(s[inst.RateWords()..], WordsOf(key)))
  {
    hide BytesOf; hide XorWords; hide WordsOf;
  }

  /** `crypto_aead_encrypt`: the message array may be the output array; the key is read again after the
      ciphertext is written, so it may not. */
  method AeadEncrypt(inst: Instance, c: array<Byte>, m: array<Byte>, mlen: nat, ad: array<Byte>, npub: array<Byte>, k: array<Byte>)
    returns (clen: nat, ret: int)
    requires k.Length == 4 * inst.CapWords() && npub.Length == inst.Rate() && k != c
    requires mlen <= m.Length && mlen + 4 * inst.CapWords() <= c.Length
    modifies c
    ensures ret == 0 && clen == mlen + 4 * inst.CapWords()
    ensures c[..clen] == Encrypt(inst, k[..], old(npub[..]), old(ad[..]), old(m[..mlen]))
    ensures c[clen..] == old(c[clen..])
  {
    hide *;
    ghost var msg, was := m[..mlen], c[..];
    EncryptIs(inst, k[..], npub[..], ad[..], msg);
    var state := Open(inst, k, npub, ad);
    ghost var s := state[..];
    ghost var o := if mlen != 0 then PlainText(inst, s, msg) else Out(s, []);
    if mlen != 0 {
      ProcessPlainText(inst, state, c, m, mlen);
    }
    assert c[..] == o.bytes + was[mlen..] && state[..] == o.state;
    TagIs(inst, o.state, k[..]);
    FitsIs(inst, o.state);
    assert state[inst.RateWords()..] == o.state[inst.RateWords()..];
    Finalize(inst, state, k);
    var tag := BytesOf(state[inst.RateWords()..]);
    ghost var now := c[..];
    CopyOut(c, mlen, tag);
    clen := mlen + 4 * inst.CapWords();
    ret := 0;
    AppendTag(o.bytes, tag, was, now, c[..], mlen);
    assert was[clen..] == old(c[clen..]);
  }

  lemma AppendTag(ct: seq<Byte>, tag: seq<Byte>, was: seq<Byte>, now: seq<Byte>, out: seq<Byte>, n: nat)
    requires n == |ct| && n + |tag| <= |was| == |now| == |out|
    requires now == ct + was[n..] && out == Written(now, n, tag)
    ensures out[..n + |tag|] == ct + tag && out[n + |tag|..] == was[n + |tag|..]
  {
  }

  /** `crypto_aead_decrypt`: the message is written in any case; the result is 0 exactly when the tag matches. */
  method AeadDecrypt(inst: Instance, m: array<Byte>, c: array<Byte>, clen: nat, ad: array<Byte>, npub: array<Byte>, k: array<Byte>)
    returns (mlen: nat, ret: int)
    requires k.Length == 4 * inst.CapWords() && npub.Length == inst.Rate() && k != m
    requires 4 * inst.CapWords() <= clen <= c.Length && clen - 4 * inst.CapWords() <= m.Length
    modifies m
    ensures mlen == clen - 4 * inst.CapWords()
    ensures var d := Decrypt(inst, k[..], old(npub[..]), old(ad[..]), old(c[..clen]));
      m[..mlen] == d.msg && ret == if d.accepted then 0 else -1
    ensures m[mlen..] == old(m[mlen..])
  {
    hide *;
    mlen := clen - 4 * inst.CapWords();
    ghost var ct, was := c[..clen], m[..];
    assert ct[..mlen] == c[..mlen];
    DecryptIs(inst, k[..], npub[..], ad[..], ct);
    var state := Open(inst, k, npub, ad);
    ghost var s := state[..];
    ghost var o := if mlen != 0 then CipherText(inst, s, ct[..mlen]) else Out(s, []);
    if mlen != 0 {
      ProcessCipherText(inst, state, m, c, mlen);
    }
    assert m[..] == o.bytes + was[mlen..] && state[..] == o.state;
    assert c[mlen..clen] == ct[mlen..];
    TagIs(inst, o.state, k[..]);
    FitsIs(inst, o.state);
    assert state[inst.RateWords()..] == o.state[inst.RateWords()..];
    Finalize(inst, state, k);
    ret := VerifyTag(inst, state, c[mlen..clen]);
  }

  /** Encrypting a buffer in place and decrypting it in place restores it and reports success. */
  method AeadRoundTrip(inst: Instance, buf: array<Byte>, mlen: nat, ad: array<Byte>, npub: array<Byte>, k: array<Byte>)
    returns (ret: int)
    requires k.Length == 4 * inst.CapWords() && npub.Length == inst.Rate()
    requires k != buf && ad != buf && npub != buf
    requires mlen + 4 * inst.CapWords() <= buf.Length
    modifies buf
    ensures ret == 0 && buf[..mlen] == old(buf[..mlen])
  {
    hide *;
    DecryptInverts(inst, k[..], npub[..], ad[..], buf[..mlen]);
    var clen, _ := AeadEncrypt(inst, buf, buf, mlen, ad, npub, k);
    var n;
    n, ret := AeadDecrypt(inst, buf, buf, clen, ad, npub, k);
  }
}
