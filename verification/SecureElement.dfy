/** The secure element at the level of bytes: `SEstart`, `SEinput` and `SEeval` of runtime/SEalgo.c with the
    real SCHWAEMM256-128. The hash and the sealed box of the header are parameters; where the C code exits,
    the result is `None`. */
module SecureElement {
  import opened Options
  import opened IR
  import opened ByteView
  import opened BigEndian
  import opened LlsCode
  import opened Bytecode
  import Schwaemm

  type Hash = f: seq<Byte> -> seq<Byte> | forall x :: |f(x)| == 32 witness (x => seq(32, _ => 0))

  /** The hash, the element's secret key, and the opening of a sealed box with its private key. */
  datatype Element = Element(hash: Hash, key: Key, open: seq<Byte> -> Option<Key>)

  // ----- building blocks -----

  function HashWithPrefix(e: Element, prefix: nat, msg: seq<Byte>): (h: seq<Byte>)
    ensures |h| == 32
  {
    e.hash(ToBytes(prefix, 4) + msg)
  }

  /** `hashchain`: the previous hash and the batch, as bytes. */
  function HashChain(e: Element, hp: seq<Byte>, x: seq<Word>): (h: seq<Byte>)
    ensures |h| == 32
  {
    e.hash(hp + NumsBytes(x, 4))
  }

  /** Decryption as the callers use it: a message, or an exit. */
  function Opened(key: Key, nonce: seq<Byte>, ad: seq<Byte>, c: seq<Byte>): (r: Option<seq<Byte>>)
    requires |nonce| == 32
  {
    if |c| < 16 then None
    else var d := Schwaemm.Decrypt(Aead, key, nonce, ad, c); if d.accepted then Some(d.msg) else None
  }

  function Enclosed(key: Key, nonce: seq<Byte>, ad: seq<Byte>, msg: seq<Byte>): (c: seq<Byte>)
    requires |nonce| == 32
    ensures |c| == |msg| + 16
  {
    Schwaemm.Encrypt(Aead, key, nonce, ad, msg)
  }

  lemma OpenEnclosed(key: Key, nonce: seq<Byte>, ad: seq<Byte>, msg: seq<Byte>)
    requires |nonce| == 32
    ensures Opened(key, nonce, ad, Enclosed(key, nonce, ad, msg)) == Some(msg)
  {
    hide Schwaemm.Decrypt; hide Schwaemm.Encrypt;
    Schwaemm.DecryptInverts(Aead, key, nonce, ad, msg);
  }

  // ----- the three kinds of ciphertext under the element's key -----

  function WordAd(exec: seq<Byte>, id: Id): seq<Byte> {
    ToBytes(id.instr, 4) + ToBytes(id.out, 4) + exec
  }

  function WordNonce(e: Element, exec: seq<Byte>, id: Id): (n: seq<Byte>)
    ensures |n| == 32
  {
    HashWithPrefix(e, 3, WordAd(exec, id))
  }

  function EncWord(e: Element, exec: seq<Byte>, id: Id, w: Word): (c: seq<Byte>)
    ensures |c| == 20
  {
    Enclosed(e.key, WordNonce(e, exec, id), WordAd(exec, id), ToBytes(w, 4))
  }

  function DecWord(e: Element, exec: seq<Byte>, id: Id, c: seq<Byte>): Option<Word> {
    match Opened(e.key, WordNonce(e, exec, id), WordAd(exec, id), c)
    case None => None
    case Some(m) => if |m| == 4 then LoadU32(m) else None
  }

  lemma WordRoundTrip(e: Element, exec: seq<Byte>, id: Id, w: Word)
    ensures DecWord(e, exec, id, EncWord(e, exec, id, w)) == Some(w)
    ensures LoadU32(ToBytes(w, 4)) == Some(w)
  {
    hide Opened; hide Enclosed; hide ToBytes; hide LoadU32; hide FromBytes; hide Pow256;
    OpenEnclosed(e.key, WordNonce(e, exec, id), WordAd(exec, id), ToBytes(w, 4));
    Pow256Of3();
    FromToBytes(w, 4);
    LoadU32Is(ToBytes(w, 4));
  }

  function TokenAd(h: seq<Byte>, i: nat, exec: seq<Byte>): seq<Byte> {
    h + ToBytes(i, 4) + exec
  }

  function TokenNonce(e: Element, i: nat, exec: seq<Byte>): (n: seq<Byte>)
    ensures |n| == 32
  {
    HashWithPrefix(e, 2, exec + ToBytes(i, 4))
  }

  /** C_i^in: a ciphertext of nothing, bound to a hash, an index and an execution. */
  function Token(e: Element, h: seq<Byte>, i: nat, exec: seq<Byte>): (c: seq<Byte>)
    ensures |c| == 16
  {
    Enclosed(e.key, TokenNonce(e, i, exec), TokenAd(h, i, exec), [])
  }

  function KeyNonce(e: Element, exec: seq<Byte>): (n: seq<Byte>)
    ensures |n| == 32
  {
    HashWithPrefix(e, 1, exec)
  }

  function KeyOpened(e: Element, exec: seq<Byte>, ekey: seq<Byte>): Option<Key> {
    match Opened(e.key, KeyNonce(e, exec), [], ekey)
    case None => None
    case Some(k) => if |k| == 16 then var key: Key := k; Some(key) else None
  }

  // ----- SEstart -----

  function ExecId(e: Element, header: seq<Byte>, hash: seq<Byte>): (h: seq<Byte>)
    ensures |h| == 32
  {
    HashWithPrefix(e, 0, hash + header)
  }

  /** `ceil(n / l_out)` in 32-bit arithmetic. */
  function BatchCount(n: Word, lout: nat): nat
    requires lout >= 1
  {
    ((n + lout - 1) % 0x1_0000_0000) / lout
  }

  datatype Started = Started(esharedkey: seq<Byte>, execId: seq<Byte>, cin: seq<Byte>)

  /** `SEstart`: the header is the sealed key followed by the number of inputs. */
  function SeStart(e: Element, lout: nat, header: seq<Byte>, hash: seq<Byte>): (r: Option<Started>)
    requires lout >= 1 && |header| >= 64
  {
    var exec := ExecId(e, header, hash);
    match e.open(header[..64]) case None => None case Some(sharedKey) =>
    match LoadU32(header[64..]) case None => None case Some(n) =>
    Some(Started(Enclosed(e.key, KeyNonce(e, exec), [], sharedKey), exec, Token(e, hash, BatchCount(n, lout), exec)))
  }

  // ----- SEinput -----

  method IsZero(h: seq<Byte>) returns (zero: bool)
    ensures zero <==> forall j :: 0 <= j < |h| ==> h[j] == 0
  {
    var sum: nat := 0;
    for j := 0 to |h|
      invariant sum == 0 <==> forall k :: 0 <= k < j ==> h[k] == 0
    {
      sum := sum + h[j];
    }
    zero := sum == 0;
  }

  /** When `SEinput` accepts a call. */
  ghost predicate InputAccepted(e: Element, exec: seq<Byte>, i: nat, hp: seq<Byte>, x: seq<Word>, cinc: seq<Byte>) {
    && i >= 1 && (i == 1 ==> forall j :: 0 <= j < |hp| ==> hp[j] == 0)
    && Opened(e.key, TokenNonce(e, i, exec), TokenAd(HashChain(e, hp, x), i, exec), cinc) == Some([])
  }

  /** `SEinput`: the next token and one encrypted word per word of the batch. */
  method SeInput(e: Element, exec: seq<Byte>, i: nat, hp: seq<Byte>, x: seq<Word>, cinc: seq<Byte>)
    returns (r: Option<(seq<Byte>, seq<seq<Byte>>)>)
    ensures r.Some? <==> InputAccepted(e, exec, i, hp, x, cinc)
    ensures r.Some? ==> r.value.0 == Token(e, hp, i - 1, exec) && |r.value.1| == |x|
    ensures r.Some? ==> forall j :: 0 <= j < |x| ==> r.value.1[j] == EncWord(e, exec, Id(i, j), x[j])
  {
    hide Opened; hide Token; hide EncWord; hide TokenAd; hide HashChain; hide TokenNonce;
    if i < 1 { return None; }
    if i == 1 {
      var zero := IsZero(hp);
      if !zero { return None; }
    }
    var hc := HashChain(e, hp, x);
    var m := Opened(e.key, TokenNonce(e, i, exec), TokenAd(hc, i, exec), cinc);
    if m != Some([]) { return None; }
    var cinp := Token(e, hp, i - 1, exec);
    var c: seq<seq<Byte>> := [];
    for j := 0 to |x|
      invariant |c| == j && forall k :: 0 <= k < j ==> c[k] == EncWord(e, exec, Id(i, k), x[k])
    {
      c := c + [EncWord(e, exec, Id(i, j), x[j])];
    }
    return Some((cinp, c));
  }

  /** The token that belongs to a batch is accepted with that batch. */
  lemma TokenAccepted(e: Element, exec: seq<Byte>, i: nat, hp: seq<Byte>, x: seq<Word>)
    requires i >= 1 && (i == 1 ==> forall j :: 0 <= j < |hp| ==> hp[j] == 0)
    ensures InputAccepted(e, exec, i, hp, x, Token(e, HashChain(e, hp, x), i, exec))
  {
    hide Opened; hide Enclosed; hide TokenAd; hide HashChain; hide TokenNonce;
    OpenEnclosed(e.key, TokenNonce(e, i, exec), TokenAd(HashChain(e, hp, x), i, exec), []);
  }

  // ----- SEeval -----

  /** `LLS_decrypt`: a zero nonce ending in the instruction's number; the associated data is rebuilt. */
  function LlsNonce(instrId: nat): (n: seq<Byte>)
    ensures |n| == 32
  {
    seq(28, _ => 0) + ToBytes(instrId, 4)
  }

  function LlsDecrypt(mi: Mi, sharedKey: Key, lbm: nat, lbo: nat): Option<seq<Byte>> {
    Opened(sharedKey, LlsNonce(mi.instrId), AdBytes(mi.instrId, mi.flag, mi.ids, |mi.outs|, lbm, lbo), mi.code)
  }

  /** Both sides use the same nonce. */
  lemma LlsNonceIs(instrId: nat)
    requires instrId < Pow256(4)
    ensures LlsNonce(instrId) == ToBytes(instrId, 32)
  {
    hide ToBytes; hide Pow256;
    Leading(instrId, 4, 28);
  }

  lemma {:induction false} Leading(n: nat, width: nat, more: nat)
    requires n < Pow256(width)
    ensures ToBytes(n, width + more) == seq(more, _ => 0) + ToBytes(n, width)
    decreases width
  {
    if width == 0 {
      LeadingZeros(more);
    } else {
      Leading(n / 256, width - 1, more);
    }
  }

  lemma {:induction false} LeadingZeros(more: nat)
    ensures ToBytes(0, more) == seq(more, _ => 0)
  {
    if more > 0 { LeadingZeros(more - 1); }
  }

  /** The words of the inputs, or an exit when one does not open. */
  ghost predicate Opens(e: Element, exec: seq<Byte>, ids: seq<Id>, cx: seq<seq<Byte>>, vs: seq<Word>) {
    |ids| == |cx| == |vs| && forall j :: 0 <= j < |ids| ==> DecWord(e, exec, ids[j], cx[j]) == Some(vs[j])
  }

  /** `EWORD_decrypt`: the words are loaded into the first registers. */
  method LoadWords(e: Element, exec: seq<Byte>, ids: seq<Id>, cx: seq<seq<Byte>>, reg: array<Word>) returns (ok: bool, ghost vs: seq<Word>)
    requires |cx| == |ids|
    modifies reg
    ensures ok ==> Opens(e, exec, ids, cx, vs) && |ids| <= reg.Length && reg[..] == vs + old(reg[..])[|ids|..]
    ensures !ok ==> |ids| > reg.Length || exists j :: 0 <= j < |ids| && DecWord(e, exec, ids[j], cx[j]).None?
  {
    hide *;
    vs := [];
    if |ids| > reg.Length { return false, vs; }
    ghost var before := reg[..];
    OpensNone(e, exec, ids, cx);
    for i := 0 to |ids|
      invariant |vs| == i && Opens(e, exec, ids[..i], cx[..i], vs)
      invariant reg[..] == vs + before[i..]
    {
      var word := DecWord(e, exec, ids[i], cx[i]);
      if word.None? { return false, vs; }
      OpensNext(e, exec, ids, cx, vs, i);
      NextRegister(vs, before, i, word.value);
      ghost var held := reg[..];
      reg[i] := word.value;
      assert reg[..] == held[i := word.value];
      vs := vs + [word.value];
    }
    assert ids[..|ids|] == ids && cx[..|cx|] == cx;
    return true, vs;
  }

  lemma NextRegister(vs: seq<Word>, before: seq<Word>, i: nat, w: Word)
    requires i < |before| && |vs| == i
    ensures (vs + before[i..])[i := w] == vs + [w] + before[i + 1..]
  {
  }

  lemma OpensNone(e: Element, exec: seq<Byte>, ids: seq<Id>, cx: seq<seq<Byte>>)
    ensures Opens(e, exec, ids[..0], cx[..0], [])
  {
  }

  lemma OpensNext(e: Element, exec: seq<Byte>, ids: seq<Id>, cx: seq<seq<Byte>>, vs: seq<Word>, i: nat)
    requires i < |ids| == |cx| && |vs| == i && Opens(e, exec, ids[..i], cx[..i], vs) && DecWord(e, exec, ids[i], cx[i]).Some?
    ensures Opens(e, exec, ids[..i + 1], cx[..i + 1], vs + [DecWord(e, exec, ids[i], cx[i]).value])
  {
    hide DecWord;
  }

  /** `EWORD_encrypt` and `EWORD_encode`: the last registers, encrypted, or in clear over what the buffer held. */
  method StoreWords(e: Element, exec: seq<Byte>, mi: Mi, lout: nat, regs: seq<Word>, buffer: seq<seq<Byte>>) returns (cr: seq<seq<Byte>>)
    requires |mi.outs| <= lout <= |regs| && |buffer| == |mi.outs| && forall j :: 0 <= j < |buffer| ==> |buffer[j]| == 20
    ensures |cr| == |mi.outs|
    ensures forall j :: 0 <= j < |cr| ==> Holds(e, exec, Id(mi.instrId, j), mi.flag != 0, regs[|regs| - lout + j], cr[j])
  {
    hide EncWord; hide ToBytes;
    cr := [];
    for i := 0 to |mi.outs|
      invariant |cr| == i && forall j :: 0 <= j < i ==> Holds(e, exec, Id(mi.instrId, j), mi.flag != 0, regs[|regs| - lout + j], cr[j])
    {
      var w := regs[|regs| - lout + i];
      if mi.flag != 0 {
        var bytes := ToBytes(w, 4) + buffer[i][4..];
        assert bytes[..4] == ToBytes(w, 4);
        cr := cr + [bytes];
      } else {
        cr := cr + [EncWord(e, exec, Id(mi.instrId, i), w)];
      }
    }
  }

  /** A memory cell holds a word: in clear, or encrypted under its ID. */
  ghost predicate Holds(e: Element, exec: seq<Byte>, id: Id, clear: bool, w: Word, cell: seq<Byte>) {
    |cell| == 20 && if clear then cell[..4] == ToBytes(w, 4) else cell == EncWord(e, exec, id, w)
  }

  /** What multi-instruction `mi` computes from input words and the initial contents of the registers. */
  ghost function Evaluated(ops: Ops, codes: seq<Code>, lout: nat, nout: nat, vs: seq<Word>, garbage: seq<Word>): (r: seq<Word>)
    requires |vs| <= |garbage| && nout <= lout <= |garbage| && AllInRange(codes, |garbage|)
    ensures |r| == nout
  {
    var regs := vs + garbage[|vs|..];
    var end := Execute(ops, codes, regs);
    end[|regs| - lout..][..nout]
  }

  /** Every decryption succeeds, and the decrypted sequence `codes` is accepted. */
  ghost predicate EvalOpens(e: Element, cfg: Config, lbm: nat, exec: seq<Byte>, ekey: seq<Byte>, mi: Mi, cx: seq<seq<Byte>>,
                            codes: seq<Code>, vs: seq<Word>)
  {
    exists sharedKey: Key, code: seq<Byte> ::
      && KeyOpened(e, exec, ekey) == Some(sharedKey)
      && LlsDecrypt(mi, sharedKey, lbm, cfg.LbO()) == Some(code)
      && Decode(code, 0, WidthOf(cfg.r)) == Some(codes) && Accepts(Some(codes), cfg.s, cfg.r)
      && Opens(e, exec, mi.ids, cx, vs)
  }

  ghost predicate CanOpen(e: Element, cfg: Config, lbm: nat, exec: seq<Byte>, ekey: seq<Byte>, mi: Mi, cx: seq<seq<Byte>>) {
    exists codes, vs :: EvalOpens(e, cfg, lbm, exec, ekey, mi, cx, codes, vs)
  }

  /** The sizes for which no register is addressed outside the file. */
  predicate EvalFits(cfg: Config, mi: Mi) {
    |mi.ids| <= cfg.r && |mi.outs| <= cfg.lout <= cfg.r
  }

  /** `SEeval`: succeeds exactly when everything opens, and then the cells hold what the decrypted sequence
      computes. `garbage` is what the registers held when they were allocated. */
  method SeEval(e: Element, ops: Ops, cfg: Config, lbm: nat, exec: seq<Byte>, ekey: seq<Byte>, mi: Mi, cx: seq<seq<Byte>>, buffer: seq<seq<Byte>>)
    returns (r: Option<seq<seq<Byte>>>, ghost garbage: seq<Word>, ghost codes: seq<Code>, ghost vs: seq<Word>)
    requires |cx| == |mi.ids| && |buffer| == |mi.outs| && forall j :: 0 <= j < |buffer| ==> |buffer[j]| == 20
    ensures |garbage| == cfg.r
    ensures r.Some? ==> EvalDone(e, ops, cfg, lbm, exec, ekey, mi, cx, garbage, codes, vs, r.value)
    ensures r.None? ==> !(EvalFits(cfg, mi) && CanOpen(e, cfg, lbm, exec, ekey, mi, cx))
  {
    hide *;
    codes, vs := [], [];
    var reg := new Word[cfg.r];
    garbage := reg[..];
    FitsParts(cfg, mi);
    if |mi.ids| > cfg.r || |mi.outs| > cfg.lout || cfg.lout > cfg.r { return None, garbage, codes, vs; }
    var sharedKey := KeyOpened(e, exec, ekey);
    if sharedKey.None? {
      NoKey(e, cfg, lbm, exec, ekey, mi, cx);
      return None, garbage, codes, vs;
    }
    var code := LlsDecrypt(mi, sharedKey.value, lbm, cfg.LbO());
    if code.None? {
      NoCode(e, cfg, lbm, exec, ekey, mi, cx, sharedKey.value);
      return None, garbage, codes, vs;
    }
    var loaded;
    loaded, vs := LoadWords(e, exec, mi.ids, cx, reg);
    if !loaded {
      NoWords(e, cfg, lbm, exec, ekey, mi, cx);
      return None, garbage, codes, vs;
    }
    var ok;
    ok, codes := ExecuteCode(e, ops, cfg, lbm, exec, ekey, mi, cx, sharedKey.value, code.value, reg, vs);
    if !ok { return None, garbage, codes, vs; }
    var cr := StoreWords(e, exec, mi, cfg.lout, reg[..], buffer);
    MakeDone(e, ops, cfg, lbm, exec, ekey, mi, cx, garbage, codes, vs, reg[..], cr);
    return Some(cr), garbage, codes, vs;
  }

  /** The execution of the opened sequence on the loaded registers. */
  method ExecuteCode(ghost e: Element, ops: Ops, cfg: Config, ghost lbm: nat, ghost exec: seq<Byte>, ghost ekey: seq<Byte>, ghost mi: Mi, ghost cx: seq<seq<Byte>>,
                     ghost sharedKey: Key, code: seq<Byte>, reg: array<Word>, ghost vs: seq<Word>)
    returns (ok: bool, ghost codes: seq<Code>)
    requires reg.Length == cfg.r && |cx| == |mi.ids| && KeyOpened(e, exec, ekey) == Some(sharedKey) && LlsDecrypt(mi, sharedKey, lbm, cfg.LbO()) == Some(code) && Opens(e, exec, mi.ids, cx, vs)
    modifies reg
    ensures ok ==> EvalOpens(e, cfg, lbm, exec, ekey, mi, cx, codes, vs) && AllInRange(codes, cfg.r) && ExecutedTo(ops, codes, old(reg[..]), reg[..])
    ensures !ok ==> !CanOpen(e, cfg, lbm, exec, ekey, mi, cx)
  {
    hide *;
    codes := [];
    ghost var before := reg[..];
    ok := LlsExecute(ops, reg, code, WidthOf(cfg.r), cfg.s);
    ghost var d := Decode(code, 0, WidthOf(cfg.r));
    OpensAll(e, cfg, lbm, exec, ekey, mi, cx, sharedKey, code, vs);
    if ok {
      codes := d.value;
      MakeExecuted(ops, codes, before, reg[..]);
    }
  }

  /** A successful evaluation. */
  ghost predicate EvalDone(e: Element, ops: Ops, cfg: Config, lbm: nat, exec: seq<Byte>, ekey: seq<Byte>, mi: Mi, cx: seq<seq<Byte>>,
                           garbage: seq<Word>, codes: seq<Code>, vs: seq<Word>, cr: seq<seq<Byte>>)
  {
    && EvalFits(cfg, mi) && EvalOpens(e, cfg, lbm, exec, ekey, mi, cx, codes, vs)
    && |garbage| == cfg.r && |vs| == |mi.ids| && AllInRange(codes, cfg.r)
    && AllHold(e, exec, mi, Evaluated(ops, codes, cfg.lout, |mi.outs|, vs, garbage), cr)
  }

  ghost predicate ExecutedTo(ops: Ops, codes: seq<Code>, regs: seq<Word>, after: seq<Word>) {
    AllInRange(codes, |regs|) && after == Execute(ops, codes, regs)
  }

  lemma MakeDone(e: Element, ops: Ops, cfg: Config, lbm: nat, exec: seq<Byte>, ekey: seq<Byte>, mi: Mi, cx: seq<seq<Byte>>,
                 garbage: seq<Word>, codes: seq<Code>, vs: seq<Word>, regs: seq<Word>, cr: seq<seq<Byte>>)
    requires |garbage| == |regs| == cfg.r && |vs| == |mi.ids| && |cr| == |mi.outs| && |mi.ids| <= cfg.r && |mi.outs| <= cfg.lout <= cfg.r
    requires forall j :: 0 <= j < |cr| ==> Holds(e, exec, Id(mi.instrId, j), mi.flag != 0, regs[|regs| - cfg.lout + j], cr[j])
    requires EvalOpens(e, cfg, lbm, exec, ekey, mi, cx, codes, vs) && AllInRange(codes, cfg.r)
    requires ExecutedTo(ops, codes, vs + garbage[|vs|..], regs)
    ensures EvalDone(e, ops, cfg, lbm, exec, ekey, mi, cx, garbage, codes, vs, cr)
  {
    hide EvalOpens; hide AllInRange; hide Evaluated; hide Holds; hide Execute;
    EvaluatedAt(ops, codes, cfg.lout, |mi.outs|, vs, garbage);
  }

  ghost predicate AllHold(e: Element, exec: seq<Byte>, mi: Mi, ws: seq<Word>, cells: seq<seq<Byte>>) {
    |ws| == |cells| && forall j :: 0 <= j < |cells| ==> Holds(e, exec, Id(mi.instrId, j), mi.flag != 0, ws[j], cells[j])
  }

  lemma MakeExecuted(ops: Ops, codes: seq<Code>, regs: seq<Word>, after: seq<Word>)
    requires AllInRange(codes, |regs|) && after == Execute(ops, codes, regs)
    ensures ExecutedTo(ops, codes, regs, after)
  {
  }

  lemma FitsParts(cfg: Config, mi: Mi)
    ensures EvalFits(cfg, mi) <==> |mi.ids| <= cfg.r && |mi.outs| <= cfg.lout <= cfg.r
  {
  }

  lemma NoKey(e: Element, cfg: Config, lbm: nat, exec: seq<Byte>, ekey: seq<Byte>, mi: Mi, cx: seq<seq<Byte>>)
    requires KeyOpened(e, exec, ekey).None?
    ensures !CanOpen(e, cfg, lbm, exec, ekey, mi, cx)
  {
    hide KeyOpened; hide Accepts; hide Decode; hide Opens; hide LlsDecrypt;
  }

  lemma NoCode(e: Element, cfg: Config, lbm: nat, exec: seq<Byte>, ekey: seq<Byte>, mi: Mi, cx: seq<seq<Byte>>, key: Key)
    requires KeyOpened(e, exec, ekey) == Some(key) && LlsDecrypt(mi, key, lbm, cfg.LbO()).None?
    ensures !CanOpen(e, cfg, lbm, exec, ekey, mi, cx)
  {
    hide KeyOpened; hide Accepts; hide Decode; hide Opens; hide LlsDecrypt;
  }

  lemma NoWords(e: Element, cfg: Config, lbm: nat, exec: seq<Byte>, ekey: seq<Byte>, mi: Mi, cx: seq<seq<Byte>>)
    requires |cx| == |mi.ids| && exists j :: 0 <= j < |mi.ids| && DecWord(e, exec, mi.ids[j], cx[j]).None?
    ensures !CanOpen(e, cfg, lbm, exec, ekey, mi, cx)
  {
    hide KeyOpened; hide Accepts; hide Decode; hide DecWord; hide LlsDecrypt;
  }

  lemma OpensAll(e: Element, cfg: Config, lbm: nat, exec: seq<Byte>, ekey: seq<Byte>, mi: Mi, cx: seq<seq<Byte>>, key: Key, code: seq<Byte>, vs: seq<Word>)
    requires KeyOpened(e, exec, ekey) == Some(key) && LlsDecrypt(mi, key, lbm, cfg.LbO()) == Some(code)
    requires Opens(e, exec, mi.ids, cx, vs)
    ensures |vs| == |mi.ids|
    ensures var d := Decode(code, 0, WidthOf(cfg.r));
      if Accepts(d, cfg.s, cfg.r)
      then d.Some? && AllInRange(d.value, cfg.r) && EvalOpens(e, cfg, lbm, exec, ekey, mi, cx, d.value, vs)
      else !CanOpen(e, cfg, lbm, exec, ekey, mi, cx)
  {
    hide KeyOpened; hide Decode; hide DecWord; hide LlsDecrypt; hide AllInRange; hide WidthOf; hide Opens;
    assert Opens(e, exec, mi.ids, cx, vs) ==> |vs| == |mi.ids| by { OpensSize(e, exec, mi.ids, cx, vs); }
  }

  lemma OpensSize(e: Element, exec: seq<Byte>, ids: seq<Id>, cx: seq<seq<Byte>>, vs: seq<Word>)
    ensures Opens(e, exec, ids, cx, vs) ==> |vs| == |ids|
  {
  }

  /** What opens is determined by the ciphertexts. */
  lemma OpensUnique(e: Element, cfg: Config, lbm: nat, exec: seq<Byte>, ekey: seq<Byte>, mi: Mi, cx: seq<seq<Byte>>,
                    codes: seq<Code>, vs: seq<Word>, cs: seq<Code>, us: seq<Word>)
    requires EvalOpens(e, cfg, lbm, exec, ekey, mi, cx, codes, vs) && EvalOpens(e, cfg, lbm, exec, ekey, mi, cx, cs, us)
    ensures codes == cs && vs == us
  {
    hide KeyOpened; hide Decode; hide DecWord; hide LlsDecrypt; hide AllInRange; hide WidthOf; hide Accepts;
    forall j | 0 <= j < |vs| ensures us[j] == vs[j] {
      assert DecWord(e, exec, mi.ids[j], cx[j]) == Some(vs[j]);
    }
  }

  lemma EvaluatedAt(ops: Ops, codes: seq<Code>, lout: nat, nout: nat, vs: seq<Word>, garbage: seq<Word>)
    requires |vs| <= |garbage| && nout <= lout <= |garbage| && AllInRange(codes, |garbage|)
    ensures var regs := vs + garbage[|vs|..];
      |regs| == |garbage| && forall j :: 0 <= j < nout ==> Evaluated(ops, codes, lout, nout, vs, garbage)[j] == Execute(ops, codes, regs)[|regs| - lout + j]
  {
    hide Execute; hide AllInRange;
  }
}
