/** The bytes behind the symbolic protocol: a symbolic hash, ciphertext or call has an image, and whenever a symbolic call is
    answered, the functions of the secure element answer the images. */
module SymbolicImage {
  import opened Options
  import opened IR
  import opened ByteView
  import opened BigEndian
  import opened Bytecode
  import opened SecureElement
  import LlsCode
  import P = SeProtocol

  type Bytes32 = b: seq<Byte> | |b| == 32 witness seq(32, _ => 0)

  /** What the symbols stand for: sealed boxes, shared keys, sequences, and hashes and keys from elsewhere. */
  datatype Setup = Setup(
    e: Element, wd: P.World, cfg: Config, lbm: nat, ops: Ops,
    box: nat -> seq<Byte>, key: nat -> Key, code: nat -> seq<Byte>, other: nat -> Bytes32, foreign: nat -> Key)

  ghost predicate SetupOk(S: Setup) {
    && S.wd.lout == S.cfg.lout >= 1 && 1 <= S.lbm <= 4
    && forall sk :: |S.box(sk)| == 64 && S.e.open(S.box(sk)) == match S.wd.open(sk) case None => None case Some(k) => Some(S.key(k))
  }

  // ----- images -----

  function HeaderImage(S: Setup, header: P.Header): seq<Byte> {
    S.box(header.sealedKey) + ToBytes(header.inputCount, S.lbm)
  }

  function HashImage(S: Setup, h: P.Hash): (r: seq<Byte>)
    ensures |r| == 32
  {
    match h
    case Zero => seq<Byte>(32, _ => 0)
    case Chain(prev, batch) => HashChain(S.e, HashImage(S, prev), batch)
    case ExecId(last, header) => ExecId(S.e, HeaderImage(S, header), HashImage(S, last))
    case KeyNonce(exec) => KeyNonce(S.e, HashImage(S, exec))
    case TokenNonce(exec, i) => TokenNonce(S.e, i, HashImage(S, exec))
    case WordNonce(instr, out, exec) => WordNonce(S.e, HashImage(S, exec), Id(instr, out))
    case CodeNonce(instr) => LlsNonce(instr)
    case Other(n) => S.other(n)
  }

  function AdImage(S: Setup, ad: P.Ad): seq<Byte> {
    match ad
    case NoAd => []
    case TokenAd(h, i, exec) => TokenAd(HashImage(S, h), i, HashImage(S, exec))
    case WordAd(instr, out, exec) => WordAd(HashImage(S, exec), Id(instr, out))
    case CodeAd(instr, revealed, ids, nout) => AdBytes(instr, if revealed then 1 else 0, ids, nout, S.lbm, S.cfg.LbO())
  }

  function BodyImage(S: Setup, b: P.Body): seq<Byte> {
    match b
    case Empty => []
    case OneWord(w) => ToBytes(w, 4)
    case SharedKey(k) => S.key(k)
    case CodeBody(c) => S.code(c)
  }

  function KeyImage(S: Setup, k: P.KeyName): Key {
    match k case ElementKey => S.e.key case Shared(i) => S.key(i) case Foreign(n) => S.foreign(n)
  }

  function CipherImage(S: Setup, c: P.Cipher): seq<Byte> {
    Enclosed(KeyImage(S, c.key), HashImage(S, c.nonce), AdImage(S, c.ad), BodyImage(S, c.body))
  }

  // ----- the ciphertexts of the element -----

  lemma CipherImageIs(S: Setup, key: P.KeyName, nonce: P.Hash, ad: P.Ad, body: P.Body)
    ensures CipherImage(S, P.Cipher(key, nonce, ad, body)) == Enclosed(KeyImage(S, key), HashImage(S, nonce), AdImage(S, ad), BodyImage(S, body))
  {
    hide Enclosed; hide KeyImage; hide HashImage; hide AdImage; hide BodyImage;
  }

  lemma NonceImages(S: Setup, exec: P.Hash, i: nat, out: nat)
    ensures HashImage(S, P.TokenNonce(exec, i)) == TokenNonce(S.e, i, HashImage(S, exec))
    ensures HashImage(S, P.WordNonce(i, out, exec)) == WordNonce(S.e, HashImage(S, exec), Id(i, out))
    ensures HashImage(S, P.KeyNonce(exec)) == KeyNonce(S.e, HashImage(S, exec))
  {
    hide TokenNonce; hide WordNonce; hide KeyNonce;
  }

  lemma AdImages(S: Setup, h: P.Hash, exec: P.Hash, i: nat, out: nat)
    ensures AdImage(S, P.TokenAd(h, i, exec)) == TokenAd(HashImage(S, h), i, HashImage(S, exec))
    ensures AdImage(S, P.WordAd(i, out, exec)) == WordAd(HashImage(S, exec), Id(i, out)) && AdImage(S, P.NoAd) == []
  {
    hide TokenAd; hide WordAd; hide HashImage;
  }

  lemma PlainImages(S: Setup, k: nat, w: Word)
    ensures BodyImage(S, P.Empty) == [] && BodyImage(S, P.OneWord(w)) == ToBytes(w, 4) && BodyImage(S, P.SharedKey(k)) == S.key(k) && KeyImage(S, P.ElementKey) == S.e.key
  {
    hide ToBytes;
  }

  lemma TokenIs(e: Element, h: seq<Byte>, i: nat, exec: seq<Byte>, id: Id, w: Word)
    ensures Token(e, h, i, exec) == Enclosed(e.key, TokenNonce(e, i, exec), TokenAd(h, i, exec), [])
    ensures EncWord(e, exec, id, w) == Enclosed(e.key, WordNonce(e, exec, id), WordAd(exec, id), ToBytes(w, 4))
  {
    hide Enclosed; hide TokenAd; hide TokenNonce; hide WordAd; hide WordNonce; hide ToBytes;
  }

  lemma SymbolicCiphers(h: P.Hash, i: nat, out: nat, exec: P.Hash, w: Word, k: nat)
    ensures P.Token(h, i, exec) == P.Cipher(P.ElementKey, P.TokenNonce(exec, i), P.TokenAd(h, i, exec), P.Empty)
    ensures P.WordCipher(i, out, exec, w) == P.Cipher(P.ElementKey, P.WordNonce(i, out, exec), P.WordAd(i, out, exec), P.OneWord(w))
    ensures KeyCipher(exec, k) == P.Cipher(P.ElementKey, P.KeyNonce(exec), P.NoAd, P.SharedKey(k))
  {
  }

  lemma TokenImage(S: Setup, h: P.Hash, i: nat, exec: P.Hash)
    ensures CipherImage(S, P.Token(h, i, exec)) == Token(S.e, HashImage(S, h), i, HashImage(S, exec))
  {
    hide *;
    SymbolicCiphers(h, i, 0, exec, 0, 0);
    CipherImageIs(S, P.ElementKey, P.TokenNonce(exec, i), P.TokenAd(h, i, exec), P.Empty);
    NonceImages(S, exec, i, 0);
    AdImages(S, h, exec, i, 0);
    PlainImages(S, 0, 0);
    TokenIs(S.e, HashImage(S, h), i, HashImage(S, exec), Id(0, 0), 0);
  }

  lemma WordImage(S: Setup, instr: nat, out: nat, exec: P.Hash, w: Word)
    ensures CipherImage(S, P.WordCipher(instr, out, exec, w)) == EncWord(S.e, HashImage(S, exec), Id(instr, out), w)
  {
    hide *;
    SymbolicCiphers(exec, instr, out, exec, w, 0);
    CipherImageIs(S, P.ElementKey, P.WordNonce(instr, out, exec), P.WordAd(instr, out, exec), P.OneWord(w));
    NonceImages(S, exec, instr, out);
    AdImages(S, exec, exec, instr, out);
    PlainImages(S, 0, w);
    TokenIs(S.e, HashImage(S, exec), 0, HashImage(S, exec), Id(instr, out), w);
  }

  function KeyCipher(exec: P.Hash, k: nat): P.Cipher {
    P.Cipher(P.ElementKey, P.KeyNonce(exec), P.NoAd, P.SharedKey(k))
  }

  lemma KeyImageIs(S: Setup, exec: P.Hash, k: nat)
    ensures CipherImage(S, KeyCipher(exec, k)) == Enclosed(S.e.key, KeyNonce(S.e, HashImage(S, exec)), [], S.key(k))
    ensures KeyOpened(S.e, HashImage(S, exec), CipherImage(S, KeyCipher(exec, k))) == Some(S.key(k))
  {
    hide *;
    SymbolicCiphers(exec, 0, 0, exec, 0, k);
    CipherImageIs(S, P.ElementKey, P.KeyNonce(exec), P.NoAd, P.SharedKey(k));
    NonceImages(S, exec, 0, 0);
    AdImages(S, exec, exec, 0, 0);
    PlainImages(S, k, 0);
    OpenEnclosed(S.e.key, KeyNonce(S.e, HashImage(S, exec)), [], S.key(k));
    KeyReads(S.e, HashImage(S, exec), CipherImage(S, KeyCipher(exec, k)), S.key(k));
  }

  lemma KeyReads(e: Element, exec: seq<Byte>, ekey: seq<Byte>, k: Key)
    requires Opened(e.key, KeyNonce(e, exec), [], ekey) == Some(k)
    ensures KeyOpened(e, exec, ekey) == Some(k)
  {
    hide Opened; hide KeyNonce;
  }

  // ----- SEstart -----

  lemma CountRead(S: Setup, header: P.Header)
    requires SetupOk(S) && header.inputCount < Pow256(S.lbm)
    ensures |HeaderImage(S, header)| >= 64 && HeaderImage(S, header)[..64] == S.box(header.sealedKey) && HeaderImage(S, header)[64..] == ToBytes(header.inputCount, S.lbm)
    ensures LoadU32(ToBytes(header.inputCount, S.lbm)) == Some(header.inputCount)
  {
    hide ToBytes; hide LoadU32; hide Pow256; hide FromBytes;
    LoadU32Is(ToBytes(header.inputCount, S.lbm));
    FromToBytes(header.inputCount, S.lbm);
  }

  /** `SEstart` answers the images of the sealed shared key, of the execution and of its first token. */
  lemma StartImage(S: Setup, header: P.Header, hash: P.Hash)
    requires SetupOk(S) && header.inputCount < Pow256(S.lbm) && header.inputCount + S.cfg.lout <= 0x1_0000_0000
    requires P.SeStart(S.wd, header, hash).Some?
    ensures S.wd.open(header.sealedKey).Some? && |HeaderImage(S, header)| >= 64
    ensures var k, exec := S.wd.open(header.sealedKey).value, P.ExecId(hash, header);
      var token := P.Token(hash, P.BatchCount(header.inputCount, S.wd.lout), exec);
      && P.SeStart(S.wd, header, hash) == Some(P.Answer(exec, {KeyCipher(exec, k), token}))
      && SeStart(S.e, S.cfg.lout, HeaderImage(S, header), HashImage(S, hash)) == Some(Started(CipherImage(S, KeyCipher(exec, k)), HashImage(S, exec), CipherImage(S, token)))
  {
    hide *;
    SetupParts(S, header);
    SymbolicStart(S.wd, header, hash);
    var k, exec := S.wd.open(header.sealedKey).value, P.ExecId(hash, header);
    CountRead(S, header);
    TokenImage(S, hash, P.BatchCount(header.inputCount, S.wd.lout), exec);
    KeyImageIs(S, exec, k);
    ExecImage(S, hash, header);
    StartIs(S.e, S.cfg.lout, HeaderImage(S, header), HashImage(S, hash), S.key(k), header.inputCount);
  }

  lemma SetupParts(S: Setup, header: P.Header)
    requires SetupOk(S) && header.inputCount + S.cfg.lout <= 0x1_0000_0000
    ensures S.wd.lout == S.cfg.lout >= 1 && P.BatchCount(header.inputCount, S.wd.lout) == BatchCount(header.inputCount, S.cfg.lout)
    ensures S.wd.open(header.sealedKey).Some? ==> S.e.open(S.box(header.sealedKey)) == Some(S.key(S.wd.open(header.sealedKey).value))
  {
    NoWrap(header.inputCount, S.cfg.lout);
  }

  lemma SymbolicStart(wd: P.World, header: P.Header, hash: P.Hash)
    requires wd.lout >= 1 && P.SeStart(wd, header, hash).Some?
    ensures wd.open(header.sealedKey).Some? && var exec := P.ExecId(hash, header);
      P.SeStart(wd, header, hash) == Some(P.Answer(exec, {KeyCipher(exec, wd.open(header.sealedKey).value), P.Token(hash, P.BatchCount(header.inputCount, wd.lout), exec)}))
  {
    hide P.BatchCount;
  }

  lemma NoWrap(n: nat, lout: nat)
    requires lout >= 1 && n + lout <= 0x1_0000_0000
    ensures (n + lout - 1) % 0x1_0000_0000 == n + lout - 1
  {
  }

  lemma ExecImage(S: Setup, hash: P.Hash, header: P.Header)
    ensures HashImage(S, P.ExecId(hash, header)) == ExecId(S.e, HeaderImage(S, header), HashImage(S, hash))
  {
    hide ExecId; hide HeaderImage;
  }

  lemma StartIs(e: Element, lout: nat, header: seq<Byte>, hash: seq<Byte>, key: Key, n: Word)
    requires lout >= 1 && |header| >= 64 && e.open(header[..64]) == Some(key) && LoadU32(header[64..]) == Some(n)
    ensures var exec := ExecId(e, header, hash);
      SeStart(e, lout, header, hash) == Some(Started(Enclosed(e.key, KeyNonce(e, exec), [], key), exec, Token(e, hash, BatchCount(n, lout), exec)))
  {
    hide ExecId; hide LoadU32; hide Enclosed; hide KeyNonce; hide Token; hide BatchCount;
  }

  // ----- SEinput -----

  /** `SEinput` accepts the image of an accepted call, and answers the images of the token before and of the words. */
  lemma InputImage(S: Setup, exec: P.Hash, i: nat, hp: P.Hash, x: seq<Word>, cinc: P.Cipher)
    requires SetupOk(S) && P.SeInput(exec, i, hp, x, cinc).Some?
    ensures InputAccepted(S.e, HashImage(S, exec), i, HashImage(S, hp), x, CipherImage(S, cinc)) && i >= 1
    ensures P.SeInput(exec, i, hp, x, cinc).value.issued == {P.Token(hp, i - 1, exec)} + P.WordsOf(exec, i, x)
    ensures Token(S.e, HashImage(S, hp), i - 1, HashImage(S, exec)) == CipherImage(S, P.Token(hp, i - 1, exec))
    ensures forall j :: 0 <= j < |x| ==> EncWord(S.e, HashImage(S, exec), Id(i, j), x[j]) == CipherImage(S, P.WordCipher(i, j, exec, x[j]))
  {
    hide *;
    InputUses(exec, i, hp, x, cinc);
    TokenImage(S, P.Chain(hp, x), i, exec);
    ChainImage(S, hp, x);
    if i == 1 { ZeroImage(S); }
    TokenAccepted(S.e, HashImage(S, exec), i, HashImage(S, hp), x);
    TokenImage(S, hp, i - 1, exec);
    forall j | 0 <= j < |x| ensures EncWord(S.e, HashImage(S, exec), Id(i, j), x[j]) == CipherImage(S, P.WordCipher(i, j, exec, x[j]))
    {
      WordImage(S, i, j, exec, x[j]);
    }
  }

  lemma InputUses(exec: P.Hash, i: nat, hp: P.Hash, x: seq<Word>, cinc: P.Cipher)
    requires P.SeInput(exec, i, hp, x, cinc).Some?
    ensures i >= 1 && (i == 1 ==> hp == P.Zero) && cinc == P.Token(P.Chain(hp, x), i, exec)
    ensures P.SeInput(exec, i, hp, x, cinc).value.issued == {P.Token(hp, i - 1, exec)} + P.WordsOf(exec, i, x)
  {
    hide P.WordsOf;
  }

  lemma ChainImage(S: Setup, hp: P.Hash, x: seq<Word>)
    ensures HashImage(S, P.Chain(hp, x)) == HashChain(S.e, HashImage(S, hp), x)
  {
    hide HashChain;
  }

  lemma ZeroImage(S: Setup)
    ensures forall j :: 0 <= j < |HashImage(S, P.Zero)| ==> HashImage(S, P.Zero)[j] == 0
  {
  }

  // ----- SEeval -----

  /** The multi-instruction as the runtime sees it; its cells do not matter to the element. */
  function UnitImage(S: Setup, u: P.Unit, code: P.Cipher, inps: seq<nat>, outs: seq<nat>): Mi
  {
    Mi(inps, outs, u.instr, if u.revealed then 1 else 0, u.ids, CipherImage(S, code))
  }

  function CipherImages(S: Setup, cs: seq<P.Cipher>): (r: seq<seq<Byte>>)
    ensures |r| == |cs| && forall j :: 0 <= j < |cs| ==> r[j] == CipherImage(S, cs[j])
  {
    seq(|cs|, j requires 0 <= j < |cs| => CipherImage(S, cs[j]))
  }

  /** What a symbolic evaluation opened. */
  lemma EvalUses(wd: P.World, exec: P.Hash, ekey: P.Cipher, u: P.Unit, code: P.Cipher, cx: seq<P.Cipher>) returns (k: nat, c: nat, vs: seq<Word>)
    requires P.SeEval(wd, exec, ekey, u, code, cx).Some?
    ensures ekey == KeyCipher(exec, k) && code == P.Cipher(P.Shared(k), P.CodeNonce(u.instr), P.CodeAd(u.instr, u.revealed, u.ids, u.nout), P.CodeBody(c))
    ensures |cx| == |u.ids| == |vs| && (forall j :: 0 <= j < |cx| ==> cx[j] == P.WordCipher(u.ids[j].instr, u.ids[j].out, exec, vs[j]))
    ensures |wd.eval(c, vs)| == u.nout && P.SeEval(wd, exec, ekey, u, code, cx).value.issued == if u.revealed then {} else P.WordsOf(exec, u.instr, wd.eval(c, vs))
  {
    hide P.OpenedWords; hide P.WordsOf;
    k, c := ekey.body.k, code.body.code;
    vs := P.OpenedWords(exec, u.ids, cx).value;
  }

  /** The named sequence is accepted and computes what its name stands for. */
  ghost predicate Stands(S: Setup, c: nat, codes: seq<LlsCode.Code>, vs: seq<Word>, nout: nat, garbage: seq<Word>) {
    && LlsCode.Decode(S.code(c), 0, WidthOf(S.cfg.r)) == Some(codes) && LlsCode.Accepts(Some(codes), S.cfg.s, S.cfg.r)
    && |vs| <= |garbage| && nout <= S.cfg.lout <= |garbage| && LlsCode.AllInRange(codes, |garbage|)
    && S.wd.eval(c, vs) == Evaluated(S.ops, codes, S.cfg.lout, nout, vs, garbage)
  }

  /** `SEeval` opens the image of an evaluation that opens. */
  lemma EvalOpensImage(S: Setup, exec: P.Hash, ekey: P.Cipher, u: P.Unit, code: P.Cipher, cx: seq<P.Cipher>, k: nat, c: nat, vs: seq<Word>, codes: seq<LlsCode.Code>, garbage: seq<Word>, inps: seq<nat>, outs: seq<nat>)
    requires SetupOk(S) && ekey == KeyCipher(exec, k) && code == P.Cipher(P.Shared(k), P.CodeNonce(u.instr), P.CodeAd(u.instr, u.revealed, u.ids, u.nout), P.CodeBody(c))
    requires |cx| == |u.ids| == |vs| && (forall j :: 0 <= j < |cx| ==> cx[j] == P.WordCipher(u.ids[j].instr, u.ids[j].out, exec, vs[j]))
    requires |outs| == u.nout && Stands(S, c, codes, vs, u.nout, garbage)
    ensures EvalOpens(S.e, S.cfg, S.lbm, HashImage(S, exec), CipherImage(S, ekey), UnitImage(S, u, code, inps, outs), CipherImages(S, cx), codes, vs)
  {
    hide *;
    KeyImageIs(S, exec, k);
    CodeOpens(S, u, code, k, c, inps, outs);
    forall j | 0 <= j < |cx| ensures DecWord(S.e, HashImage(S, exec), u.ids[j], CipherImage(S, cx[j])) == Some(vs[j]) {
      WordImage(S, u.ids[j].instr, u.ids[j].out, exec, vs[j]);
      WordRoundTrip(S.e, HashImage(S, exec), u.ids[j], vs[j]);
      SameId(u.ids[j]);
    }
    ImagesAre(S, cx);
    UnitIs(S, u, code, inps, outs);
    MakeOpens(S.e, HashImage(S, exec), u.ids, CipherImages(S, cx), vs);
    StandsParts(S, c, codes, vs, u.nout, garbage);
    MakeEvalOpens(S.e, S.cfg, S.lbm, HashImage(S, exec), CipherImage(S, ekey), UnitImage(S, u, code, inps, outs), CipherImages(S, cx), codes, vs, S.key(k), S.code(c));
  }

  lemma SameId(id: Id)
    ensures Id(id.instr, id.out) == id
  {
  }

  lemma ImagesAre(S: Setup, cx: seq<P.Cipher>)
    ensures |CipherImages(S, cx)| == |cx| && forall j :: 0 <= j < |cx| ==> CipherImages(S, cx)[j] == CipherImage(S, cx[j])
  {
    hide HashImage; hide CipherImage;
  }

  lemma UnitIs(S: Setup, u: P.Unit, code: P.Cipher, inps: seq<nat>, outs: seq<nat>)
    ensures var mi := UnitImage(S, u, code, inps, outs); mi.ids == u.ids && mi.outs == outs && mi.instrId == u.instr && mi.flag == (if u.revealed then 1 else 0) && mi.code == CipherImage(S, code)
  {
    hide HashImage; hide CipherImage;
  }

  lemma StandsParts(S: Setup, c: nat, codes: seq<LlsCode.Code>, vs: seq<Word>, nout: nat, garbage: seq<Word>)
    requires Stands(S, c, codes, vs, nout, garbage)
    ensures LlsCode.Decode(S.code(c), 0, WidthOf(S.cfg.r)) == Some(codes) && LlsCode.Accepts(Some(codes), S.cfg.s, S.cfg.r)
    ensures |vs| <= |garbage| && nout <= S.cfg.lout <= |garbage| && LlsCode.AllInRange(codes, |garbage|) && S.wd.eval(c, vs) == Evaluated(S.ops, codes, S.cfg.lout, nout, vs, garbage)
  {
    hide LlsCode.Decode; hide LlsCode.Accepts; hide LlsCode.AllInRange; hide Evaluated;
  }

  lemma CodeOpens(S: Setup, u: P.Unit, code: P.Cipher, k: nat, c: nat, inps: seq<nat>, outs: seq<nat>)
    requires code == P.Cipher(P.Shared(k), P.CodeNonce(u.instr), P.CodeAd(u.instr, u.revealed, u.ids, u.nout), P.CodeBody(c)) && |outs| == u.nout
    ensures LlsDecrypt(UnitImage(S, u, code, inps, outs), S.key(k), S.lbm, S.cfg.LbO()) == Some(S.code(c))
  {
    hide Opened; hide Enclosed; hide AdBytes; hide LlsNonce;
    OpenEnclosed(S.key(k), LlsNonce(u.instr), AdImage(S, code.ad), S.code(c));
  }

  lemma MakeOpens(e: Element, exec: seq<Byte>, ids: seq<Id>, cx: seq<seq<Byte>>, vs: seq<Word>)
    requires |ids| == |cx| == |vs| && forall j :: 0 <= j < |ids| ==> DecWord(e, exec, ids[j], cx[j]) == Some(vs[j])
    ensures Opens(e, exec, ids, cx, vs)
  {
    hide DecWord;
  }

  lemma MakeEvalOpens(e: Element, cfg: Config, lbm: nat, exec: seq<Byte>, ekey: seq<Byte>, mi: Mi, cx: seq<seq<Byte>>, codes: seq<LlsCode.Code>, vs: seq<Word>, key: Key, code: seq<Byte>)
    requires KeyOpened(e, exec, ekey) == Some(key) && LlsDecrypt(mi, key, lbm, cfg.LbO()) == Some(code) && Opens(e, exec, mi.ids, cx, vs)
    requires LlsCode.Decode(code, 0, WidthOf(cfg.r)) == Some(codes) && LlsCode.Accepts(Some(codes), cfg.s, cfg.r)
    ensures EvalOpens(e, cfg, lbm, exec, ekey, mi, cx, codes, vs)
  {
    hide KeyOpened; hide LlsDecrypt; hide Opens; hide LlsCode.Decode; hide LlsCode.Accepts;
  }

  /** What `SEeval` answers on the image of an evaluation: the images of the words it issues, or the words in clear. */
  lemma EvalImage(S: Setup, exec: P.Hash, ekey: P.Cipher, u: P.Unit, code: P.Cipher, cx: seq<P.Cipher>, k: nat, c: nat, vs: seq<Word>,
                  codes: seq<LlsCode.Code>, garbage: seq<Word>, inps: seq<nat>, outs: seq<nat>, cs: seq<LlsCode.Code>, us: seq<Word>, cr: seq<seq<Byte>>)
    requires SetupOk(S) && ekey == KeyCipher(exec, k) && code == P.Cipher(P.Shared(k), P.CodeNonce(u.instr), P.CodeAd(u.instr, u.revealed, u.ids, u.nout), P.CodeBody(c))
    requires |cx| == |u.ids| == |vs| && (forall j :: 0 <= j < |cx| ==> cx[j] == P.WordCipher(u.ids[j].instr, u.ids[j].out, exec, vs[j]))
    requires |outs| == u.nout && Stands(S, c, codes, vs, u.nout, garbage)
    requires EvalDone(S.e, S.ops, S.cfg, S.lbm, HashImage(S, exec), CipherImage(S, ekey), UnitImage(S, u, code, inps, outs), CipherImages(S, cx), garbage, cs, us, cr)
    ensures |cr| == u.nout == |S.wd.eval(c, vs)|
    ensures forall j :: 0 <= j < u.nout && u.revealed ==> |cr[j]| == 20 && cr[j][..4] == ToBytes(S.wd.eval(c, vs)[j], 4)
    ensures forall j :: 0 <= j < u.nout && !u.revealed ==> cr[j] == CipherImage(S, P.WordCipher(u.instr, j, exec, S.wd.eval(c, vs)[j]))
  {
    hide *;
    var mi := UnitImage(S, u, code, inps, outs);
    EvalOpensImage(S, exec, ekey, u, code, cx, k, c, vs, codes, garbage, inps, outs);
    UnitIs(S, u, code, inps, outs);
    StandsParts(S, c, codes, vs, u.nout, garbage);
    DoneParts(S.e, S.ops, S.cfg, S.lbm, HashImage(S, exec), CipherImage(S, ekey), mi, CipherImages(S, cx), garbage, cs, us, cr);
    OpensUnique(S.e, S.cfg, S.lbm, HashImage(S, exec), CipherImage(S, ekey), mi, CipherImages(S, cx), codes, vs, cs, us);
    var ws := S.wd.eval(c, vs);
    forall j | 0 <= j < u.nout ensures Holds(S.e, HashImage(S, exec), Id(u.instr, j), u.revealed, ws[j], cr[j]) {
      HoldAt(S.e, HashImage(S, exec), mi, ws, cr, j);
    }
    forall j | 0 <= j < u.nout
      ensures u.revealed ==> |cr[j]| == 20 && cr[j][..4] == ToBytes(ws[j], 4)
      ensures (!u.revealed ==> cr[j] == CipherImage(S, P.WordCipher(u.instr, j, exec, ws[j])))
    {
      WordImage(S, u.instr, j, exec, ws[j]);
      HoldsIs(S.e, HashImage(S, exec), Id(u.instr, j), u.revealed, ws[j], cr[j]);
    }
  }

  lemma DoneParts(e: Element, ops: Ops, cfg: Config, lbm: nat, exec: seq<Byte>, ekey: seq<Byte>, mi: Mi, cx: seq<seq<Byte>>,
                  garbage: seq<Word>, codes: seq<LlsCode.Code>, vs: seq<Word>, cr: seq<seq<Byte>>)
    requires EvalDone(e, ops, cfg, lbm, exec, ekey, mi, cx, garbage, codes, vs, cr)
    ensures EvalOpens(e, cfg, lbm, exec, ekey, mi, cx, codes, vs) && |garbage| == cfg.r && |vs| <= |garbage| && |mi.outs| <= cfg.lout <= |garbage| && LlsCode.AllInRange(codes, |garbage|)
    ensures AllHold(e, exec, mi, Evaluated(ops, codes, cfg.lout, |mi.outs|, vs, garbage), cr) && |cr| == |mi.outs|
  {
    hide EvalOpens; hide LlsCode.AllInRange; hide Evaluated; hide Holds;
  }

  lemma HoldAt(e: Element, exec: seq<Byte>, mi: Mi, ws: seq<Word>, cr: seq<seq<Byte>>, j: nat)
    requires AllHold(e, exec, mi, ws, cr) && j < |cr|
    ensures |ws| == |cr| && Holds(e, exec, Id(mi.instrId, j), mi.flag != 0, ws[j], cr[j])
  {
    hide Holds;
  }

  lemma HoldsIs(e: Element, exec: seq<Byte>, id: Id, clear: bool, w: Word, cell: seq<Byte>)
    requires Holds(e, exec, id, clear, w, cell)
    ensures |cell| == 20 && if clear then cell[..4] == ToBytes(w, 4) else cell == EncWord(e, exec, id, w)
  {
    hide EncWord; hide ToBytes;
  }
}
