/** The protocol of runtime/SEalgo.c against an arbitrary caller. Hashes are injective terms, and a ciphertext opens only
    under the key, nonce and associated data it was made with; a caller may present any ciphertext, except that one under
    the element's own key must have been issued by the element, and one under a shared key by the compiler, which writes
    one program per shared key. */
module SeProtocol {
  import opened Options
  import Bytecode
  import Bits
  import opened Words

  // ----- symbolic values -----

  datatype Header = Header(sealedKey: nat, inputCount: nat)

  datatype Hash =
    | Zero
    | Chain(prev: Hash, batch: seq<Word>)
    | ExecId(last: Hash, header: Header)
    | KeyNonce(exec: Hash)
    | TokenNonce(exec: Hash, i: nat)
    | WordNonce(instr: nat, out: nat, exec: Hash)
    | CodeNonce(instr: nat)
    | Other(n: nat)

  type Id = Bytecode.Id

  datatype Ad =
    | NoAd
    | TokenAd(h: Hash, i: nat, exec: Hash)
    | WordAd(instr: nat, out: nat, exec: Hash)
    | CodeAd(instr: nat, revealed: bool, ids: seq<Id>, nout: nat)

  datatype Body = Empty | OneWord(w: Word) | SharedKey(k: nat) | CodeBody(code: nat)
  datatype KeyName = ElementKey | Shared(k: nat) | Foreign(n: nat)
  datatype Cipher = Cipher(key: KeyName, nonce: Hash, ad: Ad, body: Body)

  /** A compiled multi-instruction; `code` names its sequence. */
  datatype Unit = Unit(instr: nat, revealed: bool, ids: seq<Id>, nout: nat, code: nat)

  /** Everything outside the element: which sealed keys open, the program compiled for each shared key, and what the named
      sequences compute. */
  datatype World = World(lout: nat, open: nat -> Option<nat>, program: nat -> seq<Unit>, eval: (nat, seq<Word>) -> seq<Word>)

  function Open(key: KeyName, nonce: Hash, ad: Ad, c: Cipher): (r: Option<Body>)
    ensures r.Some? <==> c == Cipher(key, nonce, ad, c.body)
    ensures r.Some? ==> r.value == c.body
  {
    if c.key == key && c.nonce == nonce && c.ad == ad then Some(c.body) else None
  }

  function Token(h: Hash, i: nat, exec: Hash): Cipher {
    Cipher(ElementKey, TokenNonce(exec, i), TokenAd(h, i, exec), Empty)
  }

  function WordCipher(instr: nat, out: nat, exec: Hash, w: Word): Cipher {
    Cipher(ElementKey, WordNonce(instr, out, exec), WordAd(instr, out, exec), OneWord(w))
  }

  // ----- the element's functions -----

  function BatchCount(n: nat, lout: nat): nat
    requires lout >= 1
  {
    (n + lout - 1) / lout
  }

  datatype Answer = Answer(exec: Hash, issued: set<Cipher>)

  /** `SEstart`: seals the shared key and the token of the last batch. */
  function SeStart(wd: World, header: Header, hash: Hash): Option<Answer>
    requires wd.lout >= 1
  {
    var exec := ExecId(hash, header);
    match wd.open(header.sealedKey)
    case None => None
    case Some(k) => Some(Answer(exec, {Cipher(ElementKey, KeyNonce(exec), NoAd, SharedKey(k)),
                                      Token(hash, BatchCount(header.inputCount, wd.lout), exec)}))
  }

  function WordsOf(exec: Hash, i: nat, x: seq<Word>): (r: set<Cipher>)
    ensures forall c :: c in r <==> exists j :: 0 <= j < |x| && c == WordCipher(i, j, exec, x[j])
  {
    set j | 0 <= j < |x| :: WordCipher(i, j, exec, x[j])
  }

  /** `SEinput`: checks the token of batch `i`, and answers the token before it and the encrypted words. */
  function SeInput(exec: Hash, i: nat, hp: Hash, x: seq<Word>, cinc: Cipher): (r: Option<Answer>) {
    if i < 1 || (i == 1 && hp != Zero) then None
    else if Open(ElementKey, TokenNonce(exec, i), TokenAd(Chain(hp, x), i, exec), cinc) != Some(Empty) then None
    else Some(Answer(exec, {Token(hp, i - 1, exec)} + WordsOf(exec, i, x)))
  }

  function CodeCipher(k: nat, u: Unit): Cipher {
    Cipher(Shared(k), CodeNonce(u.instr), CodeAd(u.instr, u.revealed, u.ids, u.nout), CodeBody(u.code))
  }

  /** The words behind `cx`, when each opens under its ID. */
  function OpenedWords(exec: Hash, ids: seq<Id>, cx: seq<Cipher>): (r: Option<seq<Word>>)
    requires |cx| == |ids|
    ensures r.Some? ==> |r.value| == |ids| && forall j :: 0 <= j < |ids| ==> cx[j] == WordCipher(ids[j].instr, ids[j].out, exec, r.value[j])
    decreases |ids|
  {
    if ids == [] then Some([]) else
      var k := |ids| - 1;
      match OpenedWords(exec, ids[..k], cx[..k])
      case None => None
      case Some(vs) =>
        match Open(ElementKey, WordNonce(ids[k].instr, ids[k].out, exec), WordAd(ids[k].instr, ids[k].out, exec), cx[k])
        case Some(OneWord(w)) => Some(vs + [w])
        case _ => None
  }

  /** `SEeval`: opens the shared key, the sequence and the inputs, and encrypts the outputs unless they are revealed. */
  function SeEval(wd: World, exec: Hash, ekey: Cipher, u: Unit, code: Cipher, cx: seq<Cipher>): (r: Option<Answer>) {
    match Open(ElementKey, KeyNonce(exec), NoAd, ekey)
    case Some(SharedKey(k)) => (
      match Open(Shared(k), CodeNonce(u.instr), CodeAd(u.instr, u.revealed, u.ids, u.nout), code)
      case Some(CodeBody(c)) =>
        if |cx| != |u.ids| then None else
          (match OpenedWords(exec, u.ids, cx)
           case None => None
           case Some(vs) =>
             var ws := wd.eval(c, vs);
             if |ws| != u.nout then None else Some(Answer(exec, if u.revealed then {} else WordsOf(exec, u.instr, ws))))
      case _ => None)
    case _ => None
  }

  // ----- runs -----

  datatype Call =
    | Start(header: Header, hash: Hash)
    | Input(exec: Hash, i: nat, hp: Hash, x: seq<Word>, cinc: Cipher)
    | Eval(exec: Hash, ekey: Cipher, u: Unit, code: Cipher, cx: seq<Cipher>)

  ghost predicate Published(wd: World, k: nat, c: Cipher) {
    exists i :: 0 <= i < |wd.program(k)| && c == CodeCipher(k, wd.program(k)[i])
  }

  /** The caller can present this ciphertext. */
  ghost predicate Presentable(wd: World, issued: set<Cipher>, c: Cipher) {
    (c.key == ElementKey ==> c in issued) && (c.key.Shared? ==> Published(wd, c.key.k, c))
  }

  /** One call, from one set of issued ciphertexts to the next; a refused call issues nothing. */
  ghost predicate Next(wd: World, s: set<Cipher>, call: Call, t: set<Cipher>)
    requires wd.lout >= 1
  {
    match call
    case Start(header, hash) =>
      var r := SeStart(wd, header, hash);
      t == if r.Some? then s + r.value.issued else s
    case Input(exec, i, hp, x, cinc) =>
      var r := SeInput(exec, i, hp, x, cinc);
      Presentable(wd, s, cinc) && t == if r.Some? then s + r.value.issued else s
    case Eval(exec, ekey, u, code, cx) =>
      var r := SeEval(wd, exec, ekey, u, code, cx);
      && Presentable(wd, s, ekey) && Presentable(wd, s, code) && (forall j :: 0 <= j < |cx| ==> Presentable(wd, s, cx[j]))
      && t == if r.Some? then s + r.value.issued else s
  }

  /** An interleaving of calls by any number of callers. */
  ghost predicate IsRun(wd: World, calls: seq<Call>, states: seq<set<Cipher>>)
    requires wd.lout >= 1
  {
    && |states| == |calls| + 1 && states[0] == {}
    && forall k :: 0 <= k < |calls| ==> Next(wd, states[k], calls[k], states[k + 1])
  }

  predicate AcceptedInput(call: Call) {
    call.Input? && SeInput(call.exec, call.i, call.hp, call.x, call.cinc).Some?
  }

  // ----- what every call keeps -----

  /** The hash `n` links before `h`. */
  function Before(h: Hash, n: nat): Hash {
    if n == 0 then h else match Before(h, n - 1) case Chain(prev, _) => prev case _ => Zero
  }

  /** A token carries the hash that its execution's committed hash has at that index. */
  ghost predicate TokenOk(wd: World, c: Cipher)
    requires wd.lout >= 1
  {
    c.key == ElementKey && c.ad.TokenAd? ==>
      && c.ad.exec.ExecId?
      && var n := BatchCount(c.ad.exec.header.inputCount, wd.lout);
         c.ad.i <= n && c.ad.h == Before(c.ad.exec.last, n - c.ad.i)
  }

  ghost predicate AllTokensOk(wd: World, s: set<Cipher>)
    requires wd.lout >= 1
  {
    forall c :: c in s ==> TokenOk(wd, c)
  }

  lemma StartKeeps(wd: World, header: Header, hash: Hash, c: Cipher)
    requires wd.lout >= 1 && SeStart(wd, header, hash).Some? && c in SeStart(wd, header, hash).value.issued
    ensures TokenOk(wd, c)
  {
  }

  /** An accepted `SEinput` used the hash and the batch that the execution committed to at that index. */
  lemma AcceptedIsCommitted(wd: World, s: set<Cipher>, exec: Hash, i: nat, hp: Hash, x: seq<Word>, cinc: Cipher)
    requires wd.lout >= 1 && AllTokensOk(wd, s) && Presentable(wd, s, cinc) && SeInput(exec, i, hp, x, cinc).Some?
    ensures exec.ExecId? && 1 <= i <= BatchCount(exec.header.inputCount, wd.lout)
    ensures Chain(hp, x) == Before(exec.last, BatchCount(exec.header.inputCount, wd.lout) - i)
    ensures i == 1 ==> hp == Zero
  {
    assert TokenOk(wd, cinc);
  }

  lemma InputKeeps(wd: World, s: set<Cipher>, exec: Hash, i: nat, hp: Hash, x: seq<Word>, cinc: Cipher, c: Cipher)
    requires wd.lout >= 1 && AllTokensOk(wd, s) && Presentable(wd, s, cinc) && SeInput(exec, i, hp, x, cinc).Some?
    requires c in SeInput(exec, i, hp, x, cinc).value.issued
    ensures TokenOk(wd, c)
  {
    AcceptedIsCommitted(wd, s, exec, i, hp, x, cinc);
    if c == Token(hp, i - 1, exec) {
      var n := BatchCount(exec.header.inputCount, wd.lout);
      assert n - (i - 1) == (n - i) + 1;
      assert Before(exec.last, n - i + 1) == hp;
    }
  }

  /** Whatever the call, the issued tokens stay as committed. */
  lemma NextKeeps(wd: World, s: set<Cipher>, call: Call, t: set<Cipher>)
    requires wd.lout >= 1 && AllTokensOk(wd, s) && Next(wd, s, call, t)
    ensures AllTokensOk(wd, t)
  {
    hide TokenOk; hide SeStart; hide SeInput; hide SeEval; hide Presentable;
    forall c | c in t && c !in s ensures TokenOk(wd, c) {
      match call
      case Start(header, hash) => StartKeeps(wd, header, hash, c);
      case Input(exec, i, hp, x, cinc) => InputKeeps(wd, s, exec, i, hp, x, cinc, c);
      case Eval(exec, ekey, u, code, cx) => EvalKeeps(wd, exec, ekey, u, code, cx, c);
    }
  }

  lemma EvalKeeps(wd: World, exec: Hash, ekey: Cipher, u: Unit, code: Cipher, cx: seq<Cipher>, c: Cipher)
    requires wd.lout >= 1 && SeEval(wd, exec, ekey, u, code, cx).Some? && c in SeEval(wd, exec, ekey, u, code, cx).value.issued
    ensures TokenOk(wd, c)
  {
    hide OpenedWords;
  }

  lemma {:induction false} RunKeeps(wd: World, calls: seq<Call>, states: seq<set<Cipher>>, k: nat)
    requires wd.lout >= 1 && IsRun(wd, calls, states) && k < |states|
    ensures AllTokensOk(wd, states[k])
    decreases k
  {
    hide Next; hide TokenOk;
    if k > 0 {
      RunKeeps(wd, calls, states, k - 1);
      NextKeeps(wd, states[k - 1], calls[k - 1], states[k]);
    }
  }

  // ----- the results -----

  lemma AcceptedInRun(wd: World, calls: seq<Call>, states: seq<set<Cipher>>, k: nat)
    requires wd.lout >= 1 && IsRun(wd, calls, states) && k < |calls| && AcceptedInput(calls[k])
    ensures var c := calls[k];
      && c.exec.ExecId? && 1 <= c.i <= BatchCount(c.exec.header.inputCount, wd.lout)
      && Chain(c.hp, c.x) == Before(c.exec.last, BatchCount(c.exec.header.inputCount, wd.lout) - c.i)
      && (c.i == 1 ==> c.hp == Zero)
  {
    hide SeInput; hide SeStart; hide AllTokensOk; hide BatchCount; hide Before;
    RunKeeps(wd, calls, states, k);
    assert Next(wd, states[k], calls[k], states[k + 1]);
    var c := calls[k];
    AcceptedIsCommitted(wd, states[k], c.exec, c.i, c.hp, c.x, c.cinc);
  }

  /** Over every interleaving, two accepted `SEinput` calls for the same execution and index used the same
      previous hash and the same batch. */
  lemma SameIndexSameBatch(wd: World, calls: seq<Call>, states: seq<set<Cipher>>, k: nat, l: nat)
    requires wd.lout >= 1 && IsRun(wd, calls, states) && k < |calls| && l < |calls|
    requires AcceptedInput(calls[k]) && AcceptedInput(calls[l]) && calls[k].exec == calls[l].exec && calls[k].i == calls[l].i
    ensures calls[k].hp == calls[l].hp && calls[k].x == calls[l].x
  {
    hide *;
    assert calls[k].Input? && calls[l].Input? by { InputCall(calls[k]); InputCall(calls[l]); }
    AcceptedInRun(wd, calls, states, k);
    AcceptedInRun(wd, calls, states, l);
  }

  lemma InputCall(c: Call)
    requires AcceptedInput(c)
    ensures c.Input?
  {
  }

  /** No two different words are ever encrypted by `SEinput` under the same nonce. */
  lemma NonceOnce(wd: World, calls: seq<Call>, states: seq<set<Cipher>>, k: nat, l: nat, a: Cipher, b: Cipher)
    requires wd.lout >= 1 && IsRun(wd, calls, states) && k < |calls| && l < |calls|
    requires AcceptedInput(calls[k]) && AcceptedInput(calls[l])
    requires a in WordsOf(calls[k].exec, calls[k].i, calls[k].x) && b in WordsOf(calls[l].exec, calls[l].i, calls[l].x)
    requires a.nonce == b.nonce
    ensures a == b
  {
    var j :| 0 <= j < |calls[k].x| && a == WordCipher(calls[k].i, j, calls[k].exec, calls[k].x[j]);
    var h :| 0 <= h < |calls[l].x| && b == WordCipher(calls[l].i, h, calls[l].exec, calls[l].x[h]);
    hide IsRun; hide AcceptedInput; hide WordsOf;
    SameIndexSameBatch(wd, calls, states, k, l);
  }

  /** The hash of a sequence of batches. */
  function ChainOf(xs: seq<seq<Word>>): Hash {
    if xs == [] then Zero else Chain(ChainOf(xs[..|xs| - 1]), xs[|xs| - 1])
  }

  /** When every index of an execution has been accepted, the accepted batches are exactly the committed ones:
      their chain is the hash the execution was started with. */
  lemma {:induction false} AcceptedAreCommitted(wd: World, calls: seq<Call>, states: seq<set<Cipher>>,
                                                exec: Hash, at: seq<nat>, xs: seq<seq<Word>>, i: nat)
    requires wd.lout >= 1 && IsRun(wd, calls, states) && exec.ExecId? && |at| == |xs| == BatchCount(exec.header.inputCount, wd.lout)
    requires forall m :: 0 <= m < |at| ==>
      at[m] < |calls| && AcceptedInput(calls[at[m]]) && calls[at[m]].exec == exec && calls[at[m]].i == m + 1 && calls[at[m]].x == xs[m]
    requires 1 <= i <= |at|
    ensures Before(exec.last, |at| - i) == ChainOf(xs[..i])
    decreases i
  {
    hide IsRun; hide AcceptedInput; hide BatchCount;
    InputCall(calls[at[i - 1]]);
    AcceptedInRun(wd, calls, states, at[i - 1]);
    assert xs[..i][..i - 1] == xs[..i - 1];
    if i > 1 {
      AcceptedAreCommitted(wd, calls, states, exec, at, xs, i - 1);
      assert |at| - (i - 1) == (|at| - i) + 1;
    } else {
      assert xs[..0] == [];
    }
  }

  /** The whole execution: the committed hash is the chain of the accepted batches. */
  lemma ExecutionIsCommitted(wd: World, calls: seq<Call>, states: seq<set<Cipher>>, exec: Hash, at: seq<nat>, xs: seq<seq<Word>>)
    requires wd.lout >= 1 && IsRun(wd, calls, states) && exec.ExecId? && |at| == |xs| == BatchCount(exec.header.inputCount, wd.lout) >= 1
    requires forall m :: 0 <= m < |at| ==>
      at[m] < |calls| && AcceptedInput(calls[at[m]]) && calls[at[m]].exec == exec && calls[at[m]].i == m + 1 && calls[at[m]].x == xs[m]
    ensures exec.last == ChainOf(xs)
  {
    hide IsRun; hide AcceptedInput; hide BatchCount;
    AcceptedAreCommitted(wd, calls, states, exec, at, xs, |xs|);
    assert xs[..|xs|] == xs;
  }

  /** The interpreter's descending loop: with the token the previous call answered, every index is accepted. */
  lemma {:induction false} DescendingAccepted(exec: Hash, xs: seq<seq<Word>>, i: nat)
    requires 1 <= i <= |xs|
    ensures var r := SeInput(exec, i, ChainOf(xs[..i - 1]), xs[i - 1], Token(ChainOf(xs[..i]), i, exec));
      r.Some? && Token(ChainOf(xs[..i - 1]), i - 1, exec) in r.value.issued
  {
    assert xs[..i][..i - 1] == xs[..i - 1];
  }

  // ----- every word of an execution is determined -----

  /** A sealed shared key belongs to the header of its execution. */
  ghost predicate KeyOk(wd: World, c: Cipher) {
    c.key == ElementKey && c.body.SharedKey? ==>
      c.nonce.KeyNonce? && c.nonce.exec.ExecId? && wd.open(c.nonce.exec.header.sealedKey) == Some(c.body.k)
  }

  /** The word stands at its place in the batch the execution committed to. */
  ghost predicate ByBatch(wd: World, exec: Hash, instr: nat, out: nat, w: Word)
    requires wd.lout >= 1
  {
    && exec.ExecId? && 1 <= instr <= BatchCount(exec.header.inputCount, wd.lout)
    && var h := Before(exec.last, BatchCount(exec.header.inputCount, wd.lout) - instr);
       h.Chain? && out < |h.batch| && w == h.batch[out]
  }

  ghost predicate AllIssued(s: set<Cipher>, exec: Hash, ids: seq<Id>, vs: seq<Word>) {
    |vs| == |ids| && forall j :: 0 <= j < |ids| ==> WordCipher(ids[j].instr, ids[j].out, exec, vs[j]) in s
  }

  /** The word was computed by unit `i` of the execution's program from words that were issued. */
  ghost predicate From(wd: World, s: set<Cipher>, exec: Hash, instr: nat, out: nat, w: Word, k: nat, i: nat, vs: seq<Word>) {
    && exec.ExecId? && wd.open(exec.header.sealedKey) == Some(k) && i < |wd.program(k)|
    && var u := wd.program(k)[i];
       u.instr == instr && !u.revealed && AllIssued(s, exec, u.ids, vs) && out < u.nout == |wd.eval(u.code, vs)| && w == wd.eval(u.code, vs)[out]
  }

  ghost predicate ByUnit(wd: World, s: set<Cipher>, exec: Hash, instr: nat, out: nat, w: Word) {
    exists k: nat, i: nat, vs: seq<Word> :: From(wd, s, exec, instr, out, w, k, i, vs)
  }

  ghost predicate Justified(wd: World, s: set<Cipher>, c: Cipher)
    requires wd.lout >= 1
  {
    c.ad.WordAd? ==>
      && c.body.OneWord? && c == WordCipher(c.ad.instr, c.ad.out, c.ad.exec, c.body.w)
      && (ByBatch(wd, c.ad.exec, c.ad.instr, c.ad.out, c.body.w) || ByUnit(wd, s, c.ad.exec, c.ad.instr, c.ad.out, c.body.w))
  }

  /** Only words are encrypted under a word nonce. */
  ghost predicate WordNonceOk(c: Cipher) {
    c.nonce.WordNonce? ==> c.ad.WordAd?
  }

  ghost predicate AllJustified(wd: World, s: set<Cipher>)
    requires wd.lout >= 1
  {
    forall c :: c in s ==> Justified(wd, s, c) && KeyOk(wd, c) && WordNonceOk(c)
  }

  lemma JustifiedMore(wd: World, s: set<Cipher>, t: set<Cipher>, c: Cipher)
    requires wd.lout >= 1 && Justified(wd, s, c) && s <= t
    ensures Justified(wd, t, c)
  {
    hide ByBatch;
    if c.ad.WordAd? && ByUnit(wd, s, c.ad.exec, c.ad.instr, c.ad.out, c.body.w) {
      var k: nat, i: nat, vs: seq<Word> :| From(wd, s, c.ad.exec, c.ad.instr, c.ad.out, c.body.w, k, i, vs);
      assert From(wd, t, c.ad.exec, c.ad.instr, c.ad.out, c.body.w, k, i, vs);
    }
  }

  lemma InputJustified(wd: World, s: set<Cipher>, exec: Hash, i: nat, hp: Hash, x: seq<Word>, cinc: Cipher, c: Cipher)
    requires wd.lout >= 1 && AllTokensOk(wd, s) && Presentable(wd, s, cinc) && SeInput(exec, i, hp, x, cinc).Some?
    requires c in SeInput(exec, i, hp, x, cinc).value.issued
    ensures Justified(wd, s, c) && KeyOk(wd, c) && WordNonceOk(c)
  {
    AcceptedIsCommitted(wd, s, exec, i, hp, x, cinc);
    hide AllTokensOk; hide Presentable; hide Before; hide BatchCount; hide ByUnit;
    if c != Token(hp, i - 1, exec) {
      var j :| 0 <= j < |x| && c == WordCipher(i, j, exec, x[j]);
    }
  }

  /** What `SEeval` used when it accepted. */
  lemma EvalUses(wd: World, s: set<Cipher>, exec: Hash, ekey: Cipher, u: Unit, code: Cipher, cx: seq<Cipher>) returns (k: nat, i: nat, vs: seq<Word>)
    requires wd.lout >= 1 && AllJustified(wd, s) && Presentable(wd, s, ekey) && Presentable(wd, s, code)
    requires (forall j :: 0 <= j < |cx| ==> Presentable(wd, s, cx[j])) && SeEval(wd, exec, ekey, u, code, cx).Some?
    ensures exec.ExecId? && wd.open(exec.header.sealedKey) == Some(k) && i < |wd.program(k)| && wd.program(k)[i].instr == u.instr && AllIssued(s, exec, wd.program(k)[i].ids, vs)
    ensures |wd.eval(wd.program(k)[i].code, vs)| == wd.program(k)[i].nout
    ensures forall c :: c in SeEval(wd, exec, ekey, u, code, cx).value.issued ==> !wd.program(k)[i].revealed && c in WordsOf(exec, u.instr, wd.eval(wd.program(k)[i].code, vs))
  {
    hide OpenedWords; hide Justified; hide WordsOf;
    k := ekey.body.k;
    assert KeyOk(wd, ekey);
    assert Published(wd, k, code);
    i :| 0 <= i < |wd.program(k)| && code == CodeCipher(k, wd.program(k)[i]);
    assert wd.program(k)[i].ids == u.ids;
    vs := OpenedWords(exec, u.ids, cx).value;
    forall j | 0 <= j < |u.ids| ensures WordCipher(u.ids[j].instr, u.ids[j].out, exec, vs[j]) in s { assert Presentable(wd, s, cx[j]); }
  }

  lemma EvalJustified(wd: World, s: set<Cipher>, exec: Hash, ekey: Cipher, u: Unit, code: Cipher, cx: seq<Cipher>, c: Cipher)
    requires wd.lout >= 1 && AllJustified(wd, s) && Presentable(wd, s, ekey) && Presentable(wd, s, code)
    requires (forall j :: 0 <= j < |cx| ==> Presentable(wd, s, cx[j])) && SeEval(wd, exec, ekey, u, code, cx).Some?
    requires c in SeEval(wd, exec, ekey, u, code, cx).value.issued
    ensures Justified(wd, s, c) && KeyOk(wd, c) && WordNonceOk(c)
  {
    var k, i, vs := EvalUses(wd, s, exec, ekey, u, code, cx);
    hide SeEval; hide AllJustified; hide Presentable; hide ByBatch; hide AllIssued;
    var ws := wd.eval(wd.program(k)[i].code, vs);
    var j :| 0 <= j < |ws| && c == WordCipher(u.instr, j, exec, ws[j]);
    assert From(wd, s, exec, u.instr, j, ws[j], k, i, vs);
  }

  lemma StartJustified(wd: World, s: set<Cipher>, header: Header, hash: Hash, c: Cipher)
    requires wd.lout >= 1 && SeStart(wd, header, hash).Some? && c in SeStart(wd, header, hash).value.issued
    ensures Justified(wd, s, c) && KeyOk(wd, c) && WordNonceOk(c)
  {
    hide ByBatch; hide ByUnit;
  }

  /** What a call issues was justified before it. */
  lemma NextJustified(wd: World, s: set<Cipher>, call: Call, t: set<Cipher>, c: Cipher)
    requires wd.lout >= 1 && AllTokensOk(wd, s) && AllJustified(wd, s) && Next(wd, s, call, t) && c in t
    ensures Justified(wd, s, c) && KeyOk(wd, c) && WordNonceOk(c) && s <= t
  {
    hide Justified; hide KeyOk; hide AllTokensOk; hide SeStart; hide SeInput; hide SeEval; hide Presentable;
    if c !in s {
      match call
      case Start(header, hash) => StartJustified(wd, s, header, hash, c);
      case Input(exec, i, hp, x, cinc) => InputJustified(wd, s, exec, i, hp, x, cinc, c);
      case Eval(exec, ekey, u, code, cx) => EvalJustified(wd, s, exec, ekey, u, code, cx, c);
    }
  }

  /** Units have different numbers. */
  ghost predicate Distinct(wd: World) {
    forall k, i, j :: 0 <= i < j < |wd.program(k)| ==> wd.program(k)[i].instr != wd.program(k)[j].instr
  }

  /** `SEeval` encrypts results of the unit. */
  predicate Emits(u: Unit) {
    !u.revealed && u.nout >= 1
  }

  /** No batch number of the header is the number of a unit whose results are encrypted. */
  ghost predicate Separated(wd: World, header: Header)
    requires wd.lout >= 1
  {
    wd.open(header.sealedKey).Some? ==>
      var p := wd.program(wd.open(header.sealedKey).value);
      forall i :: 0 <= i < |p| && Emits(p[i]) ==> !(1 <= p[i].instr <= BatchCount(header.inputCount, wd.lout))
  }

  ghost predicate OwnHeader(wd: World, exec: Hash)
    requires wd.lout >= 1
  {
    exec.ExecId? ==> Separated(wd, exec.header)
  }

  /** No two different words under one nonce, for such executions. */
  ghost predicate OneWordPerNonce(wd: World, s: set<Cipher>)
    requires wd.lout >= 1
  {
    forall a, b :: a in s && b in s && a.nonce.WordNonce? && a.nonce == b.nonce && OwnHeader(wd, a.nonce.exec) ==> a == b
  }

  /** Two units that issued the same output of one execution are the same, and were given the same words. */
  lemma SameSource(wd: World, s: set<Cipher>, exec: Hash, instr: nat, out: nat, v: Word, w: Word)
    requires wd.lout >= 1 && Distinct(wd) && OneWordPerNonce(wd, s) && OwnHeader(wd, exec)
    requires ByUnit(wd, s, exec, instr, out, v) && ByUnit(wd, s, exec, instr, out, w)
    ensures v == w
  {
    hide OwnHeader;
    var k: nat, i: nat, vs: seq<Word> :| From(wd, s, exec, instr, out, v, k, i, vs);
    var k2: nat, j: nat, us: seq<Word> :| From(wd, s, exec, instr, out, w, k2, j, us);
    SameNumber(wd, k, i, j);
    var u := wd.program(k)[i];
    forall m | 0 <= m < |u.ids| ensures vs[m] == us[m] {
      var a, b := WordCipher(u.ids[m].instr, u.ids[m].out, exec, vs[m]), WordCipher(u.ids[m].instr, u.ids[m].out, exec, us[m]);
      assert a in s && b in s && a == b;
    }
    assert vs == us;
  }

  lemma SameNumber(wd: World, k: nat, i: nat, j: nat)
    requires Distinct(wd) && i < |wd.program(k)| && j < |wd.program(k)| && wd.program(k)[i].instr == wd.program(k)[j].instr
    ensures i == j
  {
  }

  lemma UnitAfterBatches(wd: World, s: set<Cipher>, exec: Hash, instr: nat, out: nat, v: Word, w: Word)
    requires wd.lout >= 1 && OwnHeader(wd, exec) && ByBatch(wd, exec, instr, out, v)
    ensures !ByUnit(wd, s, exec, instr, out, w)
  {
    hide AllIssued; hide BatchCount; hide Before;
  }

  lemma JustifiedOnce(wd: World, s: set<Cipher>, a: Cipher, b: Cipher)
    requires wd.lout >= 1 && Distinct(wd) && OneWordPerNonce(wd, s) && Justified(wd, s, a) && Justified(wd, s, b) && WordNonceOk(a) && WordNonceOk(b)
    requires a.nonce.WordNonce? && a.nonce == b.nonce && OwnHeader(wd, a.nonce.exec)
    ensures a == b
  {
    hide ByUnit; hide ByBatch; hide OneWordPerNonce; hide Distinct; hide OwnHeader;
    var exec, instr, out := a.ad.exec, a.ad.instr, a.ad.out;
    if ByBatch(wd, exec, instr, out, a.body.w) || ByBatch(wd, exec, instr, out, b.body.w) {
      if ByBatch(wd, exec, instr, out, a.body.w) { UnitAfterBatches(wd, s, exec, instr, out, a.body.w, b.body.w); }
      if ByBatch(wd, exec, instr, out, b.body.w) { UnitAfterBatches(wd, s, exec, instr, out, b.body.w, a.body.w); }
      SameBatchWord(wd, exec, instr, out, a.body.w, b.body.w);
    } else {
      SameSource(wd, s, exec, instr, out, a.body.w, b.body.w);
    }
  }

  lemma SameBatchWord(wd: World, exec: Hash, instr: nat, out: nat, v: Word, w: Word)
    requires wd.lout >= 1 && ByBatch(wd, exec, instr, out, v) && ByBatch(wd, exec, instr, out, w)
    ensures v == w
  {
  }

  /** Over every interleaving of all three calls: for executions whose header keeps batches and units apart, the element never
      encrypts two different words under one nonce. */
  lemma {:induction false} NonceNeverReused(wd: World, calls: seq<Call>, states: seq<set<Cipher>>, n: nat)
    requires wd.lout >= 1 && Distinct(wd) && IsRun(wd, calls, states) && n < |states|
    ensures AllJustified(wd, states[n]) && OneWordPerNonce(wd, states[n])
    decreases n
  {
    hide Next; hide Justified; hide KeyOk; hide Distinct; hide OwnHeader;
    if n > 0 {
      var s, t := states[n - 1], states[n];
      NonceNeverReused(wd, calls, states, n - 1);
      RunKeeps(wd, calls, states, n - 1);
      assert Next(wd, s, calls[n - 1], t);
      forall c | c in t ensures Justified(wd, s, c) && Justified(wd, t, c) && KeyOk(wd, c) && WordNonceOk(c) {
        NextJustified(wd, s, calls[n - 1], t, c);
        JustifiedMore(wd, s, t, c);
      }
      forall a, b | a in t && b in t && a.nonce.WordNonce? && a.nonce == b.nonce && OwnHeader(wd, a.nonce.exec) ensures a == b {
        JustifiedOnce(wd, s, a, b);
      }
    }
  }

  // ----- the condition is exact -----

  /** The unit reads outputs of batches or units with smaller numbers, and its sequence computes its outputs. */
  ghost predicate UnitOk(wd: World, u: Unit) {
    && (forall j :: 0 <= j < |u.ids| ==> 1 <= u.ids[j].instr < u.instr && u.ids[j].out < wd.lout)
    && forall vs: seq<Word> :: |vs| == |u.ids| ==> |wd.eval(u.code, vs)| == u.nout
  }

  /** Programs as the compiler writes them. */
  ghost predicate WellCompiled(wd: World) {
    Distinct(wd) && forall k, i :: 0 <= i < |wd.program(k)| ==> UnitOk(wd, wd.program(k)[i])
  }

  /** For executions with this header, no two different words under one nonce. */
  ghost predicate UniqueFor(s: set<Cipher>, header: Header) {
    forall a, b :: a in s && b in s && a.nonce.WordNonce? && a.nonce == b.nonce && a.nonce.exec.ExecId? && a.nonce.exec.header == header ==> a == b
  }

  ghost predicate NeverReuses(wd: World, header: Header)
    requires wd.lout >= 1
  {
    forall calls, states :: IsRun(wd, calls, states) ==> UniqueFor(states[|calls|], header)
  }

  lemma RunMore(wd: World, calls: seq<Call>, states: seq<set<Cipher>>, call: Call, t: set<Cipher>)
    requires wd.lout >= 1 && IsRun(wd, calls, states) && Next(wd, states[|calls|], call, t)
    ensures IsRun(wd, calls + [call], states + [t])
  {
    hide Next;
    var cs, ss := calls + [call], states + [t];
    forall k | 0 <= k < |cs| ensures Next(wd, ss[k], cs[k], ss[k + 1]) {
      if k < |calls| { assert Next(wd, states[k], calls[k], states[k + 1]); }
    }
  }

  /** What has been issued once the batches above `i` have been accepted. */
  ghost predicate InputsGiven(wd: World, header: Header, k: nat, xs: seq<seq<Word>>, i: nat, s: set<Cipher>)
    requires i <= |xs|
  {
    var exec := ExecId(ChainOf(xs), header);
    && Cipher(ElementKey, KeyNonce(exec), NoAd, SharedKey(k)) in s && Token(ChainOf(xs[..i]), i, exec) in s
    && forall j :: i <= j < |xs| ==> WordsOf(exec, j + 1, xs[j]) <= s
  }

  /** Any batches can be committed to and entered. */
  lemma {:induction false} EnterInputs(wd: World, header: Header, k: nat, xs: seq<seq<Word>>, i: nat) returns (calls: seq<Call>, states: seq<set<Cipher>>)
    requires wd.lout >= 1 && wd.open(header.sealedKey) == Some(k) && |xs| == BatchCount(header.inputCount, wd.lout) && i <= |xs|
    ensures IsRun(wd, calls, states) && InputsGiven(wd, header, k, xs, i, states[|calls|])
    decreases |xs| - i
  {
    hide WordsOf; hide ChainOf; hide BatchCount;
    var exec := ExecId(ChainOf(xs), header);
    assert xs[..|xs|] == xs;
    if i == |xs| {
      var r := SeStart(wd, header, ChainOf(xs));
      calls, states := [Start(header, ChainOf(xs))], [{}, {} + r.value.issued];
      assert Next(wd, states[0], calls[0], states[1]);
    } else {
      var before, ss := EnterInputs(wd, header, k, xs, i + 1);
      var s := ss[|before|];
      var token := Token(ChainOf(xs[..i + 1]), i + 1, exec);
      DescendingAccepted(exec, xs, i + 1);
      InputIssues(exec, i + 1, ChainOf(xs[..i]), xs[i], token);
      var call := Input(exec, i + 1, ChainOf(xs[..i]), xs[i], token);
      var t := s + SeInput(exec, i + 1, ChainOf(xs[..i]), xs[i], token).value.issued;
      assert Next(wd, s, call, t);
      RunMore(wd, before, ss, call, t);
      calls, states := before + [call], ss + [t];
      assert InputsGiven(wd, header, k, xs, i, t);
    }
  }

  lemma InputIssues(exec: Hash, i: nat, hp: Hash, x: seq<Word>, cinc: Cipher)
    requires SeInput(exec, i, hp, x, cinc).Some?
    ensures SeInput(exec, i, hp, x, cinc).value.issued == {Token(hp, i - 1, exec)} + WordsOf(exec, i, x)
  {
    hide WordsOf;
  }

  /** The ciphertexts of these words open to them. */
  lemma {:induction false} WordsOpen(exec: Hash, ids: seq<Id>, vs: seq<Word>, cx: seq<Cipher>)
    requires |vs| == |ids| == |cx| && forall j :: 0 <= j < |ids| ==> cx[j] == WordCipher(ids[j].instr, ids[j].out, exec, vs[j])
    ensures OpenedWords(exec, ids, cx) == Some(vs)
    decreases |ids|
  {
    if ids != [] {
      var k := |ids| - 1;
      WordsOpen(exec, ids[..k], vs[..k], cx[..k]);
      assert vs == vs[..k] + [vs[k]];
    } else {
      assert vs == [];
    }
  }

  /** Batches of zeros, except that the first word of one of them is `w`. */
  function Marked(count: nat, lout: nat, at: nat, w: Word): (xs: seq<seq<Word>>)
    ensures |xs| == count && forall j :: 0 <= j < count ==> |xs[j]| == lout
    ensures forall j, o :: 0 <= j < count && 0 <= o < lout ==> xs[j][o] == if j + 1 == at && o == 0 then w else 0
  {
    seq(count, j requires 0 <= j < count => seq<Word>(lout, o => if j + 1 == at && o == 0 then w else 0))
  }

  lemma WordGiven(wd: World, header: Header, k: nat, xs: seq<seq<Word>>, s: set<Cipher>, instr: nat, out: nat)
    requires InputsGiven(wd, header, k, xs, 0, s) && 1 <= instr <= |xs| && out < |xs[instr - 1]|
    ensures WordCipher(instr, out, ExecId(ChainOf(xs), header), xs[instr - 1][out]) in s
  {
    hide ChainOf;
    assert WordCipher(instr, out, ExecId(ChainOf(xs), header), xs[instr - 1][out]) in WordsOf(ExecId(ChainOf(xs), header), instr, xs[instr - 1]);
  }

  function Zeros(n: nat): (r: seq<Word>)
    ensures |r| == n && forall j :: 0 <= j < n ==> r[j] == 0
  {
    seq<Word>(n, _ => 0)
  }

  /** A unit whose inputs are zeros that were entered can be evaluated. */
  lemma EvaluateUnit(wd: World, header: Header, k: nat, i: nat, xs: seq<seq<Word>>, s: set<Cipher>) returns (call: Call, t: set<Cipher>)
    requires wd.lout >= 1 && InputsGiven(wd, header, k, xs, 0, s) && i < |wd.program(k)| && UnitOk(wd, wd.program(k)[i]) && !wd.program(k)[i].revealed
    requires forall j :: 0 <= j < |wd.program(k)[i].ids| ==> ZeroAt(xs, wd.program(k)[i].ids[j])
    ensures Next(wd, s, call, t) && var u := wd.program(k)[i];
      t == s + WordsOf(ExecId(ChainOf(xs), header), u.instr, wd.eval(u.code, Zeros(|u.ids|))) && |wd.eval(u.code, Zeros(|u.ids|))| == u.nout
  {
    var u := wd.program(k)[i];
    var vs := Zeros(|u.ids|);
    assert |wd.eval(u.code, vs)| == u.nout;
    hide ChainOf; hide WordsOf; hide InputsGiven; hide OpenedWords; hide UnitOk; hide SeEval;
    var exec := ExecId(ChainOf(xs), header);
    var ekey := Cipher(ElementKey, KeyNonce(exec), NoAd, SharedKey(k));
    KeyGiven(wd, header, k, xs, s);
    var cx := seq(|u.ids|, j requires 0 <= j < |u.ids| => WordCipher(u.ids[j].instr, u.ids[j].out, exec, 0));
    forall j | 0 <= j < |cx| ensures Presentable(wd, s, cx[j]) {
      assert ZeroAt(xs, u.ids[j]);
      WordGiven(wd, header, k, xs, s, u.ids[j].instr, u.ids[j].out);
    }
    WordsOpen(exec, u.ids, vs, cx);
    EvalAnswers(wd, exec, ekey, u, k, cx, vs);
    assert Published(wd, k, CodeCipher(k, u));
    call, t := Eval(exec, ekey, u, CodeCipher(k, u), cx), s + WordsOf(exec, u.instr, wd.eval(u.code, vs));
  }

  /** The batches have a zero there. */
  ghost predicate ZeroAt(xs: seq<seq<Word>>, id: Id) {
    1 <= id.instr <= |xs| && id.out < |xs[id.instr - 1]| && xs[id.instr - 1][id.out] == 0
  }

  /** When a batch has the number of a unit whose results are encrypted, some run encrypts two different words under one nonce. */
  lemma OverlapReuses(wd: World, header: Header, k: nat, i: nat) returns (calls: seq<Call>, states: seq<set<Cipher>>, a: Cipher, b: Cipher)
    requires wd.lout >= 1 && wd.open(header.sealedKey) == Some(k) && i < |wd.program(k)| && UnitOk(wd, wd.program(k)[i]) && Emits(wd.program(k)[i])
    requires 1 <= wd.program(k)[i].instr <= BatchCount(header.inputCount, wd.lout)
    ensures IsRun(wd, calls, states) && a in states[|calls|] && b in states[|calls|] && a != b
    ensures a.nonce.WordNonce? && a.nonce == b.nonce && a.nonce.exec.ExecId? && a.nonce.exec.header == header
  {
    hide *;
    var u := wd.program(k)[i];
    var vs := Zeros(|u.ids|);
    EmitsIs(wd, u);
    var ws := wd.eval(u.code, vs);
    var w: Word := if ws[0] == 0 then 1 else 0;
    var xs := Marked(BatchCount(header.inputCount, wd.lout), wd.lout, u.instr, w);
    MarkedZeros(wd, u, BatchCount(header.inputCount, wd.lout), w);
    var before, ss := EnterInputs(wd, header, k, xs, 0);
    RunLength(wd, before, ss);
    var s := ss[|before|];
    var call, t := EvaluateUnit(wd, header, k, i, xs, s);
    RunMore(wd, before, ss, call, t);
    calls, states := before + [call], ss + [t];
    var exec := ExecId(ChainOf(xs), header);
    a, b := WordCipher(u.instr, 0, exec, w), WordCipher(u.instr, 0, exec, ws[0]);
    WordGiven(wd, header, k, xs, s, u.instr, 0);
    WordIn(exec, u.instr, ws, 0);
    WordCipherIs(u.instr, 0, exec, w);
    WordCipherIs(u.instr, 0, exec, ws[0]);
  }

  lemma EmitsIs(wd: World, u: Unit)
    requires UnitOk(wd, u) && Emits(u)
    ensures !u.revealed && u.nout >= 1 && |Zeros(|u.ids|)| == |u.ids| && |wd.eval(u.code, Zeros(|u.ids|))| == u.nout
  {
  }

  lemma MarkedZeros(wd: World, u: Unit, count: nat, w: Word)
    requires wd.lout >= 1 && UnitOk(wd, u) && 1 <= u.instr <= count
    ensures var xs := Marked(count, wd.lout, u.instr, w);
      |xs| == count && (forall j :: 0 <= j < |u.ids| ==> ZeroAt(xs, u.ids[j])) && |xs[u.instr - 1]| == wd.lout && xs[u.instr - 1][0] == w
  {
    hide Marked;
  }

  lemma WordCipherIs(instr: nat, out: nat, exec: Hash, w: Word)
    ensures WordCipher(instr, out, exec, w).nonce == WordNonce(instr, out, exec) && WordCipher(instr, out, exec, w).body == OneWord(w)
  {
  }

  lemma KeyGiven(wd: World, header: Header, k: nat, xs: seq<seq<Word>>, s: set<Cipher>)
    requires InputsGiven(wd, header, k, xs, 0, s)
    ensures Cipher(ElementKey, KeyNonce(ExecId(ChainOf(xs), header)), NoAd, SharedKey(k)) in s
  {
    hide ChainOf; hide WordsOf;
  }

  lemma WordIn(exec: Hash, i: nat, x: seq<Word>, j: nat)
    requires j < |x|
    ensures WordCipher(i, j, exec, x[j]) in WordsOf(exec, i, x)
  {
  }

  lemma EvalAnswers(wd: World, exec: Hash, ekey: Cipher, u: Unit, k: nat, cx: seq<Cipher>, vs: seq<Word>)
    requires ekey == Cipher(ElementKey, KeyNonce(exec), NoAd, SharedKey(k)) && |cx| == |u.ids| && OpenedWords(exec, u.ids, cx) == Some(vs)
    requires !u.revealed && |wd.eval(u.code, vs)| == u.nout
    ensures SeEval(wd, exec, ekey, u, CodeCipher(k, u), cx) == Some(Answer(exec, WordsOf(exec, u.instr, wd.eval(u.code, vs))))
  {
    hide OpenedWords; hide WordsOf;
  }

  /** For compiled programs, nonces are never reused under a header if and only if it keeps batches and units apart. */
  lemma NonceExact(wd: World, header: Header)
    requires wd.lout >= 1 && WellCompiled(wd)
    ensures NeverReuses(wd, header) <==> Separated(wd, header)
  {
    hide UnitOk; hide Distinct; hide Next; hide BatchCount; hide UniqueFor;
    if Separated(wd, header) {
      forall calls, states | IsRun(wd, calls, states) ensures UniqueFor(states[|calls|], header) { SeparatedUnique(wd, header, calls, states); }
    } else {
      var k := wd.open(header.sealedKey).value;
      var i :| 0 <= i < |wd.program(k)| && Emits(wd.program(k)[i]) && 1 <= wd.program(k)[i].instr <= BatchCount(header.inputCount, wd.lout);
      var calls, states, a, b := OverlapReuses(wd, header, k, i);
      RunLength(wd, calls, states);
      NotUnique(states[|calls|], header, a, b);
    }
  }

  lemma RunLength(wd: World, calls: seq<Call>, states: seq<set<Cipher>>)
    requires wd.lout >= 1 && IsRun(wd, calls, states)
    ensures |states| == |calls| + 1
  {
    hide Next;
  }

  lemma NotUnique(s: set<Cipher>, header: Header, a: Cipher, b: Cipher)
    requires a in s && b in s && a != b && a.nonce.WordNonce? && a.nonce == b.nonce && a.nonce.exec.ExecId? && a.nonce.exec.header == header
    ensures !UniqueFor(s, header)
  {
  }

  lemma SeparatedUnique(wd: World, header: Header, calls: seq<Call>, states: seq<set<Cipher>>)
    requires wd.lout >= 1 && Distinct(wd) && Separated(wd, header) && IsRun(wd, calls, states)
    ensures UniqueFor(states[|calls|], header)
  {
    RunLength(wd, calls, states);
    NonceNeverReused(wd, calls, states, |calls|);
    hide IsRun; hide AllJustified; hide Separated; hide Distinct;
  }

  /** A program with one input, one unit that reads it, and words in batches of one; the header says two inputs. */
  ghost function SmallWorld(): World {
    World(1, (sk: nat) => Some(0), (k: nat) => [Unit(2, false, [Bytecode.Id(1, 0)], 1, 0)], (code: nat, vs: seq<Word>) => [0])
  }

  /** There the second batch and the unit share a number. */
  lemma OverlapExample() returns (calls: seq<Call>, states: seq<set<Cipher>>, a: Cipher, b: Cipher)
    ensures WellCompiled(SmallWorld()) && !Separated(SmallWorld(), Header(0, 2)) && Separated(SmallWorld(), Header(0, 1))
    ensures IsRun(SmallWorld(), calls, states) && a in states[|calls|] && b in states[|calls|] && a != b && a.nonce.WordNonce? && a.nonce == b.nonce
  {
    var wd := SmallWorld();
    assert BatchCount(2, 1) == 2 && BatchCount(1, 1) == 1;
    assert forall vs: seq<Word> :: wd.eval(0, vs) == [0];
    assert UnitOk(wd, wd.program(0)[0]);
    assert Emits(wd.program(0)[0]);
    hide BatchCount;
    calls, states, a, b := OverlapReuses(wd, Header(0, 2), 0, 0);
  }

  // ----- compiled programs -----

  /** The serializer's numbers satisfy both conditions under the header it writes. */
  lemma CompiledNumbers(wd: World, p: Bytecode.Program, k: nat, exec: Hash)
    requires wd.lout >= 1 && |wd.program(k)| == |p.instrs| && forall i :: 0 <= i < |p.instrs| ==> wd.program(k)[i].instr == Bytecode.InstrId(p, wd.lout, i)
    requires exec.ExecId? && wd.open(exec.header.sealedKey) == Some(k) && exec.header.inputCount == |p.inputs|
    ensures Separated(wd, exec.header) && OwnHeader(wd, exec) && forall i, j :: 0 <= i < j < |wd.program(k)| ==> wd.program(k)[i].instr != wd.program(k)[j].instr
  {
    forall i | 0 <= i < |p.instrs| ensures BatchCount(|p.inputs|, wd.lout) < wd.program(k)[i].instr { LastBatch(p, wd.lout, i); }
  }

  lemma LastBatch(p: Bytecode.Program, lout: nat, i: nat)
    requires lout >= 1
    ensures BatchCount(|p.inputs|, lout) < Bytecode.InstrId(p, lout, i)
  {
    if |p.inputs| > 0 {
      Bytecode.NumbersDiffer(p, lout, i, i + 1, |p.inputs| - 1);
      NextMultiple(|p.inputs| - 1, lout);
    } else {
      DivideSmall(lout - 1, lout);
    }
  }

  lemma NextMultiple(a: nat, d: nat)
    requires d >= 1
    ensures (a + d) / d == a / d + 1
  {
    var e := (a + d) / d - (a / d + 1);
    assert a + d == d * ((a + d) / d) + (a + d) % d && a == d * (a / d) + a % d;
    assert d * e == a % d - (a + d) % d;
    Scaled(d, e);
  }

  lemma Scaled(d: nat, e: int)
    ensures (e >= 1 ==> d * e >= d) && (e <= -1 ==> d * e <= 0 - d)
  {
    if e >= 1 { Bits.MulLeft(d, 1, e); }
    if e <= -1 { Bits.MulLeft(d, e, -1); }
  }

  lemma DivideSmall(a: nat, d: nat)
    requires a < d
    ensures a / d == 0
  {
  }

  /** What a compiled multi-instruction reads has a smaller number, and an index below `l_out`. */
  lemma {:induction false} CompiledIds(p: Bytecode.Program, lout: nat, k: nat, m: nat)
    requires lout >= 1 && k <= |p.instrs| && m in Bytecode.IdsAt(p, lout, k) && forall i :: 0 <= i < |p.instrs| ==> |p.instrs[i].outputs| <= lout
    ensures var id := Bytecode.IdsAt(p, lout, k)[m]; 1 <= id.instr < Bytecode.InstrId(p, lout, k) && id.out < lout
    decreases k
  {
    if k == 0 {
      InputIdsSmall(p.inputs, lout, |p.inputs|, m);
    } else {
      var outs, number := p.instrs[k - 1].outputs, Bytecode.InstrId(p, lout, k - 1);
      if m in Bytecode.IdsAt(p, lout, k - 1) { CompiledIds(p, lout, k - 1, m); }
      OutputIdsSmall(Bytecode.IdsAt(p, lout, k - 1), outs, number, |outs|, m);
    }
  }

  lemma {:induction false} InputIdsSmall(inputs: seq<nat>, lout: nat, k: nat, m: nat)
    requires lout >= 1 && k <= |inputs| && m in Bytecode.InputIds(inputs, lout, k)
    ensures var id := Bytecode.InputIds(inputs, lout, k)[m]; 1 <= id.instr <= |inputs| / lout + 1 && id.out < lout
    decreases k
  {
    if k > 0 {
      Bytecode.DivMonotone(k - 1, |inputs|, lout);
      if m != inputs[k - 1] { InputIdsSmall(inputs, lout, k - 1, m); }
    }
  }

  lemma {:induction false} OutputIdsSmall(ids: map<nat, Id>, outs: seq<nat>, number: nat, j: nat, m: nat)
    requires j <= |outs| && m in Bytecode.OutputIds(ids, outs, number, j)
    ensures var id := Bytecode.OutputIds(ids, outs, number, j)[m]; (m in ids && id == ids[m]) || (id.instr == number && id.out < j)
    decreases j
  {
    if j > 0 && m != outs[j - 1] { OutputIdsSmall(ids, outs, number, j - 1, m); }
  }
}
