/** The input phase of `interpret` in runtime/interpreter.c: batching, the hash chain, `SEstart`, and the
    descending loop of `SEinput` calls. */
module InputPhase {
  import opened Options
  import Bits
  import opened Words
  import opened ByteView
  import opened BigEndian
  import opened Bytecode
  import opened SecureElement

  /** Program input `k`, or zero past the end. */
  function Padded(inps: seq<Word>, k: nat): Word {
    if k < |inps| then inps[k] else 0
  }

  /** X_i, for i >= 1. */
  function Batch(inps: seq<Word>, lout: nat, i: nat): (x: seq<Word>)
    requires i >= 1
    ensures |x| == lout
  {
    var first := lout * (i - 1);
    seq<Word>(lout, (j: nat) => Padded(inps, first + j))
  }

  function Zero(): (h: seq<Byte>)
    ensures |h| == 32 && forall j :: 0 <= j < 32 ==> h[j] == 0
  {
    seq(32, _ => 0)
  }

  /** H_i */
  function Chain(e: Element, inps: seq<Word>, lout: nat, i: nat): (h: seq<Byte>)
    ensures |h| == 32
  {
    if i == 0 then Zero() else HashChain(e, Chain(e, inps, lout, i - 1), Batch(inps, lout, i))
  }

  /** What the runtime keeps for input `k`: its word, encrypted under the ID the compiler gives it. */
  function InputCell(e: Element, exec: seq<Byte>, inps: seq<Word>, lout: nat, k: nat): (c: seq<Byte>)
    requires lout >= 1
    ensures |c| == 20
  {
    EncWord(e, exec, Id(k / lout + 1, k % lout), Padded(inps, k))
  }

  ghost predicate CellsFrom(e: Element, exec: seq<Byte>, inps: seq<Word>, lout: nat, first: nat, c: seq<seq<Byte>>)
    requires lout >= 1
  {
    forall t {:trigger c[t]} :: 0 <= t < |c| ==> c[t] == InputCell(e, exec, inps, lout, first + t)
  }

  lemma BatchCell(e: Element, exec: seq<Byte>, inps: seq<Word>, lout: nat, i: nat, first: nat, j: nat)
    requires j < lout && i >= 1 && first == lout * (i - 1)
    ensures EncWord(e, exec, Id(i, j), Batch(inps, lout, i)[j]) == InputCell(e, exec, inps, lout, first + j)
  {
    hide EncWord;
    Bits.DivModUnique(first + j, lout, i - 1, j);
  }

  lemma CellsPrepend(e: Element, exec: seq<Byte>, inps: seq<Word>, lout: nat, first: nat, words: seq<seq<Byte>>, c: seq<seq<Byte>>)
    requires lout >= 1 && |words| == lout && CellsFrom(e, exec, inps, lout, first + lout, c)
    requires forall j :: 0 <= j < lout ==> words[j] == InputCell(e, exec, inps, lout, first + j)
    ensures CellsFrom(e, exec, inps, lout, first, words + c)
  {
    hide InputCell;
    forall t | 0 <= t < |words + c| ensures (words + c)[t] == InputCell(e, exec, inps, lout, first + t) {
      if t >= lout {
        assert (words + c)[t] == c[t - lout];
        assert first + t == first + lout + (t - lout);
      }
    }
  }

  /** The header opens to `key` and states the number of inputs. */
  ghost predicate HeaderOk(e: Element, header: seq<Byte>, inps: seq<Word>, key: Key) {
    |header| >= 64 && e.open(header[..64]) == Some(key) && |inps| < 0x1_0000_0000 && LoadU32(header[64..]) == Some(|inps|)
  }

  lemma StartOpens(e: Element, lout: nat, header: seq<Byte>, inps: seq<Word>, hash: seq<Byte>, key: Key)
    requires lout >= 1 && HeaderOk(e, header, inps, key)
    ensures var s := SeStart(e, lout, header, hash);
      && s.Some? && KeyOpened(e, s.value.execId, s.value.esharedkey) == Some(key)
      && s.value.cin == Token(e, hash, BatchCount(|inps|, lout), s.value.execId)
  {
    hide Opened; hide Enclosed; hide Token; hide LoadU32; hide BatchCount; hide KeyNonce;
    var exec := ExecId(e, header, hash);
    OpenEnclosed(e.key, KeyNonce(e, exec), [], key);
  }

  lemma ChainStep(e: Element, inps: seq<Word>, lout: nat, i: nat)
    requires i >= 1
    ensures Chain(e, inps, lout, i) == HashChain(e, Chain(e, inps, lout, i - 1), Batch(inps, lout, i))
    ensures Chain(e, inps, lout, 0) == Zero()
  {
  }

  /** The call for batch `i` is accepted when the token at `i` is the one for the chain. */
  lemma BatchAccepted(e: Element, exec: seq<Byte>, inps: seq<Word>, lout: nat, i: nat)
    requires i >= 1
    ensures InputAccepted(e, exec, i, Chain(e, inps, lout, i - 1), Batch(inps, lout, i), Token(e, Chain(e, inps, lout, i), i, exec))
  {
    hide Token; hide HashChain; hide InputAccepted; hide Batch; hide Chain;
    ChainStep(e, inps, lout, i);
    if i == 1 { ChainStep(e, inps, lout, 1); }
    TokenAccepted(e, exec, i, Chain(e, inps, lout, i - 1), Batch(inps, lout, i));
  }

  /** Step 1: the batches and the hashes, `H[0]` to `H[L]`. */
  method Hashes(e: Element, inps: seq<Word>, lout: nat, batches: nat) returns (h: seq<seq<Byte>>)
    ensures |h| == batches + 1 && forall i :: 0 <= i <= batches ==> h[i] == Chain(e, inps, lout, i)
  {
    hide *;
    h := [Zero()];
    ChainStep(e, inps, lout, 1);
    for i := 1 to batches + 1
      invariant |h| == i && forall k :: 0 <= k < i ==> h[k] == Chain(e, inps, lout, k)
    {
      ChainStep(e, inps, lout, i);
      h := h + [HashChain(e, h[i - 1], Batch(inps, lout, i))];
    }
  }

  datatype Encrypted = Encrypted(exec: seq<Byte>, ekey: seq<Byte>, c: seq<seq<Byte>>)

  ghost predicate InputsDone(e: Element, lout: nat, inps: seq<Word>, key: Key, r: Encrypted)
    requires lout >= 1
  {
    && KeyOpened(e, r.exec, r.ekey) == Some(key) && |r.c| == lout * BatchCount(|inps| % 0x1_0000_0000, lout)
    && CellsFrom(e, r.exec, inps, lout, 0, r.c)
  }

  /** One turn of the descending loop: the words of batch `n` go before those of the later batches. */
  method OneInput(e: Element, exec: seq<Byte>, inps: seq<Word>, lout: nat, n: nat, hp: seq<Byte>, cin: seq<Byte>, ghost first: nat, c: seq<seq<Byte>>)
    returns (r: Option<(seq<Byte>, seq<seq<Byte>>)>)
    requires lout >= 1 && n >= 1 && first == lout * (n - 1) && CellsFrom(e, exec, inps, lout, first + lout, c)
    ensures r.Some? <==> InputAccepted(e, exec, n, hp, Batch(inps, lout, n), cin)
    ensures r.Some? ==> r.value.0 == Token(e, hp, n - 1, exec)
    ensures r.Some? ==> |r.value.1| == lout + |c| && CellsFrom(e, exec, inps, lout, first, r.value.1)
  {
    hide *;
    var answer := SeInput(e, exec, n, hp, Batch(inps, lout, n), cin);
    if answer.None? { return None; }
    ghost var words := answer.value.1;
    forall j | 0 <= j < lout ensures words[j] == InputCell(e, exec, inps, lout, first + j) {
      BatchCell(e, exec, inps, lout, n, first, j);
    }
    CellsPrepend(e, exec, inps, lout, first, words, c);
    return Some((answer.value.0, answer.value.1 + c));
  }

  /** Step 3: starting from the token of the last batch, every call is accepted. */
  method AllInputs(e: Element, exec: seq<Byte>, inps: seq<Word>, lout: nat, batches: nat, h: seq<seq<Byte>>, last: seq<Byte>)
    returns (r: Option<seq<seq<Byte>>>)
    requires lout >= 1 && |h| == batches + 1 && forall i :: 0 <= i <= batches ==> h[i] == Chain(e, inps, lout, i)
    ensures last == Token(e, h[batches], batches, exec) ==> r.Some?
    ensures r.Some? ==> |r.value| == lout * batches && CellsFrom(e, exec, inps, lout, 0, r.value)
  {
    hide *;
    var c: seq<seq<Byte>> := [];
    var cin := last;
    CellsNone(e, exec, inps, lout, lout * batches);
    for i := batches downto 0
      invariant last == Token(e, h[batches], batches, exec) ==> cin == Token(e, h[i], i, exec)
      invariant |c| + lout * i == lout * batches && CellsFrom(e, exec, inps, lout, lout * i, c)
    {
      BatchAccepted(e, exec, inps, lout, i + 1);
      ghost var first := lout * i;
      SizeStep(lout, i);
      var answer := OneInput(e, exec, inps, lout, i + 1, h[i], cin, first, c);
      if answer.None? { return None; }
      cin, c := answer.value.0, answer.value.1;
    }
    return Some(c);
  }

  /** Steps 1 to 3: for a header that opens, every `SEinput` call is accepted, from the last batch to the first,
      and every input ends up encrypted under its ID. */
  method EncryptInputs(e: Element, lout: nat, header: seq<Byte>, inps: seq<Word>) returns (r: Option<Encrypted>)
    requires lout >= 1 && |header| >= 64 && |inps| < 0x1_0000_0000
    ensures forall key :: HeaderOk(e, header, inps, key) ==> r.Some? && InputsDone(e, lout, inps, key, r.value)
  {
    hide *;
    var batches := BatchCount(|inps|, lout);
    var h := Hashes(e, inps, lout, batches);
    var s := SeStart(e, lout, header, h[batches]);
    forall key | HeaderOk(e, header, inps, key)
      ensures s.Some? && KeyOpened(e, s.value.execId, s.value.esharedkey) == Some(key)
           && s.value.cin == Token(e, h[batches], batches, s.value.execId)
    {
      StartOpens(e, lout, header, inps, h[batches], key);
    }
    if s.None? { return None; }
    var c := AllInputs(e, s.value.execId, inps, lout, batches, h, s.value.cin);
    if c.None? { return None; }
    r := Some(Encrypted(s.value.execId, s.value.esharedkey, c.value));
    forall key | HeaderOk(e, header, inps, key) ensures InputsDone(e, lout, inps, key, r.value) {
      DoneIs(e, lout, inps, key, r.value);
    }
  }

  lemma SizeStep(lout: nat, i: nat)
    ensures lout * (i + 1) == lout * i + lout
  {
    Bits.MulDist(lout, i, 1);
  }

  lemma CellsNone(e: Element, exec: seq<Byte>, inps: seq<Word>, lout: nat, first: nat)
    requires lout >= 1
    ensures CellsFrom(e, exec, inps, lout, first, [])
  {
  }

  lemma DoneIs(e: Element, lout: nat, inps: seq<Word>, key: Key, r: Encrypted)
    requires lout >= 1 && |inps| < 0x1_0000_0000
    requires KeyOpened(e, r.exec, r.ekey) == Some(key) && |r.c| == lout * BatchCount(|inps|, lout)
    requires CellsFrom(e, r.exec, inps, lout, 0, r.c)
    ensures InputsDone(e, lout, inps, key, r)
  {
    hide KeyOpened; hide CellsFrom; hide BatchCount;
  }

  /** There is a cell for every input. */
  lemma EnoughBatches(n: nat, lout: nat)
    requires lout >= 1 && n + lout <= 0x1_0000_0000
    ensures n <= lout * BatchCount(n, lout)
  {
    var q := (n + lout - 1) / lout;
    assert n + lout - 1 == lout * q + (n + lout - 1) % lout;
  }
}
