/** What the runtime keeps in memory while it interprets serialized code: every cell holds the word the program
    has there, in clear or encrypted under the ID that the compiler's `id_dict` has for it. */
module Simulation {
  import opened Options
  import opened IR
  import opened ByteView
  import opened BigEndian
  import opened LlsCode
  import opened Bytecode
  import opened Serializer
  import opened SecureElement
  import opened InputPhase

  // ----- the meaning of a low-level program -----

  type Memory = map<nat, Word>

  function Store(mem: Memory, cells: seq<nat>, ws: seq<Word>, j: nat): Memory
    requires j <= |cells| == |ws|
  {
    if j == 0 then mem else Store(mem, cells, ws, j - 1)[cells[j - 1] := ws[j - 1]]
  }

  function Fetch(mem: Memory, cells: seq<nat>): (r: seq<Word>)
    ensures |r| == |cells| && forall i :: 0 <= i < |r| ==> r[i] == if cells[i] in mem then mem[cells[i]] else 0
  {
    seq<Word>(|cells|, i requires 0 <= i < |cells| => if cells[i] in mem then mem[cells[i]] else 0)
  }

  predicate MiShape(mi: Llmi, cfg: Config) {
    |mi.lls| <= cfg.s && |mi.inputs| <= cfg.r && |mi.outputs| <= cfg.lout <= cfg.r && AllInRange(Codes(mi.lls), cfg.r)
  }

  predicate AllShaped(p: Program, cfg: Config) {
    forall k :: 0 <= k < |p.instrs| ==> MiShape(p.instrs[k], cfg)
  }

  /** The words multi-instruction `mi` produces; `g` is what the registers hold before the inputs are loaded. */
  ghost function MiOutputs(ops: Ops, mi: Llmi, cfg: Config, mem: Memory, g: seq<Word>): (r: seq<Word>)
    requires MiShape(mi, cfg) && |g| == cfg.r
    ensures |r| == |mi.outputs|
  {
    Evaluated(ops, Codes(mi.lls), cfg.lout, |mi.outputs|, Fetch(mem, mi.inputs), g)
  }

  ghost predicate Files(gs: seq<seq<Word>>, r: nat) {
    forall k :: 0 <= k < |gs| ==> |gs[k]| == r
  }

  /** The memory before multi-instruction `k`. */
  ghost function MemAt(ops: Ops, p: Program, cfg: Config, gs: seq<seq<Word>>, inps: seq<Word>, k: nat): Memory
    requires AllShaped(p, cfg) && k <= |p.instrs| && k <= |gs| && Files(gs, cfg.r) && |inps| == |p.inputs|
  {
    if k == 0 then Store(map[], p.inputs, inps, |inps|)
    else
      var mem := MemAt(ops, p, cfg, gs, inps, k - 1);
      var mi := p.instrs[k - 1];
      Store(mem, mi.outputs, MiOutputs(ops, mi, cfg, mem, gs[k - 1]), |mi.outputs|)
  }

  // ----- which cells are in clear -----

  function CellSet(cells: seq<nat>): (r: set<nat>)
    ensures forall m :: m in r <==> m in cells
  {
    set m | m in cells
  }

  function ClearAt(p: Program, k: nat): set<nat>
    requires k <= |p.instrs|
  {
    if k == 0 then {}
    else
      var outs := CellSet(p.instrs[k - 1].outputs);
      if Reveals(p, p.instrs[k - 1]) then ClearAt(p, k - 1) + outs else ClearAt(p, k - 1) - outs
  }

  /** No multi-instruction reads a cell that is in clear. */
  predicate ReadsHidden(p: Program) {
    forall k :: 0 <= k < |p.instrs| ==> HiddenAt(p, k)
  }

  predicate HiddenAt(p: Program, k: nat)
    requires k < |p.instrs|
  {
    forall j :: 0 <= j < |p.instrs[k].inputs| ==> p.instrs[k].inputs[j] !in ClearAt(p, k)
  }

  predicate Produces(mi: Llmi, m: nat) {
    m in mi.outputs
  }

  /** Every program output is an output of some multi-instruction. */
  predicate OutputsProduced(p: Program) {
    forall o :: o in p.outputs ==> exists k :: 0 <= k < |p.instrs| && Produces(p.instrs[k], o)
  }

  /** The programs the runtime is proved to run; `2^24` bounds what fits three-byte widths. */
  predicate Runnable(p: Program, cfg: Config) {
    && Serializable(p, cfg) && AllShaped(p, cfg) && ReadsHidden(p) && OutputsProduced(p)
    && 2 <= cfg.lout <= cfg.r <= 0x100_0000 && 2 <= p.memoryCount <= 0x100_0000
  }

  /** A program output that some multi-instruction produces ends up in clear. */
  lemma {:induction false} OutputClear(p: Program, k: nat, n: nat, o: nat)
    requires o in p.outputs && k < n <= |p.instrs| && Produces(p.instrs[k], o)
    ensures o in ClearAt(p, n)
    decreases n
  {
    if Produces(p.instrs[n - 1], o) {
      var j :| 0 <= j < |p.instrs[n - 1].outputs| && p.instrs[n - 1].outputs[j] == o;
      assert Reveals(p, p.instrs[n - 1]);
    } else {
      OutputClear(p, k, n - 1, o);
    }
  }

  // ----- memory cells -----

  /** The runtime's memory agrees with `mem`. */
  ghost predicate Matches(e: Element, exec: seq<Byte>, ids: map<nat, Id>, clear: set<nat>, mem: Memory, cells: seq<seq<Byte>>) {
    && ids.Keys == mem.Keys
    && forall m :: m in ids ==> m < |cells| && Holds(e, exec, ids[m], m in clear, mem[m], cells[m])
  }

  /** Writing one cell on both sides. */
  lemma MatchesPut(e: Element, exec: seq<Byte>, ids: map<nat, Id>, clear: set<nat>, mem: Memory, cells: seq<seq<Byte>>,
                   m: nat, id: Id, flag: bool, w: Word, cell: seq<Byte>)
    requires Matches(e, exec, ids, clear, mem, cells) && m < |cells| && Holds(e, exec, id, flag, w, cell)
    ensures Matches(e, exec, ids[m := id], if flag then clear + {m} else clear - {m}, mem[m := w], cells[m := cell])
  {
    hide Holds;
  }

  function PutAll(cells: seq<seq<Byte>>, ms: seq<nat>, vs: seq<seq<Byte>>, j: nat): (r: seq<seq<Byte>>)
    requires j <= |ms| && |ms| <= |vs| && forall i :: 0 <= i < |ms| ==> ms[i] < |cells|
    ensures |r| == |cells|
  {
    if j == 0 then cells else PutAll(cells, ms, vs, j - 1)[ms[j - 1] := vs[j - 1]]
  }

  /** The input cells, one by one. */
  lemma {:induction false} InputsMatch(e: Element, exec: seq<Byte>, inputs: seq<nat>, inps: seq<Word>, lout: nat,
                                       cells: seq<seq<Byte>>, c: seq<seq<Byte>>, k: nat)
    requires lout >= 1 && k <= |inputs| == |inps| <= |c| && CellsFrom(e, exec, inps, lout, 0, c)
    requires forall i :: 0 <= i < |inputs| ==> inputs[i] < |cells|
    ensures Matches(e, exec, InputIds(inputs, lout, k), {}, Store(map[], inputs, inps, k), PutAll(cells, inputs, c, k))
    decreases k
  {
    hide Matches; hide CellsFrom; hide EncWord; hide Holds;
    if k == 0 {
      MatchesNone(e, exec, cells);
    } else {
      InputsMatch(e, exec, inputs, inps, lout, cells, c, k - 1);
      InputHolds(e, exec, inps, lout, c, k - 1);
      MatchesPut(e, exec, InputIds(inputs, lout, k - 1), {}, Store(map[], inputs, inps, k - 1), PutAll(cells, inputs, c, k - 1),
                 inputs[k - 1], Id((k - 1) / lout + 1, (k - 1) % lout), false, inps[k - 1], c[k - 1]);
      assert {} - {inputs[k - 1]} == {};
    }
  }

  lemma MatchesNone(e: Element, exec: seq<Byte>, cells: seq<seq<Byte>>)
    ensures Matches(e, exec, map[], {}, map[], cells)
  {
  }

  lemma InputHolds(e: Element, exec: seq<Byte>, inps: seq<Word>, lout: nat, c: seq<seq<Byte>>, k: nat)
    requires lout >= 1 && k < |inps| <= |c| && CellsFrom(e, exec, inps, lout, 0, c)
    ensures Holds(e, exec, Id(k / lout + 1, k % lout), false, inps[k], c[k])
  {
    hide EncWord;
    assert c[k] == InputCell(e, exec, inps, lout, 0 + k);
  }

  function ClearAfter(clear: set<nat>, flag: bool, outs: seq<nat>, j: nat): set<nat>
    requires j <= |outs|
  {
    if flag then clear + CellSet(outs[..j]) else clear - CellSet(outs[..j])
  }

  lemma ClearNext(clear: set<nat>, flag: bool, outs: seq<nat>, j: nat)
    requires 0 < j <= |outs|
    ensures var before := ClearAfter(clear, flag, outs, j - 1);
      ClearAfter(clear, flag, outs, j) == if flag then before + {outs[j - 1]} else before - {outs[j - 1]}
  {
    assert outs[..j] == outs[..j - 1] + [outs[j - 1]];
  }

  /** The output cells of a multi-instruction, one by one. */
  lemma {:induction false} OutputsMatch(e: Element, exec: seq<Byte>, ids: map<nat, Id>, clear: set<nat>, mem: Memory, cells: seq<seq<Byte>>,
                                        mi: Mi, ws: seq<Word>, cr: seq<seq<Byte>>, j: nat)
    requires Matches(e, exec, ids, clear, mem, cells) && AllHold(e, exec, mi, ws, cr)
    requires j <= |mi.outs| == |ws| == |cr| && forall i :: 0 <= i < |mi.outs| ==> mi.outs[i] < |cells|
    ensures Matches(e, exec, OutputIds(ids, mi.outs, mi.instrId, j), ClearAfter(clear, mi.flag != 0, mi.outs, j),
                    Store(mem, mi.outs, ws, j), PutAll(cells, mi.outs, cr, j))
    decreases j
  {
    hide Matches; hide Holds; hide ClearAfter;
    if j == 0 {
      ClearNone(clear, mi.flag != 0, mi.outs);
    } else {
      OutputsMatch(e, exec, ids, clear, mem, cells, mi, ws, cr, j - 1);
      ClearNext(clear, mi.flag != 0, mi.outs, j);
      MatchesPut(e, exec, OutputIds(ids, mi.outs, mi.instrId, j - 1), ClearAfter(clear, mi.flag != 0, mi.outs, j - 1),
                 Store(mem, mi.outs, ws, j - 1), PutAll(cells, mi.outs, cr, j - 1),
                 mi.outs[j - 1], Id(mi.instrId, j - 1), mi.flag != 0, ws[j - 1], cr[j - 1]);
    }
  }

  lemma ClearNone(clear: set<nat>, flag: bool, outs: seq<nat>)
    ensures ClearAfter(clear, flag, outs, 0) == clear
  {
  }

  // ----- one multi-instruction -----

  /** The memory before multi-instruction `k` of the interpreted program. */
  ghost predicate Sim(e: Element, exec: seq<Byte>, ops: Ops, p: Program, cfg: Config, gs: seq<seq<Word>>, inps: seq<Word>, k: nat, cells: seq<seq<Byte>>)
    requires cfg.lout >= 1 && AllShaped(p, cfg) && k <= |p.instrs| && k <= |gs| && Files(gs, cfg.r) && |inps| == |p.inputs|
  {
    |cells| == p.memoryCount && Matches(e, exec, IdsAt(p, cfg.lout, k), ClearAt(p, k), MemAt(ops, p, cfg, gs, inps, k), cells)
  }

  function Gather(cells: seq<seq<Byte>>, ms: seq<nat>): (r: seq<seq<Byte>>)
    requires forall i :: 0 <= i < |ms| ==> ms[i] < |cells|
    ensures |r| == |ms| && forall i :: 0 <= i < |r| ==> r[i] == cells[ms[i]]
  {
    seq(|ms|, i requires 0 <= i < |ms| => cells[ms[i]])
  }

  /** Every input of the multi-instruction opens to the word the program has in its cell. */
  lemma InputsOpen(e: Element, exec: seq<Byte>, ids: map<nat, Id>, clear: set<nat>, mem: Memory, cells: seq<seq<Byte>>, ms: seq<nat>)
    requires Matches(e, exec, ids, clear, mem, cells) && AllIn(ms, ids)
    requires forall j :: 0 <= j < |ms| ==> ms[j] !in clear && ms[j] < |cells|
    ensures Opens(e, exec, IdsOf(ids, ms), Gather(cells, ms), Fetch(mem, ms))
  {
    hide EncWord; hide DecWord; hide ToBytes;
    var vs := Fetch(mem, ms);
    forall j | 0 <= j < |ms| ensures DecWord(e, exec, ids[ms[j]], cells[ms[j]]) == Some(vs[j]) {
      assert Holds(e, exec, ids[ms[j]], false, mem[ms[j]], cells[ms[j]]);
      WordRoundTrip(e, exec, ids[ms[j]], vs[j]);
    }
  }

  /** The instruction bytes open to the serialized sequence. */
  lemma CodeOpens(p: Program, mi: Llmi, ids: map<nat, Id>, instrId: nat, cfg: Config, key: Key)
    requires MiOk(mi, ids, instrId, cfg, p.memoryCount)
    ensures LlsDecrypt(MiFor(p, mi, ids, instrId, cfg, key), key, WidthOf(p.memoryCount), cfg.LbO()) == Some(LlsBytes(mi.lls, cfg.r))
  {
    hide Opened; hide Enclosed; hide ToBytes; hide AdBytes; hide LlsBytes; hide WidthOf; hide Pow256; hide CellsKnown; hide IdsFit; hide Flag; hide IdsOf;
    hide Config.LbO; hide Encodable; hide LlsNonce;
    LlsNonceIs(instrId);
    var m := MiFor(p, mi, ids, instrId, cfg, key);
    var ad := AdBytes(instrId, m.flag, m.ids, |m.outs|, WidthOf(p.memoryCount), cfg.LbO());
    OpenEnclosed(key, LlsNonce(instrId), ad, LlsBytes(mi.lls, cfg.r));
    SealedIs(key, instrId, ad, LlsBytes(mi.lls, cfg.r));
  }

  lemma SealedIs(key: Key, instrId: nat, ad: seq<Byte>, code: seq<Byte>)
    requires LlsNonce(instrId) == ToBytes(instrId, 32)
    ensures Sealed(key, instrId, ad, code) == Enclosed(key, LlsNonce(instrId), ad, code)
  {
    hide ToBytes; hide LlsNonce; hide Schwaemm.Encrypt;
  }

  /** Evaluating a serialized multi-instruction on matching memory never fails a decryption. */
  lemma MiEvaluates(e: Element, p: Program, mi: Llmi, ids: map<nat, Id>, instrId: nat, cfg: Config, key: Key,
                    exec: seq<Byte>, ekey: seq<Byte>, clear: set<nat>, mem: Memory, cells: seq<seq<Byte>>)
    requires MiOk(mi, ids, instrId, cfg, p.memoryCount) && MiShape(mi, cfg) && 2 <= cfg.r <= 0x100_0000
    requires KeyOpened(e, exec, ekey) == Some(key) && Matches(e, exec, ids, clear, mem, cells) && |cells| == p.memoryCount
    requires forall j :: 0 <= j < |mi.inputs| ==> mi.inputs[j] !in clear && mi.inputs[j] < |cells|
    ensures var m := MiFor(p, mi, ids, instrId, cfg, key);
      EvalOpens(e, cfg, WidthOf(p.memoryCount), exec, ekey, m, Gather(cells, m.inps), Codes(mi.lls), Fetch(mem, mi.inputs))
  {
    hide *;
    var m := MiFor(p, mi, ids, instrId, cfg, key);
    MiForIs(p, mi, ids, instrId, cfg, key);
    MiOkParts(p, mi, ids, instrId, cfg);
    CodeOpens(p, mi, ids, instrId, cfg, key);
    InputsOpen(e, exec, ids, clear, mem, cells, mi.inputs);
    ShapeParts(mi, cfg);
    ExecuteSerialized(mi.lls, cfg.r, cfg.s);
    MakeOpens(e, cfg, WidthOf(p.memoryCount), exec, ekey, m, Gather(cells, m.inps), key, LlsBytes(mi.lls, cfg.r), Codes(mi.lls), Fetch(mem, mi.inputs));
  }

  lemma ShapeParts(mi: Llmi, cfg: Config)
    ensures MiShape(mi, cfg) <==>
      |mi.lls| <= cfg.s && |mi.inputs| <= cfg.r && |mi.outputs| <= cfg.lout <= cfg.r && AllInRange(Codes(mi.lls), cfg.r)
  {
    hide AllInRange;
  }

  lemma MiForIs(p: Program, mi: Llmi, ids: map<nat, Id>, instrId: nat, cfg: Config, key: Key)
    requires MiOk(mi, ids, instrId, cfg, p.memoryCount)
    ensures var m := MiFor(p, mi, ids, instrId, cfg, key);
      m.inps == mi.inputs && m.outs == mi.outputs && m.instrId == instrId && m.flag == Flag(p, mi) && AllIn(mi.inputs, ids) && m.ids == IdsOf(ids, mi.inputs)
  {
    hide CellsKnown; hide IdsFit; hide Pow256; hide LlsBytes; hide AdBytes; hide Sealed; hide Flag;
  }

  lemma MakeOpens(e: Element, cfg: Config, lbm: nat, exec: seq<Byte>, ekey: seq<Byte>, mi: Mi, cx: seq<seq<Byte>>, key: Key, code: seq<Byte>, codes: seq<Code>, vs: seq<Word>)
    requires KeyOpened(e, exec, ekey) == Some(key) && LlsDecrypt(mi, key, lbm, cfg.LbO()) == Some(code)
    requires Decode(code, 0, WidthOf(cfg.r)) == Some(codes) && Accepts(Some(codes), cfg.s, cfg.r) && Opens(e, exec, mi.ids, cx, vs)
    ensures EvalOpens(e, cfg, lbm, exec, ekey, mi, cx, codes, vs)
  {
    hide KeyOpened; hide LlsDecrypt; hide Decode; hide Accepts; hide Opens;
  }
}
