/** `serialize` of compiler/src/code_gen/serializer.py: the bytecode is written while `id_dict` follows the
    cells. Python's exceptions (a number that does not fit its width, a cell or register outside its
    dictionary, a cell without ID) are the result `None`. */
module Serializer {
  import opened Options
  import opened ByteView
  import opened BigEndian
  import opened LlsCode
  import opened Bytecode
  import Schwaemm

  // ----- what is written -----

  function IdsOf(ids: map<nat, Id>, cells: seq<nat>): (r: seq<Id>)
    requires forall i :: 0 <= i < |cells| ==> cells[i] in ids
    ensures |r| == |cells| && forall i :: 0 <= i < |r| ==> r[i] == ids[cells[i]]
  {
    seq(|cells|, i requires 0 <= i < |cells| => ids[cells[i]])
  }

  predicate AllIn(cells: seq<nat>, ids: map<nat, Id>) {
    forall i :: 0 <= i < |cells| ==> cells[i] in ids
  }

  predicate CellsKnown(cells: seq<nat>, memoryCount: nat) {
    |cells| < Pow256(WidthOf(memoryCount)) && forall i :: 0 <= i < |cells| ==> cells[i] < memoryCount
  }

  /** The conditions under which multi-instruction `mi` is written without an exception. */
  predicate MiOk(mi: Llmi, ids: map<nat, Id>, instrId: nat, cfg: Config, memoryCount: nat) {
    && CellsKnown(mi.inputs, memoryCount) && CellsKnown(mi.outputs, memoryCount)
    && AllIn(mi.inputs, ids) && IdsFit(IdsOf(ids, mi.inputs), cfg.LbO())
    && instrId < Pow256(4) && AllEncodable(mi.lls, cfg.r) && |LlsBytes(mi.lls, cfg.r)| + 16 < Pow256(4)
  }

  function Flag(p: Program, mi: Llmi): nat {
    if Reveals(p, mi) then 1 else 0
  }

  function NonceOf(instrId: nat): (n: seq<Byte>)
    ensures |n| == 32
  {
    ToBytes(instrId, 32)
  }

  function Sealed(key: Key, instrId: nat, ad: seq<Byte>, code: seq<Byte>): (c: seq<Byte>)
    ensures |c| == |code| + 16
  {
    Schwaemm.Encrypt(Aead, key, NonceOf(instrId), ad, code)
  }

  function MiFor(p: Program, mi: Llmi, ids: map<nat, Id>, instrId: nat, cfg: Config, key: Key): (r: Mi)
    requires MiOk(mi, ids, instrId, cfg, p.memoryCount)
  {
    var inputIds := IdsOf(ids, mi.inputs);
    var ad := AdBytes(instrId, Flag(p, mi), inputIds, |mi.outputs|, WidthOf(p.memoryCount), cfg.LbO());
    Mi(mi.inputs, mi.outputs, instrId, Flag(p, mi), inputIds, Sealed(key, instrId, ad, LlsBytes(mi.lls, cfg.r)))
  }

  predicate MiOkAt(p: Program, cfg: Config, k: nat)
    requires cfg.lout >= 1 && k < |p.instrs|
  {
    MiOk(p.instrs[k], IdsAt(p, cfg.lout, k), InstrId(p, cfg.lout, k), cfg, p.memoryCount)
  }

  predicate AllMisOk(p: Program, cfg: Config, n: nat)
    requires cfg.lout >= 1 && n <= |p.instrs|
  {
    forall k :: 0 <= k < n ==> MiOkAt(p, cfg, k)
  }

  function MisFor(p: Program, cfg: Config, key: Key, n: nat): (r: seq<Mi>)
    requires cfg.lout >= 1 && n <= |p.instrs| && AllMisOk(p, cfg, n)
    ensures |r| == n
    ensures forall k :: 0 <= k < n ==> r[k] == MiAt(p, cfg, key, k)
  {
    seq(n, k requires 0 <= k < n => MiAt(p, cfg, key, k))
  }

  function MiAt(p: Program, cfg: Config, key: Key, k: nat): Mi
    requires cfg.lout >= 1 && k < |p.instrs| && MiOkAt(p, cfg, k)
  {
    MiFor(p, p.instrs[k], IdsAt(p, cfg.lout, k), InstrId(p, cfg.lout, k), cfg, key)
  }

  function Meta(p: Program, cfg: Config): seq<nat> {
    [cfg.version, 32, cfg.lin, cfg.lout, cfg.r, cfg.s, p.memoryCount]
  }

  predicate HeadOk(p: Program, cfg: Config) {
    && cfg.lout >= 1 && cfg.r >= 1 && p.memoryCount >= 1
    && (forall i :: 0 <= i < 7 ==> Meta(p, cfg)[i] < Pow256(4))
    && CellsKnown(p.inputs, p.memoryCount) && CellsKnown(p.outputs, p.memoryCount) && |p.instrs| < Pow256(4)
  }

  predicate Serializable(p: Program, cfg: Config) {
    HeadOk(p, cfg) && AllMisOk(p, cfg, |p.instrs|)
  }

  function ListingFor(p: Program, cfg: Config, key: Key): Listing
    requires Serializable(p, cfg)
  {
    Listing(p.inputs, p.outputs, MisFor(p, cfg, key, |p.instrs|))
  }

  function HeadBytes(p: Program, cfg: Config, sealedKey: seq<Byte>): seq<Byte> {
    NumsBytes(Meta(p, cfg), 4) + sealedKey
  }

  /** The whole file. */
  function ProgramBytes(p: Program, cfg: Config, key: Key, sealedKey: seq<Byte>): seq<Byte>
    requires Serializable(p, cfg)
  {
    HeadBytes(p, cfg, sealedKey) + ListingBytes(ListingFor(p, cfg, key), WidthOf(p.memoryCount), cfg.LbO())
  }

  // ----- what is written fits the format -----

  lemma CellsFit(cells: seq<nat>, memoryCount: nat)
    requires CellsKnown(cells, memoryCount)
    ensures NumsFit(cells, WidthOf(memoryCount))
  {
    hide WidthOf; hide Pow256;
    WidthFits(memoryCount);
  }

  lemma MiForFits(p: Program, mi: Llmi, ids: map<nat, Id>, instrId: nat, cfg: Config, key: Key)
    requires MiOk(mi, ids, instrId, cfg, p.memoryCount)
    ensures MiFits(MiFor(p, mi, ids, instrId, cfg, key), WidthOf(p.memoryCount), cfg.LbO())
  {
    hide CellsKnown; hide NumsFit; hide IdsFit; hide Pow256; hide WidthOf; hide LlsBytes; hide AdBytes; hide Sealed; hide Encodable;
    hide Reveals; hide Config.LbO;
    CellsFit(mi.inputs, p.memoryCount);
    CellsFit(mi.outputs, p.memoryCount);
    Pow256Of3();
  }

  lemma ListingForFits(p: Program, cfg: Config, key: Key)
    requires Serializable(p, cfg)
    ensures ListingFits(ListingFor(p, cfg, key), WidthOf(p.memoryCount), cfg.LbO())
  {
    hide CellsKnown; hide NumsFit; hide Pow256; hide WidthOf; hide MiFits; hide MiFor; hide IdsAt; hide InstrId; hide Config.LbO; hide MiOk;
    CellsFit(p.inputs, p.memoryCount);
    CellsFit(p.outputs, p.memoryCount);
    forall k | 0 <= k < |p.instrs|
      ensures MiFits(MiAt(p, cfg, key, k), WidthOf(p.memoryCount), cfg.LbO())
    {
      MiForFits(p, p.instrs[k], IdsAt(p, cfg.lout, k), InstrId(p, cfg.lout, k), cfg, key);
    }
  }

  // ----- the loops -----

  /** A count and the cells, from `memdict`. */
  method WriteCells(cells: seq<nat>, memoryCount: nat) returns (out: Option<seq<Byte>>)
    ensures out == if CellsKnown(cells, memoryCount) then Some(ToBytes(|cells|, WidthOf(memoryCount)) + NumsBytes(cells, WidthOf(memoryCount))) else None
  {
    hide WidthOf; hide ToBytes; hide Pow256;
    var lbm := WidthOf(memoryCount);
    if |cells| >= Pow256(lbm) { return None; }
    var bytes: seq<Byte> := [];
    for i := 0 to |cells|
      invariant bytes == NumsBytes(cells[..i], lbm) && forall j :: 0 <= j < i ==> cells[j] < memoryCount
    {
      if cells[i] >= memoryCount { return None; }
      assert cells[..i + 1][..i] == cells[..i];
      bytes := bytes + ToBytes(cells[i], lbm);
    }
    assert cells[..|cells|] == cells;
    return Some(ToBytes(|cells|, lbm) + bytes);
  }

  method NumberInputs(inputs: seq<nat>, lout: nat) returns (ids: map<nat, Id>)
    requires lout >= 1
    ensures ids == InputIds(inputs, lout, |inputs|)
  {
    ids := map[];
    for idx := 0 to |inputs|
      invariant ids == InputIds(inputs, lout, idx)
    {
      ids := ids[inputs[idx] := Id(idx / lout + 1, idx % lout)];
    }
  }

  method NumberOutputs(before: map<nat, Id>, outs: seq<nat>, instrId: nat) returns (ids: map<nat, Id>)
    ensures ids == OutputIds(before, outs, instrId, |outs|)
  {
    ids := before;
    for outputId := 0 to |outs|
      invariant ids == OutputIds(before, outs, instrId, outputId)
    {
      ids := ids[outs[outputId] := Id(instrId, outputId)];
    }
  }

  /** The IDs of the input cells, and their bytes. */
  method WriteIds(cells: seq<nat>, ids: map<nat, Id>, lbo: nat) returns (out: Option<(seq<Id>, seq<Byte>)>)
    ensures out == if AllIn(cells, ids) && IdsFit(IdsOf(ids, cells), lbo) then Some((IdsOf(ids, cells), IdsBytes(IdsOf(ids, cells), lbo))) else None
  {
    hide ToBytes; hide Pow256;
    var got: seq<Id>, bytes: seq<Byte> := [], [];
    for i := 0 to |cells|
      invariant AllIn(cells[..i], ids) && got == IdsOf(ids, cells[..i]) && IdsFit(got, lbo) && bytes == IdsBytes(got, lbo)
    {
      if cells[i] !in ids { return None; }
      var id := ids[cells[i]];
      if id.instr >= Pow256(4) || id.out >= Pow256(lbo) {
        NotFitting(cells, ids, lbo, i);
        return None;
      }
      assert (got + [id])[..i] == got && got + [id] == IdsOf(ids, cells[..i + 1]);
      got := got + [id];
      bytes := bytes + (ToBytes(id.instr, 4) + ToBytes(id.out, lbo));
    }
    assert cells[..|cells|] == cells;
    return Some((got, bytes));
  }

  lemma NotFitting(cells: seq<nat>, ids: map<nat, Id>, lbo: nat, i: nat)
    requires i < |cells| && cells[i] in ids && (ids[cells[i]].instr >= Pow256(4) || ids[cells[i]].out >= Pow256(lbo))
    ensures !(AllIn(cells, ids) && IdsFit(IdsOf(ids, cells), lbo))
  {
    if AllIn(cells, ids) {
      assert IdsOf(ids, cells)[i] == ids[cells[i]];
    }
  }

  method RevealFlag(outs: seq<nat>, outputs: seq<nat>) returns (flag: nat)
    ensures flag == if exists j :: 0 <= j < |outs| && outs[j] in outputs then 1 else 0
  {
    flag := 0;
    for j := 0 to |outs|
      invariant flag == if exists k :: 0 <= k < j && outs[k] in outputs then 1 else 0
    {
      if outs[j] in outputs { flag := 1; }
    }
  }

  /** One multi-instruction. */
  method WriteMi(p: Program, mi: Llmi, ids: map<nat, Id>, instrId: nat, cfg: Config, key: Key) returns (out: Option<seq<Byte>>)
    ensures out == if MiOk(mi, ids, instrId, cfg, p.memoryCount)
                   then Some(MiBytes(MiFor(p, mi, ids, instrId, cfg, key), WidthOf(p.memoryCount), cfg.LbO())) else None
  {
    hide *;
    var lbm, lbo := WidthOf(p.memoryCount), cfg.LbO();
    var inps := WriteCells(mi.inputs, p.memoryCount);
    var outs := WriteCells(mi.outputs, p.memoryCount);
    var inputIds := WriteIds(mi.inputs, ids, lbo);
    var code := SerializeLls(mi.lls, cfg.r);
    MiOkParts(p, mi, ids, instrId, cfg);
    if inps.None? || outs.None? || inputIds.None? || code.None? || instrId >= Pow256(4) { return None; }
    var flag := RevealFlag(mi.outputs, p.outputs);
    FlagIs(p, mi);
    var ad := AdBytes(instrId, flag, inputIds.value.0, |mi.outputs|, lbm, lbo);
    var sealed := Sealed(key, instrId, ad, code.value);
    if |sealed| >= Pow256(4) { return None; }
    MiBytesFlat(p, mi, ids, instrId, cfg, key);
    return Some(inps.value + outs.value + ToBytes(instrId, 4) + ToBytes(flag, 1) + inputIds.value.1 + ToBytes(|sealed|, 4) + sealed);
  }

  lemma FlagIs(p: Program, mi: Llmi)
    ensures Flag(p, mi) == if exists j :: 0 <= j < |mi.outputs| && mi.outputs[j] in p.outputs then 1 else 0
  {
  }

  lemma MiOkParts(p: Program, mi: Llmi, ids: map<nat, Id>, instrId: nat, cfg: Config)
    ensures MiOk(mi, ids, instrId, cfg, p.memoryCount) <==>
      && CellsKnown(mi.inputs, p.memoryCount) && CellsKnown(mi.outputs, p.memoryCount)
      && AllIn(mi.inputs, ids) && IdsFit(IdsOf(ids, mi.inputs), cfg.LbO())
      && instrId < Pow256(4) && AllEncodable(mi.lls, cfg.r) && |LlsBytes(mi.lls, cfg.r)| + 16 < Pow256(4)
    ensures AllIn(mi.inputs, ids) <==> forall i :: 0 <= i < |mi.inputs| ==> mi.inputs[i] in ids
  {
    hide CellsKnown; hide IdsFit; hide Pow256; hide AllEncodable; hide LlsBytes; hide Config.LbO;
  }

  lemma MiBytesFlat(p: Program, mi: Llmi, ids: map<nat, Id>, instrId: nat, cfg: Config, key: Key)
    requires MiOk(mi, ids, instrId, cfg, p.memoryCount)
    ensures AllIn(mi.inputs, ids) && AllEncodable(mi.lls, cfg.r)
    ensures var lbm, lbo := WidthOf(p.memoryCount), cfg.LbO();
      var inputIds := IdsOf(ids, mi.inputs);
      var sealed := Sealed(key, instrId, AdBytes(instrId, Flag(p, mi), inputIds, |mi.outputs|, lbm, lbo), LlsBytes(mi.lls, cfg.r));
      MiBytes(MiFor(p, mi, ids, instrId, cfg, key), lbm, lbo)
      == (ToBytes(|mi.inputs|, lbm) + NumsBytes(mi.inputs, lbm)) + (ToBytes(|mi.outputs|, lbm) + NumsBytes(mi.outputs, lbm))
         + ToBytes(instrId, 4) + ToBytes(Flag(p, mi), 1) + IdsBytes(inputIds, lbo) + ToBytes(|sealed|, 4) + sealed
  {
    hide CellsKnown; hide IdsFit; hide Pow256; hide AllEncodable; hide LlsBytes; hide Config.LbO; hide ToBytes; hide NumsBytes;
    hide IdsBytes; hide WidthOf; hide AdBytes; hide Sealed; hide Flag; hide IdsOf;
    var lbm, lbo := WidthOf(p.memoryCount), cfg.LbO();
    var m := MiFor(p, mi, ids, instrId, cfg, key);
    Regroup(ToBytes(|m.inps|, lbm), NumsBytes(m.inps, lbm), ToBytes(|m.outs|, lbm), NumsBytes(m.outs, lbm),
            ToBytes(m.instrId, 4), ToBytes(m.flag, 1), IdsBytes(m.ids, lbo), ToBytes(|m.code|, 4), m.code);
  }

  lemma Regroup(a: seq<Byte>, b: seq<Byte>, c: seq<Byte>, d: seq<Byte>, e: seq<Byte>, f: seq<Byte>, g: seq<Byte>, h: seq<Byte>, i: seq<Byte>)
    ensures a + (b + (c + (d + (e + (f + (g + (h + i))))))) == (a + b) + (c + d) + e + f + g + h + i
  {
    Assoc(a + b, c + d, e + (f + (g + (h + i))));
    Assoc((a + b) + (c + d), e, f + (g + (h + i)));
    Assoc((a + b) + (c + d) + e, f, g + (h + i));
    Assoc((a + b) + (c + d) + e + f, g, h + i);
    Assoc((a + b) + (c + d) + e + f + g, h, i);
    Assoc(a, b, c + (d + (e + (f + (g + (h + i))))));
    Assoc(c, d, e + (f + (g + (h + i))));
  }

  lemma Assoc(x: seq<Byte>, y: seq<Byte>, z: seq<Byte>)
    ensures x + (y + z) == (x + y) + z
  {
  }

  /** `serialize`: the file is written exactly when nothing raises. */
  method Serialize(p: Program, cfg: Config, key: Key, sealedKey: seq<Byte>) returns (out: Option<seq<Byte>>)
    ensures out == if Serializable(p, cfg) then Some(ProgramBytes(p, cfg, key, sealedKey)) else None
  {
    hide *;
    SerializableParts(p, cfg);
    if cfg.lout < 1 || cfg.r < 1 || p.memoryCount < 1 || !MetaFits(p, cfg) || |p.instrs| >= Pow256(4) { return None; }
    var lbm, lbo := WidthOf(p.memoryCount), cfg.LbO();
    var bytecode := HeadBytes(p, cfg, sealedKey);
    var inps := WriteCells(p.inputs, p.memoryCount);
    var outs := WriteCells(p.outputs, p.memoryCount);
    if inps.None? || outs.None? { return None; }
    var idDict := NumberInputs(p.inputs, cfg.lout);
    var body: seq<Byte> := [];
    StartMis(p, cfg, key);
    for i := 0 to |p.instrs|
      invariant AllMisOk(p, cfg, i) && idDict == IdsAt(p, cfg.lout, i)
      invariant body == MisBytes(MisFor(p, cfg, key, i), lbm, lbo)
    {
      var instrId := (i + 1) + (|p.inputs| / cfg.lout + 1);
      var mi := WriteMi(p, p.instrs[i], idDict, instrId, cfg, key);
      NextMi(p, cfg, key, i);
      if mi.None? { return None; }
      body := body + mi.value;
      idDict := NumberOutputs(idDict, p.instrs[i].outputs, instrId);
    }
    ProgramBytesFlat(p, cfg, key, sealedKey);
    return Some(bytecode + inps.value + outs.value + ToBytes(|p.instrs|, 4) + body);
  }

  predicate MetaFits(p: Program, cfg: Config) {
    forall i :: 0 <= i < 7 ==> Meta(p, cfg)[i] < Pow256(4)
  }

  lemma SerializableParts(p: Program, cfg: Config)
    ensures Serializable(p, cfg) <==>
      && cfg.lout >= 1 && cfg.r >= 1 && p.memoryCount >= 1 && MetaFits(p, cfg)
      && CellsKnown(p.inputs, p.memoryCount) && CellsKnown(p.outputs, p.memoryCount) && |p.instrs| < Pow256(4)
      && AllMisOk(p, cfg, |p.instrs|)
  {
    hide CellsKnown; hide AllMisOk; hide Pow256;
  }

  lemma StartMis(p: Program, cfg: Config, key: Key)
    requires cfg.lout >= 1
    ensures AllMisOk(p, cfg, 0) && MisBytes(MisFor(p, cfg, key, 0), WidthOf(p.memoryCount), cfg.LbO()) == []
    ensures IdsAt(p, cfg.lout, 0) == InputIds(p.inputs, cfg.lout, |p.inputs|)
  {
  }

  lemma NextMi(p: Program, cfg: Config, key: Key, i: nat)
    requires cfg.lout >= 1 && i < |p.instrs| && AllMisOk(p, cfg, i)
    ensures InstrId(p, cfg.lout, i) == (i + 1) + (|p.inputs| / cfg.lout + 1)
    ensures IdsAt(p, cfg.lout, i + 1) == OutputIds(IdsAt(p, cfg.lout, i), p.instrs[i].outputs, InstrId(p, cfg.lout, i), |p.instrs[i].outputs|)
    ensures var ok := MiOk(p.instrs[i], IdsAt(p, cfg.lout, i), InstrId(p, cfg.lout, i), cfg, p.memoryCount);
      && (ok <==> AllMisOk(p, cfg, i + 1))
      && (!ok ==> !AllMisOk(p, cfg, |p.instrs|))
      && (ok ==>
        MisBytes(MisFor(p, cfg, key, i + 1), WidthOf(p.memoryCount), cfg.LbO())
        == MisBytes(MisFor(p, cfg, key, i), WidthOf(p.memoryCount), cfg.LbO())
           + MiBytes(MiFor(p, p.instrs[i], IdsAt(p, cfg.lout, i), InstrId(p, cfg.lout, i), cfg, key), WidthOf(p.memoryCount), cfg.LbO()))
  {
    hide MiOk; hide MiFor; hide MiBytes; hide WidthOf; hide Config.LbO;
    if AllMisOk(p, cfg, i + 1) {
      var a, b := MisFor(p, cfg, key, i + 1), MisFor(p, cfg, key, i);
      assert a[..i] == b;
      assert a[i] == MiAt(p, cfg, key, i);
    }
    if MiOk(p.instrs[i], IdsAt(p, cfg.lout, i), InstrId(p, cfg.lout, i), cfg, p.memoryCount) {
      assert MiOkAt(p, cfg, i);
    }
  }

  lemma ProgramBytesFlat(p: Program, cfg: Config, key: Key, sealedKey: seq<Byte>)
    requires Serializable(p, cfg)
    ensures cfg.lout >= 1 && AllMisOk(p, cfg, |p.instrs|)
    ensures var lbm, lbo := WidthOf(p.memoryCount), cfg.LbO();
      ProgramBytes(p, cfg, key, sealedKey) ==
      HeadBytes(p, cfg, sealedKey) + (ToBytes(|p.inputs|, lbm) + NumsBytes(p.inputs, lbm)) + (ToBytes(|p.outputs|, lbm) + NumsBytes(p.outputs, lbm))
      + ToBytes(|p.instrs|, 4) + MisBytes(MisFor(p, cfg, key, |p.instrs|), lbm, lbo)
  {
    hide CellsKnown; hide Pow256; hide WidthOf; hide Config.LbO; hide ToBytes; hide NumsBytes; hide MisBytes; hide HeadBytes; hide MisFor; hide AllMisOk;
    var lbm, lbo := WidthOf(p.memoryCount), cfg.LbO();
    var h := HeadBytes(p, cfg, sealedKey);
    var a, b, c, d := ToBytes(|p.inputs|, lbm), NumsBytes(p.inputs, lbm), ToBytes(|p.outputs|, lbm), NumsBytes(p.outputs, lbm);
    var e, f := ToBytes(|p.instrs|, 4), MisBytes(MisFor(p, cfg, key, |p.instrs|), lbm, lbo);
    Assoc(a, b, c + (d + (e + f)));
    Assoc(c, d, e + f);
    Assoc(h, a + b, (c + d) + (e + f));
    Assoc(h + (a + b), c + d, e + f);
    Assoc(h + (a + b) + (c + d), e, f);
  }
}
