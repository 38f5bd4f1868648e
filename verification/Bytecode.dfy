/** The bytecode of a program: `serialize` of compiler/src/code_gen/serializer.py, which also numbers the
    cells in `id_dict`, and the parser `interpret_prog` of runtime/interpreter.c. */
module Bytecode {
  import Bits
  import opened IR
  import opened ByteView
  import opened BigEndian
  import opened LlsCode
  import Schwaemm

  // ----- programs -----

  datatype Llmi = Llmi(lls: seq<Instr>, inputs: seq<nat>, outputs: seq<nat>)
  datatype Program = Program(instrs: seq<Llmi>, inputs: seq<nat>, outputs: seq<nat>, memoryCount: nat)

  /** The limits of the secure element; the word size is 32. */
  datatype Config = Config(version: nat, lin: nat, lout: nat, r: nat, s: nat) {
    function LbO(): nat { WidthOf(lout) }
  }

  /** Where an encrypted word comes from: batch or multi-instruction, and position in it. */
  datatype Id = Id(instr: nat, out: nat)

  type Key = k: seq<Byte> | |k| == 16 witness seq(16, _ => 0)
  const Aead := Schwaemm.S256x128

  /** A multi-instruction as the runtime sees it. */
  datatype Mi = Mi(inps: seq<nat>, outs: seq<nat>, instrId: nat, flag: nat, ids: seq<Id>, code: seq<Byte>)
  datatype Listing = Listing(inps: seq<nat>, outs: seq<nat>, mis: seq<Mi>)

  // ----- numbering -----

  /** `id_dict` after the first `k` program inputs. */
  function InputIds(inputs: seq<nat>, lout: nat, k: nat): map<nat, Id>
    requires lout >= 1 && k <= |inputs|
  {
    if k == 0 then map[] else InputIds(inputs, lout, k - 1)[inputs[k - 1] := Id((k - 1) / lout + 1, (k - 1) % lout)]
  }

  /** `id_dict` after the first `j` outputs of a multi-instruction. */
  function OutputIds(ids: map<nat, Id>, outs: seq<nat>, instrId: nat, j: nat): map<nat, Id>
    requires j <= |outs|
  {
    if j == 0 then ids else OutputIds(ids, outs, instrId, j - 1)[outs[j - 1] := Id(instrId, j - 1)]
  }

  function InstrId(p: Program, lout: nat, i: nat): nat
    requires lout >= 1
  {
    (i + 1) + (|p.inputs| / lout + 1)
  }

  /** `id_dict` before multi-instruction `k`. */
  function IdsAt(p: Program, lout: nat, k: nat): map<nat, Id>
    requires lout >= 1 && k <= |p.instrs|
  {
    if k == 0 then InputIds(p.inputs, lout, |p.inputs|)
    else OutputIds(IdsAt(p, lout, k - 1), p.instrs[k - 1].outputs, InstrId(p, lout, k - 1), |p.instrs[k - 1].outputs|)
  }

  /** The numbers of input batches are below those of multi-instructions, and these are distinct. */
  lemma NumbersDiffer(p: Program, lout: nat, i: nat, j: nat, x: nat)
    requires lout >= 1 && x < |p.inputs| && i != j
    ensures x / lout + 1 < InstrId(p, lout, i) != InstrId(p, lout, j)
  {
    DivMonotone(x, |p.inputs|, lout);
  }

  lemma DivMonotone(a: nat, b: nat, d: nat)
    requires a <= b && d >= 1
    ensures a / d <= b / d
  {
    var e := a / d - b / d;
    assert d * e == d * (a / d) - d * (b / d);
    if e >= 1 { Bits.MulLeft(d, 1, e); }
  }

  predicate Reveals(p: Program, mi: Llmi) {
    exists j :: 0 <= j < |mi.outputs| && mi.outputs[j] in p.outputs
  }

  // ----- the format -----

  function NumsBytes(ns: seq<nat>, width: nat): (bs: seq<Byte>)
    ensures |bs| == width * |ns|
  {
    if ns == [] then [] else NumsBytes(ns[..|ns| - 1], width) + ToBytes(ns[|ns| - 1], width)
  }

  function IdsBytes(ids: seq<Id>, lbo: nat): (bs: seq<Byte>) {
    if ids == [] then []
    else IdsBytes(ids[..|ids| - 1], lbo) + (ToBytes(ids[|ids| - 1].instr, 4) + ToBytes(ids[|ids| - 1].out, lbo))
  }

  /** The associated data under which the instruction bytes are sealed. */
  function AdBytes(instrId: nat, flag: nat, ids: seq<Id>, nout: nat, lbm: nat, lbo: nat): seq<Byte> {
    ToBytes(instrId, 4) + ToBytes(flag, 1) + ToBytes(|ids|, lbm) + IdsBytes(ids, lbo) + ToBytes(nout, lbm)
  }

  function MiBytes(mi: Mi, lbm: nat, lbo: nat): seq<Byte> {
    ToBytes(|mi.inps|, lbm) + (NumsBytes(mi.inps, lbm) + (ToBytes(|mi.outs|, lbm) + (NumsBytes(mi.outs, lbm)
    + (ToBytes(mi.instrId, 4) + (ToBytes(mi.flag, 1) + (IdsBytes(mi.ids, lbo) + (ToBytes(|mi.code|, 4) + mi.code)))))))
  }

  function MisBytes(mis: seq<Mi>, lbm: nat, lbo: nat): seq<Byte> {
    if mis == [] then [] else MisBytes(mis[..|mis| - 1], lbm, lbo) + MiBytes(mis[|mis| - 1], lbm, lbo)
  }

  function ListingBytes(l: Listing, lbm: nat, lbo: nat): seq<Byte> {
    ToBytes(|l.inps|, lbm) + (NumsBytes(l.inps, lbm) + (ToBytes(|l.outs|, lbm) + (NumsBytes(l.outs, lbm)
    + (ToBytes(|l.mis|, 4) + MisBytes(l.mis, lbm, lbo)))))
  }

  // ----- what fits the format -----

  predicate NumsFit(ns: seq<nat>, width: nat) {
    |ns| < Pow256(width) && forall i :: 0 <= i < |ns| ==> ns[i] < Pow256(width)
  }

  predicate IdsFit(ids: seq<Id>, lbo: nat) {
    forall i :: 0 <= i < |ids| ==> ids[i].instr < Pow256(4) && ids[i].out < Pow256(lbo)
  }

  predicate MiFits(mi: Mi, lbm: nat, lbo: nat) {
    && NumsFit(mi.inps, lbm) && NumsFit(mi.outs, lbm) && |mi.ids| == |mi.inps| && IdsFit(mi.ids, lbo)
    && mi.instrId < Pow256(4) && mi.flag < Pow256(1) && |mi.code| < Pow256(4)
  }

  predicate MisFit(mis: seq<Mi>, lbm: nat, lbo: nat) {
    forall i :: 0 <= i < |mis| ==> MiFits(mis[i], lbm, lbo)
  }

  predicate ListingFits(l: Listing, lbm: nat, lbo: nat) {
    NumsFit(l.inps, lbm) && NumsFit(l.outs, lbm) && |l.mis| < Pow256(4) && MisFit(l.mis, lbm, lbo)
  }

  // ----- reading -----

  function ReadNums(code: seq<Byte>, pos: nat, width: nat, n: nat): (r: Parsed<seq<nat>>)
    ensures r.Ok? ==> |r.value| == n && pos <= r.pos
  {
    if n == 0 then Ok([], pos) else
    match ReadNums(code, pos, width, n - 1) case Fail => Fail case Ok(ns, p) =>
    match ReadUint(code, p, width) case Fail => Fail case Ok(w, q) => Ok(ns + [w], q)
  }

  function ReadIds(code: seq<Byte>, pos: nat, lbo: nat, n: nat): (r: Parsed<seq<Id>>)
    ensures r.Ok? ==> |r.value| == n && pos <= r.pos
  {
    if n == 0 then Ok([], pos) else
    match ReadIds(code, pos, lbo, n - 1) case Fail => Fail case Ok(ids, p) =>
    match ReadUint(code, p, 4) case Fail => Fail case Ok(a, q) =>
    match ReadUint(code, q, lbo) case Fail => Fail case Ok(b, q') => Ok(ids + [Id(a, b)], q')
  }

  function ReadMi(code: seq<Byte>, pos: nat, lbm: nat, lbo: nat): (r: Parsed<Mi>)
    ensures r.Ok? ==> pos <= r.pos
  {
    match ReadUint(code, pos, lbm) case Fail => Fail case Ok(ni, p0) =>
    match ReadNums(code, p0, lbm, ni) case Fail => Fail case Ok(inps, p1) =>
    match ReadUint(code, p1, lbm) case Fail => Fail case Ok(no, p2) =>
    match ReadNums(code, p2, lbm, no) case Fail => Fail case Ok(outs, p3) =>
    match ReadUint(code, p3, 4) case Fail => Fail case Ok(instrId, p4) =>
    match ReadUint(code, p4, 1) case Fail => Fail case Ok(flag, p5) =>
    match ReadIds(code, p5, lbo, ni) case Fail => Fail case Ok(ids, p6) =>
    match ReadUint(code, p6, 4) case Fail => Fail case Ok(len, p7) =>
    if p7 + len > |code| then Fail else Ok(Mi(inps, outs, instrId, flag, ids, code[p7..p7 + len]), p7 + len)
  }

  function ReadMis(code: seq<Byte>, pos: nat, lbm: nat, lbo: nat, n: nat): (r: Parsed<seq<Mi>>)
    ensures r.Ok? ==> |r.value| == n && pos <= r.pos
  {
    if n == 0 then Ok([], pos) else
    match ReadMis(code, pos, lbm, lbo, n - 1) case Fail => Fail case Ok(mis, p) =>
    match ReadMi(code, p, lbm, lbo) case Fail => Fail case Ok(mi, q) => Ok(mis + [mi], q)
  }

  function ReadListing(code: seq<Byte>, pos: nat, lbm: nat, lbo: nat): (r: Parsed<Listing>)
    ensures r.Ok? ==> pos <= r.pos
  {
    match ReadUint(code, pos, lbm) case Fail => Fail case Ok(ni, p0) =>
    match ReadNums(code, p0, lbm, ni) case Fail => Fail case Ok(inps, p1) =>
    match ReadUint(code, p1, lbm) case Fail => Fail case Ok(no, p2) =>
    match ReadNums(code, p2, lbm, no) case Fail => Fail case Ok(outs, p3) =>
    match ReadUint(code, p3, 4) case Fail => Fail case Ok(n, p4) =>
    match ReadMis(code, p4, lbm, lbo, n) case Fail => Fail case Ok(mis, p5) => Ok(Listing(inps, outs, mis), p5)
  }

  // ----- reading inverts writing -----

  lemma {:induction false} ReadWrittenNums(code: seq<Byte>, pos: nat, width: nat, ns: seq<nat>)
    requires At(code, pos, NumsBytes(ns, width)) && 1 <= width <= 4 && forall i :: 0 <= i < |ns| ==> ns[i] < Pow256(width)
    ensures ReadNums(code, pos, width, |ns|) == Ok(ns, pos + |NumsBytes(ns, width)|)
    decreases |ns|
  {
    hide ReadUint; hide At; hide ToBytes; hide Pow256;
    if ns != [] {
      var k := |ns| - 1;
      assert ns[..k] + [ns[k]] == ns;
      AtSplit(code, pos, NumsBytes(ns[..k], width), ToBytes(ns[k], width));
      ReadWrittenNums(code, pos, width, ns[..k]);
      ReadWritten(code, pos + |NumsBytes(ns[..k], width)|, ns[k], width);
    }
  }

  lemma IdsFitParts(ids: seq<Id>, lbo: nat)
    requires IdsFit(ids, lbo) && ids != []
    ensures var k := |ids| - 1; IdsFit(ids[..k], lbo) && ids[k].instr < Pow256(4) && ids[k].out < Pow256(lbo)
  {
    hide Pow256;
  }

  lemma {:induction false} ReadWrittenIds(code: seq<Byte>, pos: nat, lbo: nat, ids: seq<Id>)
    requires At(code, pos, IdsBytes(ids, lbo)) && 1 <= lbo <= 4 && IdsFit(ids, lbo)
    ensures ReadIds(code, pos, lbo, |ids|) == Ok(ids, pos + |IdsBytes(ids, lbo)|)
    decreases |ids|
  {
    hide ReadUint; hide At; hide ToBytes; hide Pow256; hide IdsFit;
    if ids != [] {
      var k := |ids| - 1;
      IdsFitParts(ids, lbo);
      assert ids[..k] + [ids[k]] == ids;
      var a, b := ToBytes(ids[k].instr, 4), ToBytes(ids[k].out, lbo);
      AtSplit(code, pos, IdsBytes(ids[..k], lbo), a + b);
      var p := pos + |IdsBytes(ids[..k], lbo)|;
      AtSplit(code, p, a, b);
      ReadWrittenIds(code, pos, lbo, ids[..k]);
      ReadWritten(code, p, ids[k].instr, 4);
      ReadWritten(code, p + 4, ids[k].out, lbo);
    }
  }

  /** A count followed by that many numbers. */
  lemma ReadCounted(code: seq<Byte>, pos: nat, width: nat, ns: seq<nat>, rest: seq<Byte>)
    requires At(code, pos, ToBytes(|ns|, width) + (NumsBytes(ns, width) + rest)) && 1 <= width <= 4 && NumsFit(ns, width)
    ensures ReadUint(code, pos, width) == Ok(|ns|, pos + width)
    ensures ReadNums(code, pos + width, width, |ns|) == Ok(ns, pos + width + width * |ns|)
    ensures At(code, pos + width + width * |ns|, rest)
  {
    hide ReadUint; hide ReadNums; hide At; hide ToBytes; hide Pow256; hide NumsBytes;
    AtSplit(code, pos, ToBytes(|ns|, width), NumsBytes(ns, width) + rest);
    AtSplit(code, pos + width, NumsBytes(ns, width), rest);
    ReadWritten(code, pos, |ns|, width);
    ReadWrittenNums(code, pos + width, width, ns);
  }

  lemma ReadOne(code: seq<Byte>, pos: nat, width: nat, n: nat, rest: seq<Byte>)
    requires At(code, pos, ToBytes(n, width) + rest) && 1 <= width <= 4 && n < Pow256(width)
    ensures n < 0x1_0000_0000 && ReadUint(code, pos, width) == Ok(n, pos + width) && At(code, pos + width, rest)
  {
    hide ReadUint; hide At; hide ToBytes; hide Pow256;
    AtSplit(code, pos, ToBytes(n, width), rest);
    ReadWritten(code, pos, n, width);
  }

  lemma AtIs(code: seq<Byte>, pos: nat, bytes: seq<Byte>)
    requires At(code, pos, bytes)
    ensures pos + |bytes| <= |code| && code[pos..pos + |bytes|] == bytes
  {
  }

  lemma ReadWrittenMi(code: seq<Byte>, pos: nat, lbm: nat, lbo: nat, mi: Mi)
    requires At(code, pos, MiBytes(mi, lbm, lbo)) && 1 <= lbm <= 4 && 1 <= lbo <= 4 && MiFits(mi, lbm, lbo)
    ensures ReadMi(code, pos, lbm, lbo) == Ok(mi, pos + |MiBytes(mi, lbm, lbo)|)
  {
    hide ReadUint; hide ReadNums; hide ReadIds; hide At; hide ToBytes; hide Pow256; hide NumsBytes; hide IdsBytes; hide NumsFit; hide IdsFit;
    var d := ToBytes(|mi.code|, 4) + mi.code;
    var c := ToBytes(mi.flag, 1) + (IdsBytes(mi.ids, lbo) + d);
    var b := ToBytes(mi.instrId, 4) + c;
    var a := ToBytes(|mi.outs|, lbm) + (NumsBytes(mi.outs, lbm) + b);
    ReadCounted(code, pos, lbm, mi.inps, a);
    var p1 := pos + lbm + lbm * |mi.inps|;
    ReadCounted(code, p1, lbm, mi.outs, b);
    var p3 := p1 + lbm + lbm * |mi.outs|;
    ReadOne(code, p3, 4, mi.instrId, c);
    ReadOne(code, p3 + 4, 1, mi.flag, IdsBytes(mi.ids, lbo) + d);
    AtSplit(code, p3 + 5, IdsBytes(mi.ids, lbo), d);
    ReadWrittenIds(code, p3 + 5, lbo, mi.ids);
    var p6 := p3 + 5 + |IdsBytes(mi.ids, lbo)|;
    ReadOne(code, p6, 4, |mi.code|, mi.code);
    AtIs(code, p6 + 4, mi.code);
  }

  lemma {:induction false} ReadWrittenMis(code: seq<Byte>, pos: nat, lbm: nat, lbo: nat, mis: seq<Mi>)
    requires At(code, pos, MisBytes(mis, lbm, lbo)) && 1 <= lbm <= 4 && 1 <= lbo <= 4 && MisFit(mis, lbm, lbo)
    ensures ReadMis(code, pos, lbm, lbo, |mis|) == Ok(mis, pos + |MisBytes(mis, lbm, lbo)|)
    decreases |mis|
  {
    hide ReadMi; hide At; hide MiBytes; hide MiFits;
    if mis != [] {
      var k := |mis| - 1;
      assert mis[..k] + [mis[k]] == mis;
      AtSplit(code, pos, MisBytes(mis[..k], lbm, lbo), MiBytes(mis[k], lbm, lbo));
      ReadWrittenMis(code, pos, lbm, lbo, mis[..k]);
      ReadWrittenMi(code, pos + |MisBytes(mis[..k], lbm, lbo)|, lbm, lbo, mis[k]);
    }
  }

  /** Parsing inverts serialization, for every listing that fits the format. */
  lemma ReadWrittenListing(code: seq<Byte>, pos: nat, lbm: nat, lbo: nat, l: Listing)
    requires At(code, pos, ListingBytes(l, lbm, lbo)) && 1 <= lbm <= 4 && 1 <= lbo <= 4 && ListingFits(l, lbm, lbo)
    ensures ReadListing(code, pos, lbm, lbo) == Ok(l, pos + |ListingBytes(l, lbm, lbo)|)
  {
    hide ReadUint; hide ReadNums; hide ReadMis; hide At; hide ToBytes; hide Pow256; hide NumsBytes; hide MisBytes; hide NumsFit; hide MisFit;
    var m := MisBytes(l.mis, lbm, lbo);
    var b := ToBytes(|l.mis|, 4) + m;
    ReadCounted(code, pos, lbm, l.inps, ToBytes(|l.outs|, lbm) + (NumsBytes(l.outs, lbm) + b));
    var p1 := pos + lbm + lbm * |l.inps|;
    ReadCounted(code, p1, lbm, l.outs, b);
    var p3 := p1 + lbm + lbm * |l.outs|;
    ReadOne(code, p3, 4, |l.mis|, m);
    ReadWrittenMis(code, p3 + 4, lbm, lbo, l.mis);
  }
}
