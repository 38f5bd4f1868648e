/** Instruction sequences as bytes: `serialize_lls` of compiler/src/code_gen/serializer.py and
    `LLS_execute` of runtime/SEalgo.c, over the fourteen operand shapes. */
module LlsCode {
  import opened Options
  import opened IR
  import opened ByteView
  import opened BigEndian

  // ----- codes shared by both sides -----

  function OpcodeNumber(op: Opcode): (n: nat)
    ensures 1 <= n <= 15
  {
    match op
    case MOV => 1 case XOR => 2 case OR => 3 case AND => 4 case LSL => 5 case LSR => 6 case LT => 7
    case ADD => 8 case SUB => 9 case MUL => 10 case EQ => 11 case DIV => 13 case MOD => 14 case CMOV => 15
  }

  function OpcodeOf(n: nat): Option<Opcode> {
    match n
    case 1 => Some(MOV) case 2 => Some(XOR) case 3 => Some(OR) case 4 => Some(AND) case 5 => Some(LSL)
    case 6 => Some(LSR) case 7 => Some(LT) case 8 => Some(ADD) case 9 => Some(SUB) case 10 => Some(MUL)
    case 11 => Some(EQ) case 13 => Some(DIV) case 14 => Some(MOD) case 15 => Some(CMOV)
    case _ => None
  }

  datatype Kind = N | R | I
  datatype Shape = Shape(k1: Kind, k2: Kind, k3: Kind)

  /** `OperandCode`: the shapes that have a code. */
  function ShapeNumber(s: Shape): (n: Option<nat>)
    ensures n.Some? ==> n.value < 14
  {
    match s
    case Shape(I, N, N) => Some(0) case Shape(I, R, N) => Some(1) case Shape(I, R, R) => Some(2)
    case Shape(I, R, I) => Some(3) case Shape(I, I, N) => Some(4) case Shape(I, I, R) => Some(5)
    case Shape(I, I, I) => Some(6) case Shape(R, N, N) => Some(7) case Shape(R, R, N) => Some(8)
    case Shape(R, R, I) => Some(9) case Shape(R, R, R) => Some(10) case Shape(R, I, I) => Some(11)
    case Shape(R, I, R) => Some(12) case Shape(R, I, N) => Some(13)
    case _ => None
  }

  /** The `switch` over the flag in `LLS_execute`. */
  function ShapeOf(n: nat): Option<Shape> {
    match n
    case 0 => Some(Shape(I, N, N)) case 1 => Some(Shape(I, R, N)) case 2 => Some(Shape(I, R, R))
    case 3 => Some(Shape(I, R, I)) case 4 => Some(Shape(I, I, N)) case 5 => Some(Shape(I, I, R))
    case 6 => Some(Shape(I, I, I)) case 7 => Some(Shape(R, N, N)) case 8 => Some(Shape(R, R, N))
    case 9 => Some(Shape(R, R, I)) case 10 => Some(Shape(R, R, R)) case 11 => Some(Shape(R, I, I))
    case 12 => Some(Shape(R, I, R)) case 13 => Some(Shape(R, I, N))
    case _ => None
  }

  function KindOf(s: Src): Kind {
    match s case Absent => N case Loc(_) => R case Imm(_) => I
  }

  function ShapeIn(i: Instr): Shape {
    Shape(KindOf(i.src1), KindOf(i.src2), KindOf(i.src3))
  }

  // ----- writing -----

  predicate RegOk(s: Src, r: nat) {
    s.Loc? ==> s.m < r
  }

  /** What `serialize_lls` needs of an instruction not to raise: known registers and a shape with a code. */
  predicate Encodable(i: Instr, r: nat) {
    i.dst < r && RegOk(i.src1, r) && RegOk(i.src2, r) && RegOk(i.src3, r) && ShapeNumber(ShapeIn(i)).Some?
  }

  function SrcBytes(s: Src, lbr: nat): (bs: seq<Byte>) {
    match s case Absent => [] case Loc(m) => ToBytes(m, lbr) case Imm(w) => ToBytes(w, 4)
  }

  function InstrBytes(i: Instr, r: nat): (bs: seq<Byte>)
    requires Encodable(i, r)
    ensures |bs| >= 1
  {
    var lbr := WidthOf(r);
    [16 * OpcodeNumber(i.opcode) + ShapeNumber(ShapeIn(i)).value] + ToBytes(i.dst, lbr)
    + SrcBytes(i.src1, lbr) + SrcBytes(i.src2, lbr) + SrcBytes(i.src3, lbr)
  }

  predicate AllEncodable(lls: seq<Instr>, r: nat) {
    forall i :: 0 <= i < |lls| ==> Encodable(lls[i], r)
  }

  function LlsBytes(lls: seq<Instr>, r: nat): (bs: seq<Byte>)
    requires AllEncodable(lls, r)
    ensures |bs| >= |lls|
  {
    if lls == [] then [] else InstrBytes(lls[0], r) + LlsBytes(lls[1..], r)
  }

  lemma {:induction false} LlsBytesSnoc(lls: seq<Instr>, i: Instr, r: nat)
    requires AllEncodable(lls, r) && Encodable(i, r)
    ensures AllEncodable(lls + [i], r) && LlsBytes(lls + [i], r) == LlsBytes(lls, r) + InstrBytes(i, r)
  {
    hide InstrBytes; hide Encodable;
    if lls == [] {
      assert lls + [i] == [i] && [i][1..] == [];
      assert LlsBytes([i], r) == InstrBytes(i, r) + [];
    } else {
      LlsBytesSnoc(lls[1..], i, r);
      assert (lls + [i])[1..] == lls[1..] + [i];
    }
  }

  /** `serialize_lls`: fails exactly when some instruction cannot be written. */
  method SerializeLls(lls: seq<Instr>, r: nat) returns (out: Option<seq<Byte>>)
    ensures out == if AllEncodable(lls, r) then Some(LlsBytes(lls, r)) else None
  {
    hide InstrBytes; hide Encodable;
    var code: seq<Byte> := [];
    for k := 0 to |lls|
      invariant AllEncodable(lls[..k], r) && code == LlsBytes(lls[..k], r)
    {
      if !Encodable(lls[k], r) {
        return None;
      }
      LlsBytesSnoc(lls[..k], lls[k], r);
      assert lls[..k] + [lls[k]] == lls[..k + 1];
      code := code + InstrBytes(lls[k], r);
    }
    assert lls[..|lls|] == lls;
    return Some(code);
  }

  // ----- reading -----

  datatype Parsed<+T> = Fail | Ok(value: T, pos: nat)

  /** A number of the given width at a position. */
  function ReadUint(code: seq<Byte>, pos: nat, width: nat): (r: Parsed<Word>)
    ensures r.Ok? ==> r.pos == pos + width <= |code| && width >= 1
  {
    if pos + width > |code| then Fail
    else match LoadU32(code[pos..pos + width]) case None => Fail case Some(w) => (LoadU32Is(code[pos..pos + width]); Ok(w, pos + width))
  }

  function ReadSrc(code: seq<Byte>, pos: nat, k: Kind, lbr: nat): (r: Parsed<Src>)
    ensures r.Ok? ==> pos <= r.pos && (pos <= |code| ==> r.pos <= |code|)
  {
    match k
    case N => Ok(Absent, pos)
    case R => (match ReadUint(code, pos, lbr) case Fail => Fail case Ok(w, p) => Ok(Loc(w), p))
    case I => (match ReadUint(code, pos, 4) case Fail => Fail case Ok(w, p) => Ok(Imm(w), p))
  }

  datatype Code = Nop | Do(instr: Instr)

  function ReadCode(code: seq<Byte>, pos: nat, lbr: nat): (r: Parsed<Code>)
    requires pos < |code|
    ensures r.Ok? ==> pos < r.pos <= |code|
  {
    var op, flag := code[pos] / 16, code[pos] % 16;
    if op == 0 then Ok(Nop, pos + 1) else
    match ReadUint(code, pos + 1, lbr) case Fail => Fail case Ok(dst, p0) =>
    match ShapeOf(flag) case None => Fail case Some(sh) =>
    match ReadSrc(code, p0, sh.k1, lbr) case Fail => Fail case Ok(s1, p1) =>
    match ReadSrc(code, p1, sh.k2, lbr) case Fail => Fail case Ok(s2, p2) =>
    match ReadSrc(code, p2, sh.k3, lbr) case Fail => Fail case Ok(s3, p3) =>
    match OpcodeOf(op) case None => Fail case Some(o) => Ok(Do(Instr(o, dst, s1, s2, s3)), p3)
  }

  /** The codes from a position to the end. */
  function Decode(code: seq<Byte>, pos: nat, lbr: nat): (r: Option<seq<Code>>)
    requires pos <= |code|
    decreases |code| - pos
  {
    if pos == |code| then Some([]) else
    match ReadCode(code, pos, lbr) case Fail => None case Ok(c, p) =>
    match Decode(code, p, lbr) case None => None case Some(cs) => Some([c] + cs)
  }

  // ----- reading what was written -----

  /** `bytes` stand at `pos`. */
  ghost predicate At(code: seq<Byte>, pos: nat, bytes: seq<Byte>) {
    pos + |bytes| <= |code| && code[pos..pos + |bytes|] == bytes
  }

  lemma AtSplit(code: seq<Byte>, pos: nat, a: seq<Byte>, b: seq<Byte>)
    requires At(code, pos, a + b)
    ensures At(code, pos, a) && At(code, pos + |a|, b)
  {
    var ab := code[pos..pos + |a + b|];
    assert ab[..|a|] == code[pos..pos + |a|] && ab[|a|..] == code[pos + |a|..pos + |a| + |b|];
    assert (a + b)[..|a|] == a && (a + b)[|a|..] == b;
  }

  lemma ReadWritten(code: seq<Byte>, pos: nat, n: nat, width: nat)
    requires At(code, pos, ToBytes(n, width)) && n < Pow256(width) && 1 <= width <= 4
    ensures n < 0x1_0000_0000 && ReadUint(code, pos, width) == Ok(n, pos + width)
  {
    hide ToBytes; hide FromBytes; hide LoadU32;
    FromToBytes(n, width);
    LoadU32Is(ToBytes(n, width));
  }

  lemma Pow256Monotone(a: nat, b: nat)
    requires a <= b
    ensures Pow256(a) <= Pow256(b)
  {
    if a < b { Pow256Monotone(a, b - 1); }
  }

  lemma ReadWrittenSrc(code: seq<Byte>, pos: nat, s: Src, r: nat)
    requires RegOk(s, r) && 2 <= r <= 0x100_0000 && At(code, pos, SrcBytes(s, WidthOf(r)))
    ensures ReadSrc(code, pos, KindOf(s), WidthOf(r)) == Ok(s, pos + |SrcBytes(s, WidthOf(r))|)
  {
    hide ReadUint; hide WidthOf; hide ToBytes; hide Pow256;
    WidthFits(r);
    Pow256Of3();
    match s
    case Absent =>
    case Loc(m) => ReadWritten(code, pos, m, WidthOf(r));
    case Imm(w) => ReadWritten(code, pos, w, 4);
  }

  lemma CodesInvert(op: Opcode, s: Shape)
    requires ShapeNumber(s).Some?
    ensures OpcodeOf(OpcodeNumber(op)) == Some(op) && ShapeOf(ShapeNumber(s).value) == Some(s)
  {
  }

  /** One instruction is read back, and reading stops right after it. */
  lemma ReadWrittenInstr(code: seq<Byte>, pos: nat, i: Instr, r: nat)
    requires Encodable(i, r) && 2 <= r <= 0x100_0000 && At(code, pos, InstrBytes(i, r))
    ensures pos < |code|
    ensures ReadCode(code, pos, WidthOf(r)) == Ok(Do(i), pos + |InstrBytes(i, r)|)
  {
    hide ReadUint; hide ReadSrc; hide SrcBytes; hide WidthOf; hide ToBytes; hide Pow256; hide OpcodeNumber; hide ShapeNumber;
    hide OpcodeOf; hide ShapeOf; hide At; hide KindOf;
    var lbr := WidthOf(r);
    var head := [16 * OpcodeNumber(i.opcode) + ShapeNumber(ShapeIn(i)).value];
    var d, a, b, c := ToBytes(i.dst, lbr), SrcBytes(i.src1, lbr), SrcBytes(i.src2, lbr), SrcBytes(i.src3, lbr);
    AtSplit(code, pos, head + d + a + b, c);
    AtSplit(code, pos, head + d + a, b);
    AtSplit(code, pos, head + d, a);
    AtSplit(code, pos, head, d);
    AtHead(code, pos, head);
    WidthFits(r);
    CodesInvert(i.opcode, ShapeIn(i));
    ReadWritten(code, pos + 1, i.dst, lbr);
    ReadWrittenSrc(code, pos + |head + d|, i.src1, r);
    ReadWrittenSrc(code, pos + |head + d + a|, i.src2, r);
    ReadWrittenSrc(code, pos + |head + d + a + b|, i.src3, r);
  }

  lemma AtHead(code: seq<Byte>, pos: nat, head: seq<Byte>)
    requires |head| == 1 && At(code, pos, head)
    ensures pos < |code| && code[pos] == head[0]
  {
    assert code[pos..pos + 1][0] == code[pos];
  }

  function Codes(lls: seq<Instr>): (r: seq<Code>)
    ensures |r| == |lls| && forall i :: 0 <= i < |r| ==> r[i] == Do(lls[i])
  {
    seq(|lls|, i requires 0 <= i < |lls| => Do(lls[i]))
  }

  /** Decoding inverts writing, and consumes exactly the bytes. */
  lemma {:induction false} DecodeWritten(code: seq<Byte>, pos: nat, lls: seq<Instr>, r: nat)
    requires AllEncodable(lls, r) && 2 <= r <= 0x100_0000 && At(code, pos, LlsBytes(lls, r)) && pos + |LlsBytes(lls, r)| == |code|
    ensures Decode(code, pos, WidthOf(r)) == Some(Codes(lls))
    decreases |lls|
  {
    hide ReadCode; hide InstrBytes; hide Encodable; hide At; hide WidthOf;
    if lls != [] {
      AtSplit(code, pos, InstrBytes(lls[0], r), LlsBytes(lls[1..], r));
      ReadWrittenInstr(code, pos, lls[0], r);
      DecodeWritten(code, pos + |InstrBytes(lls[0], r)|, lls[1..], r);
      assert [Do(lls[0])] + Codes(lls[1..]) == Codes(lls);
    }
  }

  // ----- executing -----

  function FileOf(regs: seq<Word>): Env {
    (x: nat) => if x < |regs| then regs[x] else 0
  }

  predicate InRange(i: Instr, r: nat) {
    i.dst < r && RegOk(i.src1, r) && RegOk(i.src2, r) && RegOk(i.src3, r)
  }

  predicate CodeInRange(c: Code, r: nat) {
    c.Do? ==> InRange(c.instr, r)
  }

  function Step(ops: Ops, c: Code, regs: seq<Word>): (r: seq<Word>)
    requires CodeInRange(c, |regs|)
    ensures |r| == |regs|
  {
    match c case Nop => regs case Do(i) => regs[i.dst := Compute(ops, i, FileOf(regs))]
  }

  predicate AllInRange(cs: seq<Code>, r: nat) {
    forall i :: 0 <= i < |cs| ==> CodeInRange(cs[i], r)
  }

  /** Direct execution of a sequence of codes on the register file. */
  function Execute(ops: Ops, cs: seq<Code>, regs: seq<Word>): (r: seq<Word>)
    requires AllInRange(cs, |regs|)
    ensures |r| == |regs|
  {
    if cs == [] then regs else Execute(ops, cs[1..], Step(ops, cs[0], regs))
  }

  /** The register file after direct execution is what the instruction sequence means. */
  lemma {:induction false} ExecuteIsRun(ops: Ops, lls: seq<Instr>, regs: seq<Word>, x: nat)
    requires AllInRange(Codes(lls), |regs|)
    ensures FileOf(Execute(ops, Codes(lls), regs))(x) == Run(ops, lls, FileOf(regs))(x)
  {
    ExecuteIsRunAll(ops, lls, regs, FileOf(regs));
  }

  lemma {:induction false} ExecuteIsRunAll(ops: Ops, lls: seq<Instr>, regs: seq<Word>, env: Env)
    requires AllInRange(Codes(lls), |regs|) && forall x :: env(x) == FileOf(regs)(x)
    ensures forall x :: FileOf(Execute(ops, Codes(lls), regs))(x) == Run(ops, lls, env)(x)
    decreases |lls|
  {
    hide Compute; hide CodeInRange;
    if lls != [] {
      var i := lls[0];
      assert Codes(lls)[0] == Do(i) && Codes(lls)[1..] == Codes(lls[1..]);
      var next: Env := Exec(ops, i, env);
      assert InRange(i, |regs|) by { CodeRange(Codes(lls)[0], |regs|); }
      ComputeReads(ops, i, env, FileOf(regs));
      ExecuteIsRunAll(ops, lls[1..], Step(ops, Do(i), regs), next);
      assert [i] + lls[1..] == lls;
      RunAppend(ops, [i], lls[1..], env);
      RunSnoc(ops, [], i, env);
      assert [] + [i] == [i];
    }
  }

  lemma CodeRange(c: Code, r: nat)
    requires CodeInRange(c, r) && c.Do?
    ensures InRange(c.instr, r)
  {
  }

  /** `load_regvalue` and `load_immvalue`: the operand's value, failing on a register outside the file. */
  method LoadOperand(reg: array<Word>, code: seq<Byte>, ptr: nat, k: Kind, lbr: nat) returns (r: Parsed<Word>, ghost s: Src)
    ensures r.Ok? <==> ReadSrc(code, ptr, k, lbr).Ok? && RegOk(ReadSrc(code, ptr, k, lbr).value, reg.Length)
    ensures r.Ok? ==> r.pos == ReadSrc(code, ptr, k, lbr).pos && s == ReadSrc(code, ptr, k, lbr).value && r.value == Value(s, FileOf(reg[..]))
  {
    hide ReadUint;
    s := Absent;
    match k
    case N => r := Ok(0, ptr);
    case R =>
      match ReadUint(code, ptr, lbr) {
        case Fail => r := Fail;
        case Ok(w, p) =>
          s := Loc(w);
          if w < reg.Length { r := Ok(reg[w], p); } else { r := Fail; }
      }
    case I =>
      match ReadUint(code, ptr, 4) {
        case Fail => r := Fail;
        case Ok(w, p) => s := Imm(w); r := Ok(w, p);
      }
  }

  /** One turn of the loop of `LLS_execute`. */
  method ExecuteOne(ops: Ops, reg: array<Word>, code: seq<Byte>, ptr: nat, lbr: nat) returns (next: Option<nat>)
    requires ptr < |code|
    modifies reg
    ensures next.Some? <==> ReadCode(code, ptr, lbr).Ok? && CodeInRange(ReadCode(code, ptr, lbr).value, reg.Length)
    ensures next.Some? ==> next.value == ReadCode(code, ptr, lbr).pos && reg[..] == Step(ops, ReadCode(code, ptr, lbr).value, old(reg[..]))
  {
    hide ReadUint; hide ReadSrc; hide OpcodeOf; hide ShapeOf; hide Value;
    var op, flag := code[ptr] / 16, code[ptr] % 16;
    if op == 0 {
      return Some(ptr + 1);
    }
    var dst := ReadUint(code, ptr + 1, lbr);
    if dst.Fail? { return None; }
    var shape := ShapeOf(flag);
    if shape.None? { return None; }
    var val1, s1 := LoadOperand(reg, code, dst.pos, shape.value.k1, lbr);
    if val1.Fail? { return None; }
    var val2, s2 := LoadOperand(reg, code, val1.pos, shape.value.k2, lbr);
    if val2.Fail? { return None; }
    var val3, s3 := LoadOperand(reg, code, val2.pos, shape.value.k3, lbr);
    if val3.Fail? { return None; }
    var opcode := OpcodeOf(op);
    if opcode.None? || dst.value >= reg.Length { return None; }
    var ret := if opcode.value == MOV then val1.value else ops(opcode.value, val1.value, val2.value, val3.value);
    reg[dst.value] := ret;
    return Some(val3.pos);
  }

  /** What remains to be executed after `done` has been. */
  ghost predicate Remaining(code: seq<Byte>, lbr: nat, done: seq<Code>, pos: nat)
    requires pos <= |code|
  {
    Decode(code, 0, lbr) == match Decode(code, pos, lbr) case None => None case Some(cs) => Some(done + cs)
  }

  lemma RemainingStep(code: seq<Byte>, lbr: nat, done: seq<Code>, pos: nat)
    requires pos < |code| && Remaining(code, lbr, done, pos)
    ensures ReadCode(code, pos, lbr).Fail? ==> Decode(code, 0, lbr).None?
    ensures ReadCode(code, pos, lbr).Ok? ==> Remaining(code, lbr, done + [ReadCode(code, pos, lbr).value], ReadCode(code, pos, lbr).pos)
    ensures Decode(code, 0, lbr).Some? ==> |done| < |Decode(code, 0, lbr).value| && Decode(code, 0, lbr).value[|done|] == ReadCode(code, pos, lbr).value
  {
    hide ReadCode;
    if ReadCode(code, pos, lbr).Ok? {
      var p := ReadCode(code, pos, lbr).pos;
      if Decode(code, p, lbr).Some? {
        var c := ReadCode(code, pos, lbr).value;
        assert done + ([c] + Decode(code, p, lbr).value) == done + [c] + Decode(code, p, lbr).value;
      }
    }
  }

  lemma {:induction false} ExecuteSnoc(ops: Ops, cs: seq<Code>, c: Code, regs: seq<Word>)
    requires AllInRange(cs, |regs|) && CodeInRange(c, |regs|)
    ensures AllInRange(cs + [c], |regs|) && Execute(ops, cs + [c], regs) == Step(ops, c, Execute(ops, cs, regs))
    decreases |cs|
  {
    hide Step; hide CodeInRange;
    if cs == [] {
      assert cs + [c] == [c] && [c][1..] == [];
    } else {
      ExecuteSnoc(ops, cs[1..], c, Step(ops, cs[0], regs));
      assert (cs + [c])[1..] == cs[1..] + [c];
    }
  }

  /** The sequences the secure element accepts. */
  ghost predicate Accepts(d: Option<seq<Code>>, maxLength: nat, r: nat) {
    d.Some? && |d.value| <= maxLength && AllInRange(d.value, r)
  }

  lemma NotAccepted(d: Option<seq<Code>>, maxLength: nat, r: nat, k: nat)
    requires d.Some? ==> k < |d.value| && (k >= maxLength || !CodeInRange(d.value[k], r))
    ensures !Accepts(d, maxLength, r)
  {
  }

  /** `LLS_execute`: succeeds exactly on the accepted sequences, and then leaves the registers as direct
      execution of the decoded sequence would. */
  method LlsExecute(ops: Ops, reg: array<Word>, code: seq<Byte>, lbr: nat, maxLength: nat) returns (ok: bool)
    modifies reg
    ensures ok <==> Accepts(Decode(code, 0, lbr), maxLength, reg.Length)
    ensures ok ==> reg[..] == Execute(ops, Decode(code, 0, lbr).value, old(reg[..]))
  {
    hide ReadCode; hide Step; hide Decode; hide CodeInRange; hide Remaining; hide Accepts; hide AllInRange; hide Execute;
    ghost var goal := Decode(code, 0, lbr);
    ghost var regs := reg[..];
    ghost var done: seq<Code> := [];
    StartExecute(ops, code, lbr, regs);
    var ptr := 0;
    var counter := 0;
    while ptr != |code|
      invariant 0 <= ptr <= |code| && counter == |done| <= maxLength && |regs| == reg.Length
      invariant Remaining(code, lbr, done, ptr) && AllInRange(done, reg.Length)
      invariant reg[..] == Execute(ops, done, regs)
      decreases |code| - ptr
    {
      counter := counter + 1;
      RemainingStep(code, lbr, done, ptr);
      if counter > maxLength {
        NotAccepted(goal, maxLength, reg.Length, |done|);
        return false;
      }
      var next := ExecuteOne(ops, reg, code, ptr, lbr);
      if next.None? {
        NotAccepted(goal, maxLength, reg.Length, |done|);
        return false;
      }
      ExecuteSnoc(ops, done, ReadCode(code, ptr, lbr).value, regs);
      done := done + [ReadCode(code, ptr, lbr).value];
      ptr := next.value;
    }
    EndExecute(code, lbr, done, maxLength, reg.Length);
    return true;
  }

  lemma StartExecute(ops: Ops, code: seq<Byte>, lbr: nat, regs: seq<Word>)
    ensures Remaining(code, lbr, [], 0) && AllInRange([], |regs|) && Execute(ops, [], regs) == regs
  {
    hide Decode;
    if Decode(code, 0, lbr).Some? { assert [] + Decode(code, 0, lbr).value == Decode(code, 0, lbr).value; }
  }

  lemma EndExecute(code: seq<Byte>, lbr: nat, done: seq<Code>, maxLength: nat, r: nat)
    requires Remaining(code, lbr, done, |code|) && AllInRange(done, r) && |done| <= maxLength
    ensures Accepts(Decode(code, 0, lbr), maxLength, r) && Decode(code, 0, lbr) == Some(done)
  {
    assert Decode(code, |code|, lbr) == Some([]);
    assert done + [] == done;
  }

  /** What was serialized is accepted, and executing it is executing the sequence. */
  lemma ExecuteSerialized(lls: seq<Instr>, r: nat, maxLength: nat)
    requires AllEncodable(lls, r) && 2 <= r <= 0x100_0000 && |lls| <= maxLength
    ensures Decode(LlsBytes(lls, r), 0, WidthOf(r)) == Some(Codes(lls))
    ensures Accepts(Decode(LlsBytes(lls, r), 0, WidthOf(r)), maxLength, r)
  {
    hide Decode; hide LlsBytes; hide WidthOf;
    var code := LlsBytes(lls, r);
    assert code[0..|code|] == code;
    DecodeWritten(code, 0, lls, r);
  }
}
