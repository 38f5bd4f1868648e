/** Instructions and their meaning: compiler/src/IR.py.
    An instruction over memory cells is an HLI, one over registers an LLI; both have the same shape.
    Opcodes other than MOV are interpreted by an arbitrary function over 32-bit words, so that what is
    proved holds for every arithmetic. */
module IR {
  import Words

  type Word = Words.Word

  datatype Opcode = MOV | XOR | OR | AND | LSL | LSR | LT | ADD | SUB | MUL | EQ | DIV | MOD | CMOV

  /** An operand: absent, a location (memory cell or register), or an immediate. */
  datatype Src = Absent | Loc(m: nat) | Imm(imm: Word)

  datatype Instr = Instr(opcode: Opcode, dst: nat, src1: Src, src2: Src, src3: Src) {
    /** `mem_inputs` */
    predicate Reads(m: nat) {
      src1 == Loc(m) || src2 == Loc(m) || src3 == Loc(m)
    }
  }

  function SrcSet(s: Src): (r: set<nat>)
    ensures forall m :: m in r <==> s == Loc(m)
  {
    if s.Loc? then {s.m} else {}
  }

  function MemInputs(i: Instr): (r: set<nat>)
    ensures forall m :: m in r <==> i.Reads(m)
  {
    SrcSet(i.src1) + SrcSet(i.src2) + SrcSet(i.src3)
  }

  // ----- meaning -----

  type Ops = (Opcode, Word, Word, Word) -> Word
  type Env = nat -> Word

  function Value(s: Src, env: Env): Word {
    match s
    case Absent => 0
    case Loc(m) => env(m)
    case Imm(w) => w
  }

  function Compute(ops: Ops, i: Instr, env: Env): Word {
    var a := Value(i.src1, env);
    if i.opcode == MOV then a else ops(i.opcode, a, Value(i.src2, env), Value(i.src3, env))
  }

  function Update(env: Env, m: nat, w: Word): Env {
    (x: nat) => if x == m then w else env(x)
  }

  function Exec(ops: Ops, i: Instr, env: Env): Env {
    Update(env, i.dst, Compute(ops, i, env))
  }

  function Run(ops: Ops, instrs: seq<Instr>, env: Env): Env {
    if instrs == [] then env
    else Exec(ops, instrs[|instrs| - 1], Run(ops, instrs[..|instrs| - 1], env))
  }

  lemma RunStep(ops: Ops, instrs: seq<Instr>, i: nat, env: Env)
    requires i < |instrs|
    ensures Run(ops, instrs[..i + 1], env) == Exec(ops, instrs[i], Run(ops, instrs[..i], env))
  {
    assert instrs[..i + 1][..i] == instrs[..i];
  }

  lemma RunSnoc(ops: Ops, instrs: seq<Instr>, i: Instr, env: Env)
    ensures Run(ops, instrs + [i], env) == Exec(ops, i, Run(ops, instrs, env))
  {
    assert (instrs + [i])[..|instrs|] == instrs;
  }

  lemma {:induction false} RunAppend(ops: Ops, a: seq<Instr>, b: seq<Instr>, env: Env)
    ensures Run(ops, a + b, env) == Run(ops, b, Run(ops, a, env))
    decreases |b|
  {
    if b == [] {
      assert a + b == a;
    } else {
      var k := |b| - 1;
      RunAppend(ops, a, b[..k], env);
      assert a + b == (a + b[..k]) + [b[k]];
      RunSnoc(ops, a + b[..k], b[k], env);
    }
  }

  /** What an instruction computes depends only on the locations it reads. */
  lemma ComputeReads(ops: Ops, i: Instr, e1: Env, e2: Env)
    requires forall m :: i.Reads(m) ==> e1(m) == e2(m)
    ensures Compute(ops, i, e1) == Compute(ops, i, e2)
  {
    assert i.src1.Loc? ==> i.Reads(i.src1.m);
    assert i.src2.Loc? ==> i.Reads(i.src2.m);
    assert i.src3.Loc? ==> i.Reads(i.src3.m);
  }
}
