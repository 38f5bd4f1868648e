/** From the allocator to the secure element: what `MLMI_to_LLMI` produces stays within the register file, can be
    serialized, and, evaluated by the runtime, computes the multi-instruction whatever the registers held. */
module Linking {
  import opened IR
  import opened RegAlloc
  import opened Lowering
  import Allocator
  import opened LlsCode
  import SecureElement

  ghost predicate Below(s: State, k: nat) {
    (forall m :: m in s.regs ==> s.regs[m] < k) && (forall r :: r in s.free ==> r < k)
  }

  /** Every register of a run lies in the register file. */
  lemma {:induction false} RegistersBelow(p: Problem, u: nat, run: seq<State>, i: nat)
    requires Regular(p, u) && p.lout <= p.k && IsRun(p, u, run) && i < |run|
    ensures Below(run[i], p.k)
    decreases i
  {
    hide Regular;
    Sizes(p, u);
    if i == 0 {
      InitialBelow(p, u, run[0]);
    } else {
      RegistersBelow(p, u, run, i - 1);
      assert RegAlloc.Step(p, i - 1, run[i - 1], run[i]);
      StepBelow(p, i - 1, run[i - 1], run[i]);
    }
  }

  lemma InitialBelow(p: Problem, u: nat, s: State)
    requires Regular(p, u) && IsInitial(p, u, s)
    ensures Below(s, p.k)
  {
    forall m | m in s.regs ensures s.regs[m] < p.k {
      if m !in UsedInputs(p) { var i :| 0 <= i < |p.outputs| && p.outputs[i] == m; }
    }
  }

  lemma StepBelow(p: Problem, i: nat, s: State, t: State)
    requires i < |p.instrs| && RegAlloc.Step(p, i, s, t) && Below(s, p.k)
    ensures Below(t, p.k)
  {
    forall r | r in Released(p, i, s) ensures r < p.k { }
  }

  /** Each operand and destination of the sequence has a register. */
  lemma AllMapped(p: Problem, u: nat, run: seq<State>, i: nat, m: nat)
    requires Regular(p, u) && p.lout <= p.k && Complete(p, u, run) && i < |p.instrs| && p.instrs[i].Reads(m)
    ensures m in run[|p.instrs|].regs
  {
    CompleteParts(p, u, run);
    RunMapped(p, u, run, |p.instrs|);
    hide IsRun; hide UsedInputs; hide Complete;
    if Defines(p.instrs, m, i) { var j :| 0 <= j < i && p.instrs[j].dst == m; }
  }

  lemma DestinationHasRegister(p: Problem, u: nat, run: seq<State>, i: nat)
    requires Regular(p, u) && p.lout <= p.k && Complete(p, u, run) && i < |p.instrs|
    ensures |run| == |p.instrs| + 1 && p.instrs[i].dst in run[|p.instrs|].regs
  {
    CompleteParts(p, u, run);
    RunMapped(p, u, run, |p.instrs|);
    hide Regular; hide IsRun; hide UsedInputs; hide Complete;
    assert Defines(p.instrs, p.instrs[i].dst, |p.instrs|);
  }

  lemma BelowAt(s: State, k: nat, m: nat)
    requires Below(s, k) && m in s.regs
    ensures s.regs[m] < k
  {
  }

  lemma LoweredInstrInRange(p: Problem, u: nat, run: seq<State>, i: nat)
    requires Regular(p, u) && p.lout <= p.k && Complete(p, u, run) && i < |p.instrs|
    ensures InRange(LowerInstr(run[|p.instrs|].regs, p.instrs[i]), p.k)
    ensures ShapeIn(LowerInstr(run[|p.instrs|].regs, p.instrs[i])) == ShapeIn(p.instrs[i])
  {
    hide Regular; hide Complete; hide Below; hide IsRun;
    CompleteParts(p, u, run);
    var regs := run[|p.instrs|].regs;
    var s := p.instrs[i];
    DestinationHasRegister(p, u, run, i);
    RegistersBelow(p, u, run, |p.instrs|);
    BelowAt(run[|p.instrs|], p.k, s.dst);
    if s.src1.Loc? { OperandBelow(p, u, run, i, s.src1.m); }
    if s.src2.Loc? { OperandBelow(p, u, run, i, s.src2.m); }
    if s.src3.Loc? { OperandBelow(p, u, run, i, s.src3.m); }
  }

  lemma OperandBelow(p: Problem, u: nat, run: seq<State>, i: nat, m: nat)
    requires Regular(p, u) && p.lout <= p.k && Complete(p, u, run) && i < |p.instrs| && p.instrs[i].Reads(m) && Below(run[|p.instrs|], p.k)
    ensures m in run[|p.instrs|].regs && run[|p.instrs|].regs[m] < p.k
  {
    hide *;
    CompleteParts(p, u, run);
    AllMapped(p, u, run, i, m);
    BelowAt(run[|p.instrs|], p.k, m);
  }

  /** The lowered sequence is accepted by the secure element, and can be written when its shapes have codes. */
  lemma LoweredInRange(p: Problem, u: nat, run: seq<State>, code: seq<Instr>)
    requires Regular(p, u) && p.lout <= p.k && Complete(p, u, run) && code == LowerAll(run[|p.instrs|].regs, p.instrs)
    ensures AllInRange(Codes(code), p.k)
    ensures (forall i :: 0 <= i < |p.instrs| ==> ShapeNumber(ShapeIn(p.instrs[i])).Some?) ==> AllEncodable(code, p.k)
  {
    hide Regular; hide Complete; hide ShapeNumber; hide ShapeIn; hide InRange; hide LowerInstr;
    forall i | 0 <= i < |code| ensures InRange(code[i], p.k) && ShapeIn(code[i]) == ShapeIn(p.instrs[i]) {
      LoweredInstrInRange(p, u, run, i);
    }
    forall i | 0 <= i < |code| && ShapeNumber(ShapeIn(p.instrs[i])).Some? ensures Encodable(code[i], p.k) {
      MakeEncodable(code[i], p.k);
    }
  }

  lemma MakeEncodable(i: Instr, r: nat)
    requires InRange(i, r) && ShapeNumber(ShapeIn(i)).Some?
    ensures Encodable(i, r)
  {
  }

  /** What the secure element returns for an unexposed output is what the multi-instruction computes for it, when the words
      loaded for the inputs it uses are theirs, for every interpretation of the opcodes and all initial register contents `g`. */
  lemma LoweredEvaluates(ops: Ops, p: Problem, u: nat, run: seq<State>, code: seq<Instr>, env: Env, vs: seq<Word>, g: seq<Word>, b: nat, x: nat)
    requires WellFormed(p, u) && Complete(p, u, run) && code == LowerAll(run[|p.instrs|].regs, p.instrs)
    requires |vs| == |p.inputs| <= |g| == p.k && AllInRange(Codes(code), |g|) && |p.outputs| <= p.lout <= p.k
    requires forall m :: m in UsedInputs(p) ==> env(m) == vs[FirstIndex(p.inputs, m)]
    requires x < |p.outputs| && b < |p.instrs| && p.instrs[b].dst == p.outputs[x] && !Exposed(p, p.outputs[x])
    ensures SecureElement.Evaluated(ops, Codes(code), p.lout, |p.outputs|, vs, g)[x] == Run(ops, p.instrs, env)(p.outputs[x])
  {
    hide *;
    Parts(p, u);
    Sizes(p, u);
    var regs := vs + g[|vs|..];
    SecureElement.EvaluatedAt(ops, Codes(code), p.lout, |p.outputs|, vs, g);
    ExecuteIsRun(ops, code, regs, p.k - p.lout + x);
    FileAt(Execute(ops, Codes(code), regs), p.k - p.lout + x);
    LoadedFile(p, env, vs, regs);
    Allocator.LoweredOutput(ops, p, u, run, env, FileOf(regs), b, x, code);
  }

  lemma FileAt(regs: seq<Word>, x: nat)
    requires x < |regs|
    ensures FileOf(regs)(x) == regs[x]
  {
  }

  lemma LoadedFile(p: Problem, env: Env, vs: seq<Word>, regs: seq<Word>)
    requires |p.inputs| == |vs| <= |regs| && regs[..|vs|] == vs
    requires forall m :: m in UsedInputs(p) ==> env(m) == vs[FirstIndex(p.inputs, m)]
    ensures Loaded(p, env, FileOf(regs))
  {
    hide Used;
    forall m | m in UsedInputs(p) ensures FileOf(regs)(FirstIndex(p.inputs, m)) == env(m) {
      var i := FirstIndex(p.inputs, m);
      assert regs[i] == regs[..|vs|][i];
    }
  }
}
