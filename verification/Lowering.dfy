/** Lowering of a multi-instruction: `get_registers_mapping` of compiler/src/lowering/reg_alloc.py and
    `MLMI_to_LLMI` of compiler/src/lowering/lowering.py. */
module Lowering {
  import opened IR
  import opened RegAlloc

  // ----- the meaning of lowered code -----

  function LowerSrc(regs: map<nat, nat>, s: Src): Src {
    if s.Loc? && s.m in regs then Loc(regs[s.m]) else s
  }

  function LowerInstr(regs: map<nat, nat>, i: Instr): Instr {
    Instr(i.opcode, if i.dst in regs then regs[i.dst] else i.dst,
          LowerSrc(regs, i.src1), LowerSrc(regs, i.src2), LowerSrc(regs, i.src3))
  }

  function LowerAll(regs: map<nat, nat>, instrs: seq<Instr>): (r: seq<Instr>)
    ensures |r| == |instrs| && forall i :: 0 <= i < |r| ==> r[i] == LowerInstr(regs, instrs[i])
  {
    seq(|instrs|, i requires 0 <= i < |instrs| => LowerInstr(regs, instrs[i]))
  }

  /** The memory, and the register file, when instruction `i` is reached. */
  ghost function MemAt(ops: Ops, p: Problem, i: nat, env: Env): Env
    requires i <= |p.instrs|
  {
    Run(ops, p.instrs[..i], env)
  }

  ghost function RegAt(ops: Ops, p: Problem, regs: map<nat, nat>, i: nat, file: Env): Env
    requires i <= |p.instrs|
  {
    Run(ops, LowerAll(regs, p.instrs)[..i], file)
  }

  lemma ComputeLowered(ops: Ops, regs: map<nat, nat>, i: Instr, env: Env, file: Env)
    requires forall m :: i.Reads(m) ==> m in regs && file(regs[m]) == env(m)
    ensures Compute(ops, LowerInstr(regs, i), file) == Compute(ops, i, env)
  {
    assert i.src1.Loc? ==> i.Reads(i.src1.m);
    assert i.src2.Loc? ==> i.Reads(i.src2.m);
    assert i.src3.Loc? ==> i.Reads(i.src3.m);
  }

  lemma AtNext(ops: Ops, p: Problem, regs: map<nat, nat>, i: nat, env: Env, file: Env)
    requires i < |p.instrs| && p.instrs[i].dst in regs
    ensures MemAt(ops, p, i + 1, env) == Exec(ops, p.instrs[i], MemAt(ops, p, i, env))
    ensures RegAt(ops, p, regs, i + 1, file) ==
            Update(RegAt(ops, p, regs, i, file), regs[p.instrs[i].dst],
                   Compute(ops, LowerInstr(regs, p.instrs[i]), RegAt(ops, p, regs, i, file)))
  {
    RunStep(ops, p.instrs, i, env);
    RunStep(ops, LowerAll(regs, p.instrs), i, file);
  }

  ghost predicate Complete(p: Problem, u: nat, run: seq<State>)
    requires p.lout <= p.k
  {
    IsRun(p, u, run) && |run| == |p.instrs| + 1
  }

  /** The register file holds the used inputs. */
  ghost predicate Loaded(p: Problem, env: Env, file: Env) {
    forall m :: m in UsedInputs(p) ==> file(FirstIndex(p.inputs, m)) == env(m)
  }

  ghost predicate Agree(ops: Ops, p: Problem, regs: map<nat, nat>, i: nat, env: Env, file: Env)
    requires i <= |p.instrs|
  {
    forall m :: Available(p, i, m) && LastRead(p.instrs, m) >= i ==>
      m in regs && RegAt(ops, p, regs, i, file)(regs[m]) == MemAt(ops, p, i, env)(m)
  }

  lemma AgreeInitially(ops: Ops, p: Problem, u: nat, run: seq<State>, env: Env, file: Env)
    requires WellFormed(p, u) && Complete(p, u, run) && Loaded(p, env, file)
    ensures Agree(ops, p, run[|p.instrs|].regs, 0, env, file)
  {
    FinalMapping(p, u, run);
  }

  /** Each operand read by the lowered code holds the value of the variable it stands for. */
  lemma {:induction false} LoweredReadsAgree(ops: Ops, p: Problem, u: nat, run: seq<State>, env: Env, file: Env, i: nat)
    requires WellFormed(p, u) && Complete(p, u, run) && Loaded(p, env, file) && i <= |p.instrs|
    ensures Agree(ops, p, run[|p.instrs|].regs, i, env, file)
    ensures i < |p.instrs| ==>
              p.instrs[i].dst in run[|p.instrs|].regs &&
              Compute(ops, LowerInstr(run[|p.instrs|].regs, p.instrs[i]), RegAt(ops, p, run[|p.instrs|].regs, i, file))
              == Compute(ops, p.instrs[i], MemAt(ops, p, i, env))
  {
    hide *;
    Parts(p, u);
    Sizes(p, u);
    CompleteParts(p, u, run);
    var regs := run[|p.instrs|].regs;
    if i == 0 {
      AgreeInitially(ops, p, u, run, env, file);
    } else {
      LoweredReadsAgree(ops, p, u, run, env, file, i - 1);
      AgreeNext(ops, p, u, run, i - 1, env, file);
    }
    if i < |p.instrs| {
      FinalMapping(p, u, run);
      AgreeComputes(ops, p, u, regs, i, env, file);
    }
  }

  lemma CompleteParts(p: Problem, u: nat, run: seq<State>)
    requires p.lout <= p.k && Complete(p, u, run)
    ensures IsRun(p, u, run) && |run| == |p.instrs| + 1
  {
  }

  lemma AgreeComputes(ops: Ops, p: Problem, u: nat, regs: map<nat, nat>, i: nat, env: Env, file: Env)
    requires WellFormed(p, u) && i < |p.instrs| && Agree(ops, p, regs, i, env, file)
    ensures Compute(ops, LowerInstr(regs, p.instrs[i]), RegAt(ops, p, regs, i, file))
            == Compute(ops, p.instrs[i], MemAt(ops, p, i, env))
  {
    hide Compute;
    hide MemAt;
    hide RegAt;
    hide LowerInstr;
    forall m | p.instrs[i].Reads(m)
      ensures m in regs && RegAt(ops, p, regs, i, file)(regs[m]) == MemAt(ops, p, i, env)(m)
    {
      LastReadAtLeast(p.instrs, m, i);
      assert Available(p, i, m);
    }
    ComputeLowered(ops, regs, p.instrs[i], MemAt(ops, p, i, env), RegAt(ops, p, regs, i, file));
  }

  lemma LastReadAtLeast(instrs: seq<Instr>, m: nat, i: nat)
    requires i < |instrs| && instrs[i].Reads(m)
    ensures LastRead(instrs, m) >= i
  {
  }

  lemma AgreeNext(ops: Ops, p: Problem, u: nat, run: seq<State>, i: nat, env: Env, file: Env)
    requires WellFormed(p, u) && Complete(p, u, run) && i < |p.instrs|
    requires Agree(ops, p, run[|p.instrs|].regs, i, env, file) && p.instrs[i].dst in run[|p.instrs|].regs
    requires Compute(ops, LowerInstr(run[|p.instrs|].regs, p.instrs[i]), RegAt(ops, p, run[|p.instrs|].regs, i, file))
             == Compute(ops, p.instrs[i], MemAt(ops, p, i, env))
    ensures Agree(ops, p, run[|p.instrs|].regs, i + 1, env, file)
  {
    var regs := run[|p.instrs|].regs;
    forall m | Available(p, i + 1, m) && LastRead(p.instrs, m) >= i + 1
      ensures m in regs && RegAt(ops, p, regs, i + 1, file)(regs[m]) == MemAt(ops, p, i + 1, env)(m)
    {
      AgreeNextAt(ops, p, u, run, i, env, file, m);
    }
  }

  lemma AgreeNextAt(ops: Ops, p: Problem, u: nat, run: seq<State>, i: nat, env: Env, file: Env, m: nat)
    requires WellFormed(p, u) && Complete(p, u, run) && i < |p.instrs|
    requires Agree(ops, p, run[|p.instrs|].regs, i, env, file) && p.instrs[i].dst in run[|p.instrs|].regs
    requires Compute(ops, LowerInstr(run[|p.instrs|].regs, p.instrs[i]), RegAt(ops, p, run[|p.instrs|].regs, i, file))
             == Compute(ops, p.instrs[i], MemAt(ops, p, i, env))
    requires Available(p, i + 1, m) && LastRead(p.instrs, m) >= i + 1
    ensures var regs := run[|p.instrs|].regs;
            m in regs && RegAt(ops, p, regs, i + 1, file)(regs[m]) == MemAt(ops, p, i + 1, env)(m)
  {
    var regs := run[|p.instrs|].regs;
    AtNext(ops, p, regs, i, env, file);
    if m != p.instrs[i].dst {
      DefinesNext(p, m, i);
      NoInterference(p, u, run, i, m);
    }
    hide MemAt;
    hide RegAt;
    hide WellFormed;
    hide Complete;
    hide Compute;
    hide LowerInstr;
  }

  /** An output that is not exposed ends in the register the runtime reads it from. */
  lemma {:induction false} OutputAgrees(ops: Ops, p: Problem, u: nat, run: seq<State>, env: Env, file: Env, b: nat, x: nat, i: nat)
    requires WellFormed(p, u) && Complete(p, u, run) && Loaded(p, env, file)
    requires x < |p.outputs| && b < i <= |p.instrs| && p.instrs[b].dst == p.outputs[x] && !Exposed(p, p.outputs[x])
    ensures RegAt(ops, p, run[|p.instrs|].regs, i, file)(FirstOutput(p) + x) == MemAt(ops, p, i, env)(p.outputs[x])
    decreases i
  {
    hide *;
    Parts(p, u);
    Sizes(p, u);
    CompleteParts(p, u, run);
    var regs := run[|p.instrs|].regs;
    LoweredReadsAgree(ops, p, u, run, env, file, i - 1);
    AtNext(ops, p, regs, i - 1, env, file);
    OutputRegister(p, u, run, b, x, i - 1);
    if i - 1 > b {
      OutputAgrees(ops, p, u, run, env, file, b, x, i - 1);
    }
    UpdateAt(RegAt(ops, p, regs, i - 1, file), regs[p.instrs[i - 1].dst],
             Compute(ops, LowerInstr(regs, p.instrs[i - 1]), RegAt(ops, p, regs, i - 1, file)), FirstOutput(p) + x);
    ExecAt(ops, p.instrs[i - 1], MemAt(ops, p, i - 1, env), p.outputs[x]);
  }

  /** The defining instruction writes the output's register, later ones leave it. */
  lemma OutputRegister(p: Problem, u: nat, run: seq<State>, b: nat, x: nat, j: nat)
    requires WellFormed(p, u) && IsRun(p, u, run) && |run| == |p.instrs| + 1
    requires x < |p.outputs| && b <= j < |p.instrs| && p.instrs[b].dst == p.outputs[x] && !Exposed(p, p.outputs[x])
    ensures p.instrs[j].dst in run[|p.instrs|].regs
    ensures run[|p.instrs|].regs[p.instrs[j].dst] == FirstOutput(p) + x <==> j == b
    ensures p.instrs[j].dst == p.outputs[x] <==> j == b
  {
    var regs := run[|p.instrs|].regs;
    FinalMapping(p, u, run);
    assert p.outputs[x] in regs && regs[p.outputs[x]] == FirstOutput(p) + x;
    if j > b {
      SingleAssignment(p, u, b, j);
      UnexposedIsKept(p, u, run, b, x);
      KeptAt(p, regs, b, p.outputs[x], j);
    }
  }

  lemma SingleAssignment(p: Problem, u: nat, i: nat, j: nat)
    requires WellFormed(p, u) && i < j < |p.instrs|
    ensures p.instrs[i].dst != p.instrs[j].dst
  {
  }

  lemma UpdateAt(env: Env, m: nat, w: Word, x: nat)
    ensures Update(env, m, w)(x) == if x == m then w else env(x)
  {
  }

  lemma ExecAt(ops: Ops, i: Instr, env: Env, x: nat)
    ensures Exec(ops, i, env)(x) == if x == i.dst then Compute(ops, i, env) else env(x)
  {
  }

  lemma KeptAt(p: Problem, regs: map<nat, nat>, b: nat, o: nat, j: nat)
    requires !Overwritten(p, regs, b, o) && b < j < |p.instrs| && o in regs && p.instrs[j].dst in regs
    ensures regs[p.instrs[j].dst] != regs[o]
  {
  }
}
