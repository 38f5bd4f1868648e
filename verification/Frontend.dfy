/** The passes of compiler/src/frontend/frontend.py over straight-line programs: conversion to single
    assignment, copy propagation and dead code removal. */
module Frontend {
  import opened IR

  /** `HLIRProgram` */
  datatype Program = Program(instrs: seq<Instr>, inputs: seq<nat>, outputs: seq<nat>, memoryCount: nat)

  /** The program computes the same outputs: for all opcode interpretations and initial memories. */
  ghost predicate SameOutputs(p: Program, q: Program) {
    |p.outputs| == |q.outputs| &&
    forall ops: Ops, mem: Env, k :: 0 <= k < |p.outputs| ==>
      Run(ops, q.instrs, mem)(q.outputs[k]) == Run(ops, p.instrs, mem)(p.outputs[k])
  }

  lemma SameOutputsTrans(p: Program, q: Program, r: Program)
    requires SameOutputs(p, q) && SameOutputs(q, r)
    ensures SameOutputs(p, r)
  {
    hide Run;
    forall ops: Ops, mem: Env, k | 0 <= k < |p.outputs|
      ensures Run(ops, r.instrs, mem)(r.outputs[k]) == Run(ops, p.instrs, mem)(p.outputs[k])
    {
      assert Run(ops, q.instrs, mem)(q.outputs[k]) == Run(ops, p.instrs, mem)(p.outputs[k]);
    }
  }

  ghost predicate Written(instrs: seq<Instr>, m: nat, before: nat)
    requires before <= |instrs|
  {
    exists j :: 0 <= j < before && instrs[j].dst == m
  }

  /** Every source is an input or was written before. */
  ghost predicate DefinedBeforeUse(p: Program) {
    forall i, m :: 0 <= i < |p.instrs| && p.instrs[i].Reads(m) ==> m in p.inputs || Written(p.instrs, m, i)
  }

  ghost predicate SingleAssignment(p: Program) {
    && (forall i, j :: 0 <= i < j < |p.instrs| ==> p.instrs[i].dst != p.instrs[j].dst)
    && (forall i :: 0 <= i < |p.instrs| ==> p.instrs[i].dst !in p.inputs)
  }

  // ----- to_SSA -----

  /** One past the highest destination. */
  function FirstAvailable(instrs: seq<Instr>): (r: nat)
    ensures forall i :: 0 <= i < |instrs| ==> instrs[i].dst < r
  {
    if instrs == [] then 0
    else
      var k := |instrs| - 1;
      var r := FirstAvailable(instrs[..k]);
      if instrs[k].dst + 1 > r then instrs[k].dst + 1 else r
  }

  datatype Ssa = Ssa(env: map<nat, nat>, written: set<nat>, next: nat, code: seq<Instr>)

  function Rename(env: map<nat, nat>, m: nat): nat {
    if m in env then env[m] else m
  }

  function RenameSrc(env: map<nat, nat>, s: Src): Src {
    if s.Loc? then Loc(Rename(env, s.m)) else s
  }

  /** The loop body of `to_SSA`. */
  function SsaStep(s: Ssa, i: Instr): Ssa {
    var src1, src2, src3 := RenameSrc(s.env, i.src1), RenameSrc(s.env, i.src2), RenameSrc(s.env, i.src3);
    if i.dst in s.written then
      Ssa(s.env[i.dst := s.next], s.written + {s.next}, s.next + 1,
          s.code + [Instr(i.opcode, s.next, src1, src2, src3)])
    else
      Ssa(s.env, s.written + {i.dst}, s.next, s.code + [Instr(i.opcode, i.dst, src1, src2, src3)])
  }

  function InputSet(inputs: seq<nat>): (r: set<nat>)
    ensures forall m :: m in r <==> m in inputs
  {
    set m | m in inputs
  }

  function SsaFold(p: Program, k: nat): (s: Ssa)
    requires k <= |p.instrs|
  {
    if k == 0 then Ssa(map[], InputSet(p.inputs), FirstAvailable(p.instrs), [])
    else SsaStep(SsaFold(p, k - 1), p.instrs[k - 1])
  }

  /** Every address the program mentions lies below the first fresh one. */
  ghost predicate Below(p: Program) {
    var first := FirstAvailable(p.instrs);
    && (forall k :: 0 <= k < |p.inputs| ==> p.inputs[k] < first)
    && (forall k :: 0 <= k < |p.outputs| ==> p.outputs[k] < first)
    && (forall i, m: nat :: 0 <= i < |p.instrs| && p.instrs[i].Reads(m) ==> m < first)
  }

  ghost predicate SsaInvariant(p: Program, k: nat, s: Ssa)
    requires k <= |p.instrs|
  {
    var first := FirstAvailable(p.instrs);
    && s.next >= first && |s.code| == k
    && (forall w :: w in s.written ==> w < s.next)
    && (forall m :: m in p.inputs ==> m in s.written)
    && (forall m :: m in s.env ==> m < first && m in s.written && s.env[m] in s.written && s.env[m] >= first)
    && (forall m, w :: m in s.env && w in s.env && m != w ==> s.env[m] != s.env[w])
    && (forall m :: m < first && m in s.written ==> m in p.inputs || Written(p.instrs, m, k))
    && (forall j :: 0 <= j < k ==> p.instrs[j].dst in s.written)
    && (forall j :: 0 <= j < k ==> s.code[j].dst in s.written && s.code[j].dst !in p.inputs)
    && (forall i, j :: 0 <= i < j < k ==> s.code[i].dst != s.code[j].dst)
  }

  lemma WrittenNext(instrs: seq<Instr>, m: nat, k: nat)
    requires k < |instrs|
    ensures Written(instrs, m, k + 1) <==> Written(instrs, m, k) || m == instrs[k].dst
  {
    if m == instrs[k].dst { assert instrs[k].dst == m; }
  }

  lemma {:induction false} SsaKeeps(p: Program, k: nat)
    requires Below(p) && k <= |p.instrs|
    ensures SsaInvariant(p, k, SsaFold(p, k))
  {
    if k > 0 {
      SsaKeeps(p, k - 1);
      SsaStepKeeps(p, k - 1, SsaFold(p, k - 1));
    }
  }

  lemma SsaStepKeeps(p: Program, k: nat, s: Ssa)
    requires Below(p) && k < |p.instrs| && SsaInvariant(p, k, s)
    ensures SsaInvariant(p, k + 1, SsaStep(s, p.instrs[k]))
  {
    forall m ensures Written(p.instrs, m, k + 1) <==> Written(p.instrs, m, k) || m == p.instrs[k].dst {
      WrittenNext(p.instrs, m, k);
    }
    hide RenameSrc;
    hide Written;
    hide FirstAvailable;
  }

  /** The renamed memory holds what the original memory holds, at every address below the fresh ones. */
  ghost predicate Mirrors(first: nat, s: Ssa, mem: Env, mem': Env) {
    forall m :: 0 <= m < first ==> mem'(Rename(s.env, m)) == mem(m)
  }

  lemma ComputeRenamed(ops: Ops, i: Instr, s: Ssa, first: nat, mem: Env, mem': Env, dst: nat)
    requires Mirrors(first, s, mem, mem') && forall m: nat :: i.Reads(m) ==> m < first
    ensures Compute(ops, Instr(i.opcode, dst, RenameSrc(s.env, i.src1), RenameSrc(s.env, i.src2), RenameSrc(s.env, i.src3)), mem')
            == Compute(ops, i, mem)
  {
    assert i.src1.Loc? ==> i.Reads(i.src1.m);
    assert i.src2.Loc? ==> i.Reads(i.src2.m);
    assert i.src3.Loc? ==> i.Reads(i.src3.m);
  }

  lemma MirrorsStep(ops: Ops, p: Program, k: nat, s: Ssa, mem: Env, mem': Env)
    requires Below(p) && k < |p.instrs| && SsaInvariant(p, k, s) && Mirrors(FirstAvailable(p.instrs), s, mem, mem')
    ensures var t := SsaStep(s, p.instrs[k]);
            |t.code| == k + 1 &&
            Mirrors(FirstAvailable(p.instrs), t, Exec(ops, p.instrs[k], mem), Exec(ops, t.code[k], mem'))
  {
    var i, t, first := p.instrs[k], SsaStep(s, p.instrs[k]), FirstAvailable(p.instrs);
    ComputeRenamed(ops, i, s, first, mem, mem', t.code[k].dst);
    hide Compute;
    hide RenameSrc;
    hide FirstAvailable;
    hide Written;
    forall m | 0 <= m < first
      ensures Exec(ops, t.code[k], mem')(Rename(t.env, m)) == Exec(ops, i, mem)(m)
    {
      if m != i.dst {
        assert Rename(t.env, m) == Rename(s.env, m);
        assert Rename(s.env, m) != t.code[k].dst;
      }
    }
  }

  lemma {:induction false} SsaMirrors(ops: Ops, p: Program, k: nat, mem: Env)
    requires Below(p) && k <= |p.instrs|
    ensures Mirrors(FirstAvailable(p.instrs), SsaFold(p, k), Run(ops, p.instrs[..k], mem), Run(ops, SsaFold(p, k).code, mem))
  {
    hide *;
    if k == 0 {
      MirrorsInitially(ops, p, mem);
    } else {
      SsaMirrors(ops, p, k - 1, mem);
      SsaKeeps(p, k - 1);
      var s := SsaFold(p, k - 1);
      MirrorsStep(ops, p, k - 1, s, Run(ops, p.instrs[..k - 1], mem), Run(ops, s.code, mem));
      RunStep(ops, p.instrs, k - 1, mem);
      SsaFoldStep(p, k - 1);
      RunSnoc(ops, s.code, SsaFold(p, k).code[k - 1], mem);
    }
  }

  lemma MirrorsInitially(ops: Ops, p: Program, mem: Env)
    ensures Mirrors(FirstAvailable(p.instrs), SsaFold(p, 0), Run(ops, p.instrs[..0], mem), Run(ops, SsaFold(p, 0).code, mem))
  {
  }

  lemma SsaFoldStep(p: Program, k: nat)
    requires k < |p.instrs| && SsaInvariant(p, k, SsaFold(p, k))
    ensures var s, t := SsaFold(p, k), SsaFold(p, k + 1);
            t == SsaStep(s, p.instrs[k]) && |t.code| == k + 1 && t.code == s.code + [t.code[k]]
  {
  }

  /** Inputs and destinations lie in the program's memory. */
  ghost predicate Contained(p: Program) {
    (forall m :: m in p.inputs ==> m < p.memoryCount) && forall i :: 0 <= i < |p.instrs| ==> p.instrs[i].dst < p.memoryCount
  }

  /** What `to_SSA` delivers. */
  ghost predicate IsSsaOf(p: Program, q: Program) {
    && q.inputs == p.inputs && SingleAssignment(q) && SameOutputs(p, q)
    && |q.instrs| == |p.instrs|
    && Contained(q) && (SingleAssignment(p) ==> q.outputs == p.outputs && forall i :: 0 <= i < |q.instrs| ==> q.instrs[i].dst == p.instrs[i].dst)
    && (DefinedBeforeUse(p) ==> DefinedBeforeUse(q)) && (OutputsExist(p) ==> OutputsExist(q))
  }

  function SsaProgram(p: Program): Program {
    var s := SsaFold(p, |p.instrs|);
    Program(s.code, p.inputs, seq(|p.outputs|, k requires 0 <= k < |p.outputs| => Rename(s.env, p.outputs[k])), s.next)
  }

  /** Every location a name currently stands for is an input or was written by the new code. */
  ghost predicate CodeWrites(p: Program, s: Ssa) {
    forall w :: w in s.written ==> w in p.inputs || Written(s.code, w, |s.code|)
  }

  lemma {:induction false} SsaCodeWrites(p: Program, k: nat)
    requires k <= |p.instrs|
    ensures CodeWrites(p, SsaFold(p, k))
  {
    if k > 0 {
      SsaCodeWrites(p, k - 1);
      var s, t := SsaFold(p, k - 1), SsaFold(p, k);
      forall w | w in t.written && w !in p.inputs ensures Written(t.code, w, |t.code|) {
        if w in s.written {
          var j :| 0 <= j < |s.code| && s.code[j].dst == w;
          assert t.code[j].dst == w;
        } else {
          assert t.code[|s.code|].dst == w;
        }
      }
    }
  }

  lemma {:induction false} SsaCodePrefix(p: Program, k: nat, n: nat)
    requires Below(p) && k <= n <= |p.instrs|
    ensures |SsaFold(p, k).code| == k && |SsaFold(p, n).code| == n
    ensures SsaFold(p, k).code == SsaFold(p, n).code[..k]
    decreases n
  {
    SsaKeeps(p, n);
    if k < n {
      SsaCodePrefix(p, k, n - 1);
      SsaKeeps(p, n - 1);
      SsaFoldStep(p, n - 1);
    }
  }

  lemma SsaDefined(p: Program)
    requires Below(p) && DefinedBeforeUse(p)
    ensures DefinedBeforeUse(SsaProgram(p))
  {
    var q := SsaProgram(p);
    forall i: nat, w: nat | i < |q.instrs| && q.instrs[i].Reads(w) ensures w in q.inputs || Written(q.instrs, w, i) {
      SsaDefinedAt(p, i, w);
    }
  }

  lemma SsaDefinedAt(p: Program, i: nat, w: nat)
    requires Below(p) && DefinedBeforeUse(p) && i < |SsaProgram(p).instrs| && SsaProgram(p).instrs[i].Reads(w)
    ensures w in p.inputs || Written(SsaProgram(p).instrs, w, i)
  {
    hide *;
    var n := |p.instrs|;
    SsaProgramIs(p);
    SsaKeeps(p, n);
    SsaCodePrefix(p, i, n);
    SsaCodePrefix(p, i + 1, n);
    SsaKeeps(p, i);
    SsaCodeWrites(p, i);
    var m := RenamedFrom(p, i, w);
    SourceDefined(p, i, m);
    SourceWritten(p, i, SsaFold(p, i), m);
    WrittenByCode(p, i, SsaFold(p, i), SsaFold(p, n).code, w);
  }

  lemma SsaProgramIs(p: Program)
    ensures SsaProgram(p).instrs == SsaFold(p, |p.instrs|).code
  {
    hide SsaFold;
  }

  lemma SourceDefined(p: Program, i: nat, m: nat)
    requires DefinedBeforeUse(p) && i < |p.instrs| && p.instrs[i].Reads(m)
    ensures m in p.inputs || Written(p.instrs, m, i)
  {
    hide Written; hide Instr.Reads;
  }

  lemma SourceWritten(p: Program, i: nat, s: Ssa, m: nat)
    requires i <= |p.instrs| && SsaInvariant(p, i, s) && (m in p.inputs || Written(p.instrs, m, i))
    ensures Rename(s.env, m) in s.written
  {
    hide FirstAvailable;
    assert m in s.written;
  }

  lemma WrittenByCode(p: Program, i: nat, s: Ssa, code: seq<Instr>, w: nat)
    requires CodeWrites(p, s) && w in s.written && |s.code| == i <= |code| && s.code == code[..i]
    ensures w in p.inputs || Written(code, w, i)
  {
    if w !in p.inputs {
      var j :| 0 <= j < |s.code| && s.code[j].dst == w;
      assert code[j].dst == w;
    }
  }

  lemma RenamedFrom(p: Program, i: nat, w: nat) returns (m: nat)
    requires Below(p) && i < |p.instrs| && SsaInvariant(p, i, SsaFold(p, i))
    requires |SsaFold(p, |p.instrs|).code| == |p.instrs|
    requires SsaFold(p, i + 1).code == SsaFold(p, |p.instrs|).code[..i + 1]
    requires SsaFold(p, |p.instrs|).code[i].Reads(w)
    ensures p.instrs[i].Reads(m) && w == Rename(SsaFold(p, i).env, m)
  {
    SsaFoldStep(p, i);
    var s, x := SsaFold(p, i), p.instrs[i];
    var c := SsaFold(p, i + 1).code[i];
    assert c == SsaFold(p, |p.instrs|).code[i];
    m := if c.src1 == Loc(w) then x.src1.m else if c.src2 == Loc(w) then x.src2.m else x.src3.m;
  }

  lemma SsaOutputsExist(p: Program)
    requires Below(p) && OutputsExist(p)
    ensures OutputsExist(SsaProgram(p))
  {
    var n := |p.instrs|;
    var s := SsaFold(p, n);
    SsaKeeps(p, n);
    SsaCodeWrites(p, n);
    forall k | 0 <= k < |p.outputs| ensures Rename(s.env, p.outputs[k]) in s.written {
      var o := p.outputs[k];
      assert o in s.written;
    }
  }

  /** Conversion to single assignment preserves the outputs. */
  lemma {:induction false} SsaUnchanged(p: Program, k: nat)
    requires SingleAssignment(p) && k <= |p.instrs|
    ensures var s := SsaFold(p, k); s.env == map[] && |s.code| == k && (forall j :: 0 <= j < k ==> s.code[j].dst == p.instrs[j].dst)
    ensures forall w :: w in SsaFold(p, k).written ==> w in p.inputs || Written(p.instrs, w, k)
  {
    if k > 0 {
      SsaUnchanged(p, k - 1);
      forall m ensures Written(p.instrs, m, k) <==> Written(p.instrs, m, k - 1) || m == p.instrs[k - 1].dst { WrittenNext(p.instrs, m, k - 1); }
      assert !Written(p.instrs, p.instrs[k - 1].dst, k - 1);
    }
  }

  lemma SsaCorrect(p: Program)
    requires Below(p)
    ensures IsSsaOf(p, SsaProgram(p))
  {
    var q, n := SsaProgram(p), |p.instrs|;
    SsaKeeps(p, n);
    if DefinedBeforeUse(p) { SsaDefined(p); }
    if OutputsExist(p) { SsaOutputsExist(p); }
    if SingleAssignment(p) { SsaUnchanged(p, n); }
    forall ops: Ops, mem: Env, k | 0 <= k < |p.outputs|
      ensures Run(ops, q.instrs, mem)(q.outputs[k]) == Run(ops, p.instrs, mem)(p.outputs[k])
    {
      SsaMirrors(ops, p, n, mem);
      assert p.instrs[..n] == p.instrs;
    }
  }

  /** `to_SSA` */
  method ToSSA(p: Program) returns (q: Program)
    requires Below(p)
    ensures IsSsaOf(p, q)
  {
    var env: map<nat, nat> := map[];
    var written: set<nat> := {};
    for k := 0 to |p.inputs|
      invariant forall m :: m in written <==> m in p.inputs[..k]
    {
      written := written + {p.inputs[k]};
    }
    assert written == InputSet(p.inputs);
    var next: nat := 0;
    for k := 0 to |p.instrs|
      invariant next == FirstAvailable(p.instrs[..k])
    {
      assert p.instrs[..k + 1][..k] == p.instrs[..k];
      next := if p.instrs[k].dst + 1 > next then p.instrs[k].dst + 1 else next;
    }
    assert p.instrs[..|p.instrs|] == p.instrs;
    var code := [];
    for k := 0 to |p.instrs|
      invariant Ssa(env, written, next, code) == SsaFold(p, k)
    {
      var i := p.instrs[k];
      var src1, src2, src3 := RenameSrc(env, i.src1), RenameSrc(env, i.src2), RenameSrc(env, i.src3);
      var dst := i.dst;
      if dst in written {
        env := env[dst := next];
        dst := next;
        next := next + 1;
      }
      written := written + {dst};
      code := code + [Instr(i.opcode, dst, src1, src2, src3)];
    }
    q := Program(code, p.inputs, seq(|p.outputs|, k requires 0 <= k < |p.outputs| => Rename(env, p.outputs[k])), next);
    assert q == SsaProgram(p);
    SsaCorrect(p);
  }

  // ----- propagate_copy -----

  type Copies = map<nat, Src>

  function Subst(env: Copies, s: Src): Src {
    if s.Loc? && s.m in env then env[s.m] else s
  }

  function SubstInstr(env: Copies, i: Instr): Instr {
    Instr(i.opcode, i.dst, Subst(env, i.src1), Subst(env, i.src2), Subst(env, i.src3))
  }

  datatype Copy = Copy(env: Copies, code: seq<Instr>)

  /** The loop body of `propagate_copy`. */
  function CopyStep(p: Program, k: nat, s: Copy): Copy
    requires k < |p.instrs|
  {
    var i := p.instrs[k];
    var j := SubstInstr(s.env, i);
    if i.opcode == MOV && k != |p.instrs| - 1 then
      Copy(s.env[i.dst := j.src1], if i.dst in p.outputs then s.code + [j] else s.code)
    else
      Copy(s.env, s.code + [j])
  }

  function CopyFold(p: Program, k: nat): Copy
    requires k <= |p.instrs|
  {
    if k == 0 then Copy(map[], []) else CopyStep(p, k - 1, CopyFold(p, k - 1))
  }

  function CopyProgram(p: Program): Program {
    Program(CopyFold(p, |p.instrs|).code, p.inputs, p.outputs, p.memoryCount)
  }

  /** A location that later instructions cannot change. */
  ghost predicate Settled(p: Program, k: nat, m: nat)
    requires k <= |p.instrs|
  {
    m in p.inputs || Written(p.instrs, m, k)
  }

  lemma SettledApart(p: Program, k: nat, m: nat)
    requires SingleAssignment(p) && k < |p.instrs| && Settled(p, k, m)
    ensures m != p.instrs[k].dst && Settled(p, k + 1, m)
  {
  }

  /** The new code can read `w` after its first `n` instructions. */
  ghost predicate Has(p: Program, code: seq<Instr>, w: nat, n: nat)
    requires n <= |code|
  {
    w in p.inputs || Written(code, w, n)
  }

  /** Copies refer to settled locations that the new code has; so do the names that are not copies. */
  ghost predicate EnvOk(p: Program, k: nat, env: Copies, code: seq<Instr>)
    requires k <= |p.instrs|
  {
    && (forall m :: m in env ==> Settled(p, k, m) && m !in p.inputs)
    && (forall m, w :: m in env && env[m] == Loc(w) ==> Settled(p, k, w) && Has(p, code, w, |code|))
    && (forall m :: Settled(p, k, m) && m !in env ==> Has(p, code, m, |code|))
    && (forall o :: o in p.outputs && Settled(p, k, o) ==> Has(p, code, o, |code|))
  }

  /** The new code writes each cell once and reads only what it has. */
  ghost predicate CodeOk(p: Program, k: nat, code: seq<Instr>)
    requires k <= |p.instrs|
  {
    && (forall j :: 0 <= j < |code| ==> code[j].dst !in p.inputs && Written(p.instrs, code[j].dst, k))
    && (forall i, j :: 0 <= i < j < |code| ==> code[i].dst != code[j].dst)
    && (forall i, w :: 0 <= i < |code| && code[i].Reads(w) ==> Has(p, code, w, i))
  }

  ghost predicate CopyInvariant(p: Program, k: nat, s: Copy)
    requires k <= |p.instrs|
  {
    EnvOk(p, k, s.env, s.code) && CodeOk(p, k, s.code)
  }

  lemma WrittenGrows(code: seq<Instr>, i: Instr, w: nat, j: nat)
    requires j <= |code|
    ensures Written(code + [i], w, j) <==> Written(code, w, j)
    ensures Written(code + [i], w, |code| + 1) <==> Written(code, w, |code|) || w == i.dst
  {
    var t := code + [i];
    assert forall x :: 0 <= x < |code| ==> t[x] == code[x];
    if w == i.dst { assert t[|code|].dst == w; }
    if Written(code, w, |code|) {
      var x :| 0 <= x < |code| && code[x].dst == w;
      assert t[x].dst == w;
    }
    if Written(code, w, j) {
      var x :| 0 <= x < j && code[x].dst == w;
      assert t[x].dst == w;
    }
  }

  lemma SubstReads(p: Program, k: nat, s: Copy, w: nat)
    requires k < |p.instrs| && DefinedBeforeUse(p) && CopyInvariant(p, k, s)
    requires SubstInstr(s.env, p.instrs[k]).Reads(w)
    ensures Settled(p, k, w) && Has(p, s.code, w, |s.code|)
  {
    var i, j := p.instrs[k], SubstInstr(s.env, p.instrs[k]);
    var src := if j.src1 == Loc(w) then i.src1 else if j.src2 == Loc(w) then i.src2 else i.src3;
    assert i.Reads(src.m);
    assert Settled(p, k, src.m);
  }

  lemma SettledNext(p: Program, k: nat, m: nat)
    requires k < |p.instrs|
    ensures Settled(p, k + 1, m) <==> Settled(p, k, m) || m == p.instrs[k].dst
  {
    WrittenNext(p.instrs, m, k);
  }

  lemma CodeGrows(p: Program, k: nat, code: seq<Instr>, j: Instr)
    requires SingleAssignment(p) && k < |p.instrs| && j.dst == p.instrs[k].dst && CodeOk(p, k, code)
    requires forall w :: j.Reads(w) ==> Has(p, code, w, |code|)
    ensures CodeOk(p, k + 1, code + [j])
  {
    var t := code + [j];
    forall x | 0 <= x < |t| ensures t[x].dst !in p.inputs && Written(p.instrs, t[x].dst, k + 1) {
      WrittenNext(p.instrs, t[x].dst, k);
    }
    forall x, w: nat | 0 <= x < |t| && t[x].Reads(w) ensures Has(p, t, w, x) {
      WrittenGrows(code, j, w, x);
      assert x < |code| ==> t[x] == code[x];
    }
    forall x, y | 0 <= x < y < |t| ensures t[x].dst != t[y].dst {
      if y == |code| {
        assert Written(p.instrs, code[x].dst, k);
        SettledApart(p, k, code[x].dst);
      }
    }
  }

  lemma CodeStays(p: Program, k: nat, code: seq<Instr>)
    requires k < |p.instrs| && CodeOk(p, k, code)
    ensures CodeOk(p, k + 1, code)
  {
    forall x | 0 <= x < |code| ensures Written(p.instrs, code[x].dst, k + 1) { WrittenNext(p.instrs, code[x].dst, k); }
  }

  /** The environment after an instruction that defines `d`: either the code has `d`, or `d` became a copy. */
  lemma EnvGrows(p: Program, k: nat, s: Copy, d: nat, env: Copies, code: seq<Instr>)
    requires k < |p.instrs| && d == p.instrs[k].dst && d !in p.inputs && EnvOk(p, k, s.env, s.code)
    requires env == s.env || (env.Keys == s.env.Keys + {d} && (forall m :: m in s.env && m != d ==> env[m] == s.env[m])
                              && forall w :: env[d] == Loc(w) ==> Settled(p, k, w) && Has(p, s.code, w, |s.code|))
    requires forall w :: Has(p, s.code, w, |s.code|) ==> Has(p, code, w, |code|)
    requires Has(p, code, d, |code|) || (env != s.env && d !in p.outputs)
    requires d in env || Has(p, code, d, |code|)
    ensures EnvOk(p, k + 1, env, code)
  {
    forall m ensures Settled(p, k + 1, m) <==> Settled(p, k, m) || m == d { SettledNext(p, k, m); }
    hide Settled;
    hide Has;
  }

  lemma CopyStepKeeps(p: Program, k: nat, s: Copy)
    requires SingleAssignment(p) && DefinedBeforeUse(p) && k < |p.instrs| && CopyInvariant(p, k, s)
    ensures CopyInvariant(p, k + 1, CopyStep(p, k, s))
  {
    var i, j, t := p.instrs[k], SubstInstr(s.env, p.instrs[k]), CopyStep(p, k, s);
    forall w | j.Reads(w) ensures Settled(p, k, w) && Has(p, s.code, w, |s.code|) {
      SubstReads(p, k, s, w);
    }
    assert j.dst == i.dst && (j.src1.Loc? ==> j.Reads(j.src1.m)) && i.dst !in p.inputs;
    if i.dst in s.env { SettledApart(p, k, i.dst); }
    forall w ensures Written(s.code + [j], w, |s.code| + 1) <==> Written(s.code, w, |s.code|) || w == i.dst {
      WrittenGrows(s.code, j, w, 0);
    }
    CodeGrows(p, k, s.code, j);
    CodeStays(p, k, s.code);
    hide SingleAssignment;
    hide DefinedBeforeUse;
    hide Written;
    hide Settled;
    hide EnvOk;
    hide CodeOk;
    EnvGrows(p, k, s, i.dst, t.env, t.code);
  }

  lemma {:induction false} CopyKeeps(p: Program, k: nat)
    requires SingleAssignment(p) && DefinedBeforeUse(p) && k <= |p.instrs|
    ensures CopyInvariant(p, k, CopyFold(p, k))
  {
    hide *;
    if k == 0 {
      CopyKeepsInitially(p);
    } else {
      CopyKeeps(p, k - 1);
      CopyFoldStep(p, k - 1);
      CopyStepKeeps(p, k - 1, CopyFold(p, k - 1));
    }
  }

  lemma CopyKeepsInitially(p: Program)
    ensures CopyInvariant(p, 0, CopyFold(p, 0))
  {
  }

  /** Every settled name has its original value, directly or through its copy. */
  ghost predicate CopyMirrors(p: Program, k: nat, s: Copy, mem: Env, mem': Env)
    requires k <= |p.instrs|
  {
    && (forall m :: Settled(p, k, m) ==> Value(Subst(s.env, Loc(m)), mem') == mem(m))
    && (forall m :: m in p.inputs || (m in p.outputs && Written(p.instrs, m, k)) ==> mem'(m) == mem(m))
  }

  lemma SubstComputes(ops: Ops, p: Program, k: nat, s: Copy, mem: Env, mem': Env)
    requires k < |p.instrs| && DefinedBeforeUse(p) && CopyMirrors(p, k, s, mem, mem')
    ensures Compute(ops, SubstInstr(s.env, p.instrs[k]), mem') == Compute(ops, p.instrs[k], mem)
  {
    var i := p.instrs[k];
    forall m | i.Reads(m) ensures Value(Subst(s.env, Loc(m)), mem') == mem(m) { assert Settled(p, k, m); }
    assert i.src1.Loc? ==> i.Reads(i.src1.m);
    assert i.src2.Loc? ==> i.Reads(i.src2.m);
    assert i.src3.Loc? ==> i.Reads(i.src3.m);
  }

  lemma CopyMirrorsStep(ops: Ops, p: Program, k: nat, s: Copy, mem: Env, mem': Env)
    requires SingleAssignment(p) && DefinedBeforeUse(p) && k < |p.instrs| && CopyInvariant(p, k, s)
    requires CopyMirrors(p, k, s, mem, mem')
    ensures var t := CopyStep(p, k, s);
            var next: Env := if |t.code| == |s.code| then mem' else Exec(ops, t.code[|s.code|], mem');
            CopyMirrors(p, k + 1, t, Exec(ops, p.instrs[k], mem), next)
  {
    var i, t := p.instrs[k], CopyStep(p, k, s);
    var next: Env := if |t.code| == |s.code| then mem' else Exec(ops, t.code[|s.code|], mem');
    forall m | Settled(p, k + 1, m) ensures Value(Subst(t.env, Loc(m)), next) == Exec(ops, i, mem)(m) {
      SettledNext(p, k, m);
      if m == i.dst {
        NewMirrors(ops, p, k, s, mem, mem', next);
      } else {
        OldMirrors(ops, p, k, s, mem, mem', m, next);
      }
    }
    forall m: nat | m in p.inputs || (m in p.outputs && Written(p.instrs, m, k + 1)) ensures next(m) == Exec(ops, i, mem)(m) {
      WrittenNext(p.instrs, m, k);
      assert i.dst !in p.inputs;
      SubstComputes(ops, p, k, s, mem, mem');
      hide Compute;
    }
  }

  lemma OldMirrors(ops: Ops, p: Program, k: nat, s: Copy, mem: Env, mem': Env, m: nat, next: Env)
    requires SingleAssignment(p) && k < |p.instrs| && CopyInvariant(p, k, s) && CopyMirrors(p, k, s, mem, mem')
    requires Settled(p, k, m)
    requires next == mem' || next == Exec(ops, SubstInstr(s.env, p.instrs[k]), mem')
    ensures Value(Subst(CopyStep(p, k, s).env, Loc(m)), next) == Exec(ops, p.instrs[k], mem)(m)
  {
    SettledApart(p, k, m);
    var r := Subst(s.env, Loc(m));
    if r.Loc? {
      assert Settled(p, k, r.m);
      SettledApart(p, k, r.m);
    }
    hide Compute;
    hide Written;
    assert Subst(CopyStep(p, k, s).env, Loc(m)) == r;
    assert Value(r, next) == Value(r, mem') == mem(m);
  }

  lemma NewMirrors(ops: Ops, p: Program, k: nat, s: Copy, mem: Env, mem': Env, next: Env)
    requires SingleAssignment(p) && DefinedBeforeUse(p) && k < |p.instrs| && CopyInvariant(p, k, s)
    requires CopyMirrors(p, k, s, mem, mem')
    requires var t := CopyStep(p, k, s);
             next == if |t.code| == |s.code| then mem' else Exec(ops, t.code[|s.code|], mem')
    ensures Value(Subst(CopyStep(p, k, s).env, Loc(p.instrs[k].dst)), next) == Exec(ops, p.instrs[k], mem)(p.instrs[k].dst)
  {
    var i, j := p.instrs[k], SubstInstr(s.env, p.instrs[k]);
    SubstComputes(ops, p, k, s, mem, mem');
    if i.dst in s.env { SettledApart(p, k, i.dst); }
    if j.src1.Loc? {
      assert j.Reads(j.src1.m);
      SubstReads(p, k, s, j.src1.m);
      SettledApart(p, k, j.src1.m);
    }
    assert i.opcode == MOV ==> Compute(ops, j, mem') == Value(j.src1, mem');
    assert j.dst == i.dst;
    hide Compute;
    hide Written;
    hide CopyInvariant;
  }

  lemma {:induction false} CopyCorrectAt(ops: Ops, p: Program, k: nat, mem: Env)
    requires SingleAssignment(p) && DefinedBeforeUse(p) && k <= |p.instrs|
    ensures CopyMirrors(p, k, CopyFold(p, k), Run(ops, p.instrs[..k], mem), Run(ops, CopyFold(p, k).code, mem))
  {
    hide *;
    if k == 0 {
      CopyMirrorsInitially(ops, p, mem);
    } else {
      CopyCorrectAt(ops, p, k - 1, mem);
      CopyKeeps(p, k - 1);
      var s, t := CopyFold(p, k - 1), CopyFold(p, k);
      CopyFoldStep(p, k - 1);
      CopyMirrorsStep(ops, p, k - 1, s, Run(ops, p.instrs[..k - 1], mem), Run(ops, s.code, mem));
      RunStep(ops, p.instrs, k - 1, mem);
      if |t.code| > |s.code| {
        RunSnoc(ops, s.code, t.code[|s.code|], mem);
      }
    }
  }

  lemma CopyMirrorsInitially(ops: Ops, p: Program, mem: Env)
    ensures CopyMirrors(p, 0, CopyFold(p, 0), Run(ops, p.instrs[..0], mem), Run(ops, CopyFold(p, 0).code, mem))
  {
  }

  lemma CopyFoldStep(p: Program, k: nat)
    requires k < |p.instrs|
    ensures var s, t := CopyFold(p, k), CopyFold(p, k + 1);
            t == CopyStep(p, k, s) &&
            (t.code == s.code || (|t.code| == |s.code| + 1 && t.code == s.code + [t.code[|s.code|]]))
  {
  }

  ghost predicate OutputsExist(p: Program) {
    forall k :: 0 <= k < |p.outputs| ==> p.outputs[k] in p.inputs || Written(p.instrs, p.outputs[k], |p.instrs|)
  }

  /** Every destination is an output. */
  ghost predicate AllReturned(p: Program) {
    forall i :: 0 <= i < |p.instrs| ==> p.instrs[i].dst in p.outputs
  }

  /** What the later passes keep: single assignment, reads of defined cells, and all outputs. */
  ghost predicate Refines(p: Program, q: Program) {
    && q.inputs == p.inputs && q.outputs == p.outputs && SameOutputs(p, q)
    && SingleAssignment(q) && DefinedBeforeUse(q) && OutputsExist(q)
    && q.memoryCount == p.memoryCount && forall i :: 0 <= i < |q.instrs| ==> Written(p.instrs, q.instrs[i].dst, |p.instrs|)
  }

  /** Copy propagation preserves the outputs and keeps the program in single-assignment form. */
  lemma CopyCorrect(p: Program)
    requires SingleAssignment(p) && DefinedBeforeUse(p) && OutputsExist(p)
    ensures Refines(p, CopyProgram(p))
  {
    var q, n := CopyProgram(p), |p.instrs|;
    CopyKeeps(p, n);
    forall ops: Ops, mem: Env, k | 0 <= k < |p.outputs|
      ensures Run(ops, q.instrs, mem)(q.outputs[k]) == Run(ops, p.instrs, mem)(p.outputs[k])
    {
      CopyCorrectAt(ops, p, n, mem);
      assert p.instrs[..n] == p.instrs;
      assert p.outputs[k] in p.outputs;
    }
  }

  // ----- no copy is read -----

  /** `m` is the destination of a MOV among the first `k` instructions that is not the last one of the program. */
  ghost predicate IsCopy(p: Program, k: nat, m: nat)
    requires k <= |p.instrs|
  {
    exists i :: 0 <= i < k && i != |p.instrs| - 1 && p.instrs[i].opcode == MOV && p.instrs[i].dst == m
  }

  /** The environment holds exactly the copies; neither what they stand for nor what the code reads is one; and the code
      writes one only when it is a program output. */
  ghost predicate CopiesOut(p: Program, k: nat, s: Copy)
    requires k <= |p.instrs|
  {
    && (forall m :: m in s.env <==> IsCopy(p, k, m))
    && (forall m :: m in s.env && s.env[m].Loc? ==> s.env[m].m !in s.env)
    && (forall x, w :: 0 <= x < |s.code| && s.code[x].Reads(w) ==> w !in s.env)
    && (forall x :: 0 <= x < |s.code| && s.code[x].dst in s.env ==> s.code[x].dst in p.outputs)
  }

  lemma IsCopyNext(p: Program, k: nat, m: nat)
    requires k < |p.instrs|
    ensures IsCopy(p, k + 1, m) <==> IsCopy(p, k, m) || (m == p.instrs[k].dst && k != |p.instrs| - 1 && p.instrs[k].opcode == MOV)
  {
  }

  lemma SubstNoCopy(env: Copies, s: Src)
    requires forall m :: m in env && env[m].Loc? ==> env[m].m !in env
    ensures Subst(env, s).Loc? ==> Subst(env, s).m !in env
  {
  }

  lemma SubstInstrNoCopy(env: Copies, i: Instr)
    requires forall m :: m in env && env[m].Loc? ==> env[m].m !in env
    ensures forall w :: SubstInstr(env, i).Reads(w) ==> w !in env
    ensures SubstInstr(env, i).src1.Loc? ==> SubstInstr(env, i).src1.m !in env && SubstInstr(env, i).Reads(SubstInstr(env, i).src1.m)
  {
    SubstNoCopy(env, i.src1);
    SubstNoCopy(env, i.src2);
    SubstNoCopy(env, i.src3);
  }

  /** What is settled is not defined by the next instruction. */
  lemma NotDefinedNext(p: Program, k: nat, s: Copy)
    requires SingleAssignment(p) && DefinedBeforeUse(p) && k < |p.instrs| && CopyInvariant(p, k, s)
    ensures (forall m :: m in s.env ==> m != p.instrs[k].dst) && (forall m :: m in s.env && s.env[m].Loc? ==> s.env[m].m != p.instrs[k].dst)
    ensures (forall x, w :: 0 <= x < |s.code| && s.code[x].Reads(w) ==> w != p.instrs[k].dst) && (forall x :: 0 <= x < |s.code| ==> s.code[x].dst != p.instrs[k].dst)
    ensures forall w :: SubstInstr(s.env, p.instrs[k]).Reads(w) ==> w != p.instrs[k].dst
  {
    var d := p.instrs[k].dst;
    if Settled(p, k, d) { SettledApart(p, k, d); }
    forall w | SubstInstr(s.env, p.instrs[k]).Reads(w) ensures w != d { SubstReads(p, k, s, w); }
    forall x | 0 <= x < |s.code| ensures s.code[x].dst != d { assert Written(p.instrs, s.code[x].dst, k); }
    forall x, w: nat | 0 <= x < |s.code| && s.code[x].Reads(w) ensures w != d { assert Has(p, s.code, w, x); }
  }

  lemma CopiesOutStep(p: Program, k: nat, s: Copy)
    requires SingleAssignment(p) && DefinedBeforeUse(p) && k < |p.instrs| && CopyInvariant(p, k, s) && CopiesOut(p, k, s)
    ensures CopiesOut(p, k + 1, CopyStep(p, k, s))
  {
    var i, j, t := p.instrs[k], SubstInstr(s.env, p.instrs[k]), CopyStep(p, k, s);
    NotDefinedNext(p, k, s);
    SubstInstrNoCopy(s.env, i);
    forall m ensures IsCopy(p, k + 1, m) <==> IsCopy(p, k, m) || (m == i.dst && k != |p.instrs| - 1 && i.opcode == MOV) { IsCopyNext(p, k, m); }
    assert j.dst == i.dst;
    hide *;
    NextCopiesOut(p, k, s, j, t);
  }

  lemma NextCopiesOut(p: Program, k: nat, s: Copy, j: Instr, t: Copy)
    requires k < |p.instrs| && CopiesOut(p, k, s) && j.dst == p.instrs[k].dst
    requires t == if p.instrs[k].opcode == MOV && k != |p.instrs| - 1 then Copy(s.env[j.dst := j.src1], if j.dst in p.outputs then s.code + [j] else s.code) else Copy(s.env, s.code + [j])
    requires forall m :: IsCopy(p, k + 1, m) <==> IsCopy(p, k, m) || (m == j.dst && k != |p.instrs| - 1 && p.instrs[k].opcode == MOV)
    requires (forall m :: m in s.env ==> m != j.dst) && (forall m :: m in s.env && s.env[m].Loc? ==> s.env[m].m != j.dst)
    requires (forall x, w :: 0 <= x < |s.code| && s.code[x].Reads(w) ==> w != j.dst) && (forall x :: 0 <= x < |s.code| ==> s.code[x].dst != j.dst)
    requires (forall w :: j.Reads(w) ==> w !in s.env && w != j.dst) && (j.src1.Loc? ==> j.Reads(j.src1.m))
    ensures CopiesOut(p, k + 1, t)
  {
    hide IsCopy; hide Instr.Reads;
    forall m: nat ensures m in t.env <==> IsCopy(p, k + 1, m) { assert m in s.env <==> IsCopy(p, k, m); }
    assert forall m :: m in t.env && t.env[m].Loc? ==> t.env[m].m !in t.env;
    forall x, w: nat | 0 <= x < |t.code| && t.code[x].Reads(w) ensures w !in t.env { assert x < |s.code| ==> t.code[x] == s.code[x]; }
    forall x | 0 <= x < |t.code| && t.code[x].dst in t.env ensures t.code[x].dst in p.outputs { assert x < |s.code| ==> t.code[x] == s.code[x]; }
  }

  lemma {:induction false} CopiesOutFold(p: Program, k: nat)
    requires SingleAssignment(p) && DefinedBeforeUse(p) && k <= |p.instrs|
    ensures CopiesOut(p, k, CopyFold(p, k))
  {
    hide *;
    if k == 0 {
      CopiesOutInitially(p);
    } else {
      CopiesOutFold(p, k - 1);
      CopyKeeps(p, k - 1);
      CopyFoldStep(p, k - 1);
      CopiesOutStep(p, k - 1, CopyFold(p, k - 1));
    }
  }

  lemma CopiesOutInitially(p: Program)
    ensures CopiesOut(p, 0, CopyFold(p, 0))
  {
  }

  /** No instruction of `q` reads the destination of a MOV of `p` other than the last instruction, and such a MOV remains only
      for a program output. */
  ghost predicate CopiesGone(p: Program, q: Program) {
    forall m :: IsCopy(p, |p.instrs|, m) ==> forall x :: 0 <= x < |q.instrs| ==> !q.instrs[x].Reads(m) && (q.instrs[x].dst == m ==> m in p.outputs)
  }

  lemma CopiesPropagated(p: Program)
    requires SingleAssignment(p) && DefinedBeforeUse(p)
    ensures CopiesGone(p, CopyProgram(p))
  {
    hide IsCopy; hide Instr.Reads; hide CopyFold;
    CopiesOutFold(p, |p.instrs|);
  }

  /** `propagate_copy` */
  method PropagateCopy(p: Program) returns (q: Program)
    requires SingleAssignment(p) && DefinedBeforeUse(p) && OutputsExist(p)
    ensures Refines(p, q) && CopiesGone(p, q)
  {
    var env: Copies := map[];
    var code := [];
    for k := 0 to |p.instrs|
      invariant Copy(env, code) == CopyFold(p, k)
    {
      var i := p.instrs[k];
      var j := SubstInstr(env, i);
      if i.opcode == MOV && k != |p.instrs| - 1 {
        env := env[i.dst := j.src1];
        if i.dst in p.outputs {
          code := code + [j];
        }
      } else {
        code := code + [j];
      }
    }
    q := Program(code, p.inputs, p.outputs, p.memoryCount);
    CopyCorrect(p);
    CopiesPropagated(p);
  }

  // ----- remove_dead_code -----

  datatype Live = Live(code: seq<Instr>, readSet: set<nat>)

  /** The backward pass over `instrs[k..]`; `code` is in program order. */
  function LiveFold(p: Program, k: nat): Live
    requires k <= |p.instrs|
    decreases |p.instrs| - k
  {
    if k == |p.instrs| then Live([], {})
    else
      var s, i := LiveFold(p, k + 1), p.instrs[k];
      if i.dst !in s.readSet && i.dst !in p.outputs then s
      else Live([i] + s.code, s.readSet + MemInputs(i))
  }

  function LiveProgram(p: Program): Program {
    Program(LiveFold(p, 0).code, p.inputs, p.outputs, p.memoryCount)
  }

  ghost predicate AgreeOn(e1: Env, e2: Env, s: set<nat>, outputs: seq<nat>) {
    (forall m :: m in s ==> e1(m) == e2(m)) && (forall m :: m in outputs ==> e1(m) == e2(m))
  }

  lemma RunFirst(ops: Ops, i: Instr, rest: seq<Instr>, mem: Env)
    ensures Run(ops, [i] + rest, mem) == Run(ops, rest, Exec(ops, i, mem))
  {
    RunAppend(ops, [i], rest, mem);
    RunSnoc(ops, [], i, mem);
    assert [] + [i] == [i];
  }

  /** Memories that agree on what the kept suffix reads end with the same outputs. */
  lemma {:induction false} LiveSuffix(ops: Ops, p: Program, k: nat, e1: Env, e2: Env)
    requires k <= |p.instrs| && AgreeOn(e1, e2, LiveFold(p, k).readSet, p.outputs)
    ensures AgreeOn(Run(ops, p.instrs[k..], e1), Run(ops, LiveFold(p, k).code, e2), {}, p.outputs)
    decreases |p.instrs| - k
  {
    if k < |p.instrs| {
      var s, i := LiveFold(p, k + 1), p.instrs[k];
      assert p.instrs[k..] == [i] + p.instrs[k + 1..];
      RunFirst(ops, i, p.instrs[k + 1..], e1);
      if i.dst !in s.readSet && i.dst !in p.outputs {
        DropAgrees(ops, p, i, s.readSet, e1, e2);
        LiveSuffix(ops, p, k + 1, Exec(ops, i, e1), e2);
      } else {
        RunFirst(ops, i, s.code, e2);
        KeepAgrees(ops, p, i, s.readSet, e1, e2);
        LiveSuffix(ops, p, k + 1, Exec(ops, i, e1), Exec(ops, i, e2));
      }
    }
  }

  lemma DropAgrees(ops: Ops, p: Program, i: Instr, readSet: set<nat>, e1: Env, e2: Env)
    requires AgreeOn(e1, e2, readSet, p.outputs) && i.dst !in readSet && i.dst !in p.outputs
    ensures AgreeOn(Exec(ops, i, e1), e2, readSet, p.outputs)
  {
  }

  lemma KeepAgrees(ops: Ops, p: Program, i: Instr, readSet: set<nat>, e1: Env, e2: Env)
    requires AgreeOn(e1, e2, readSet + MemInputs(i), p.outputs)
    ensures AgreeOn(Exec(ops, i, e1), Exec(ops, i, e2), readSet, p.outputs)
  {
    ComputeReads(ops, i, e1, e2);
  }

  /** Each remaining destination is an output or is read by a later remaining instruction. */
  ghost predicate NoDeadCode(p: Program) {
    forall i :: 0 <= i < |p.instrs| ==>
      p.instrs[i].dst in p.outputs || exists j :: i < j < |p.instrs| && p.instrs[j].Reads(p.instrs[i].dst)
  }

  ghost predicate ReadIn(code: seq<Instr>, m: nat, from: nat) {
    exists j :: from <= j < |code| && code[j].Reads(m)
  }

  lemma {:induction false} LiveReads(p: Program, k: nat)
    requires k <= |p.instrs|
    ensures forall m :: m in LiveFold(p, k).readSet <==> ReadIn(LiveFold(p, k).code, m, 0)
    ensures forall i :: 0 <= i < |LiveFold(p, k).code| ==>
              LiveFold(p, k).code[i].dst in p.outputs || ReadIn(LiveFold(p, k).code, LiveFold(p, k).code[i].dst, i + 1)
    decreases |p.instrs| - k
  {
    if k < |p.instrs| {
      LiveReads(p, k + 1);
      var s, t, i := LiveFold(p, k + 1), LiveFold(p, k), p.instrs[k];
      if !(i.dst !in s.readSet && i.dst !in p.outputs) {
        ReadInCons(i, s.code);
      }
    }
  }

  lemma ReadInCons(i: Instr, code: seq<Instr>)
    ensures forall m :: ReadIn([i] + code, m, 0) <==> i.Reads(m) || ReadIn(code, m, 0)
    ensures forall m, from: nat :: ReadIn([i] + code, m, from + 1) <==> ReadIn(code, m, from)
  {
    var t := [i] + code;
    assert forall j :: 0 <= j < |code| ==> t[j + 1] == code[j];
    forall m, from: nat ensures ReadIn(t, m, from + 1) <==> ReadIn(code, m, from) {
      if ReadIn(t, m, from + 1) {
        var j :| from + 1 <= j < |t| && t[j].Reads(m);
        assert code[j - 1].Reads(m);
      }
      if ReadIn(code, m, from) {
        var j :| from <= j < |code| && code[j].Reads(m);
        assert t[j + 1].Reads(m);
      }
    }
    forall m ensures ReadIn(t, m, 0) <==> i.Reads(m) || ReadIn(code, m, 0) {
      assert ReadIn(t, m, 1) <==> ReadIn(code, m, 0);
      if i.Reads(m) { assert t[0].Reads(m); }
    }
  }

  /** The kept suffix is a subsequence, so it keeps single assignment, and what it reads is still written before. */
  ghost predicate LiveInvariant(p: Program, k: nat, s: Live)
    requires k <= |p.instrs|
  {
    && (forall i :: 0 <= i < |s.code| ==> WrittenAfter(p, s.code[i].dst, k))
    && (forall i, j :: 0 <= i < j < |s.code| ==> s.code[i].dst != s.code[j].dst)
    && (forall i, m :: 0 <= i < |s.code| && s.code[i].Reads(m) ==> m in p.inputs || Written(p.instrs, m, k) || Written(s.code, m, i))
    && (forall m :: WrittenAfter(p, m, k) && (m in s.readSet || m in p.outputs) ==> Written(s.code, m, |s.code|))
    && (forall m :: m in s.readSet <==> ReadIn(s.code, m, 0))
  }

  ghost predicate WrittenAfter(p: Program, m: nat, k: nat) {
    exists j :: k <= j < |p.instrs| && p.instrs[j].dst == m
  }

  lemma WrittenCons(i: Instr, code: seq<Instr>, m: nat, j: nat)
    requires j <= |code|
    ensures Written([i] + code, m, j + 1) <==> m == i.dst || Written(code, m, j)
  {
    var t := [i] + code;
    assert t[0] == i;
    if m == i.dst { assert t[0].dst == m; }
    if Written(code, m, j) {
      var x :| 0 <= x < j && code[x].dst == m;
      assert t[x + 1].dst == m;
    }
    if Written(t, m, j + 1) {
      var x :| 0 <= x < j + 1 && t[x].dst == m;
      if x > 0 { assert code[x - 1].dst == m; }
    }
  }

  lemma {:induction false} LiveKeeps(p: Program, k: nat)
    requires SingleAssignment(p) && DefinedBeforeUse(p) && k <= |p.instrs|
    ensures LiveInvariant(p, k, LiveFold(p, k))
    decreases |p.instrs| - k
  {
    if k < |p.instrs| {
      LiveKeeps(p, k + 1);
      LiveReads(p, k);
      LiveStepKeeps(p, k, LiveFold(p, k + 1), LiveFold(p, k));
    }
  }

  lemma LiveStepKeeps(p: Program, k: nat, s: Live, t: Live)
    requires SingleAssignment(p) && DefinedBeforeUse(p) && k < |p.instrs| && LiveInvariant(p, k + 1, s)
    requires var i := p.instrs[k];
             t == if i.dst !in s.readSet && i.dst !in p.outputs then s else Live([i] + s.code, s.readSet + MemInputs(i))
    requires forall m :: m in t.readSet <==> ReadIn(t.code, m, 0)
    ensures LiveInvariant(p, k, t)
  {
    var i := p.instrs[k];
    forall m ensures Written(p.instrs, m, k + 1) <==> Written(p.instrs, m, k) || m == i.dst { WrittenNext(p.instrs, m, k); }
    forall m ensures WrittenAfter(p, m, k) <==> m == i.dst || WrittenAfter(p, m, k + 1) {
      if m == i.dst { assert p.instrs[k].dst == m; }
    }
    if i.dst !in s.readSet && i.dst !in p.outputs {
      forall x, m: nat | 0 <= x < |s.code| && s.code[x].Reads(m) ensures m != i.dst { assert ReadIn(s.code, m, 0); }
      hide Written;
      hide WrittenAfter;
      hide ReadIn;
    } else {
      assert !WrittenAfter(p, i.dst, k + 1);
      forall m | i.Reads(m) ensures m in p.inputs || Written(p.instrs, m, k) { }
      forall m | i.Reads(m) ensures !WrittenAfter(p, m, k + 1) { SettledIsNotWrittenAfter(p, k, m); }
      hide SingleAssignment;
      hide DefinedBeforeUse;
      LiveKeptStep(p, k, s, t, i);
    }
  }

  lemma SettledIsNotWrittenAfter(p: Program, k: nat, m: nat)
    requires SingleAssignment(p) && k <= |p.instrs| && Settled(p, k, m)
    ensures !WrittenAfter(p, m, k) && !WrittenAfter(p, m, k + 1)
  {
  }

  lemma LiveKeptStep(p: Program, k: nat, s: Live, t: Live, i: Instr)
    requires k < |p.instrs| && i == p.instrs[k] && LiveInvariant(p, k + 1, s)
    requires t == Live([i] + s.code, s.readSet + MemInputs(i))
    requires forall m :: m in t.readSet <==> ReadIn(t.code, m, 0)
    requires forall m :: Written(p.instrs, m, k + 1) <==> Written(p.instrs, m, k) || m == i.dst
    requires forall m :: WrittenAfter(p, m, k) <==> m == i.dst || WrittenAfter(p, m, k + 1)
    requires !WrittenAfter(p, i.dst, k + 1)
    requires forall m :: i.Reads(m) ==> m in p.inputs || Written(p.instrs, m, k)
    requires forall m :: i.Reads(m) ==> !WrittenAfter(p, m, k + 1)
    ensures LiveInvariant(p, k, t)
  {
    LiveKeptReads(p, k, s, i);
    LiveKeptWrites(p, k, s, i);
    var code := t.code;
    forall x | 0 <= x < |code| ensures WrittenAfter(p, code[x].dst, k) {
      if x > 0 { assert code[x] == s.code[x - 1]; }
    }
    forall x, y | 0 <= x < y < |code| ensures code[x].dst != code[y].dst {
      assert code[y] == s.code[y - 1];
      if x > 0 { assert code[x] == s.code[x - 1]; }
    }
    hide Written;
    hide WrittenAfter;
    hide ReadIn;
  }

  lemma LiveKeptReads(p: Program, k: nat, s: Live, i: Instr)
    requires k < |p.instrs| && i == p.instrs[k] && LiveInvariant(p, k + 1, s)
    requires forall m :: Written(p.instrs, m, k + 1) <==> Written(p.instrs, m, k) || m == i.dst
    requires forall m :: i.Reads(m) ==> m in p.inputs || Written(p.instrs, m, k)
    ensures var code := [i] + s.code;
            forall x, m :: 0 <= x < |code| && code[x].Reads(m) ==> m in p.inputs || Written(p.instrs, m, k) || Written(code, m, x)
  {
    var code := [i] + s.code;
    forall x, m: nat | 0 <= x < |code| && code[x].Reads(m)
      ensures m in p.inputs || Written(p.instrs, m, k) || Written(code, m, x)
    {
      if x > 0 {
        assert code[x] == s.code[x - 1];
        WrittenCons(i, s.code, m, x - 1);
      }
    }
  }

  lemma LiveKeptWrites(p: Program, k: nat, s: Live, i: Instr)
    requires k < |p.instrs| && i == p.instrs[k] && LiveInvariant(p, k + 1, s)
    requires forall m :: WrittenAfter(p, m, k) <==> m == i.dst || WrittenAfter(p, m, k + 1)
    requires forall m :: i.Reads(m) ==> !WrittenAfter(p, m, k + 1)
    ensures forall m :: WrittenAfter(p, m, k) && (m in s.readSet + MemInputs(i) || m in p.outputs) ==>
              Written([i] + s.code, m, |s.code| + 1)
  {
    forall m | WrittenAfter(p, m, k) && (m in s.readSet + MemInputs(i) || m in p.outputs)
      ensures Written([i] + s.code, m, |s.code| + 1)
    {
      WrittenCons(i, s.code, m, |s.code|);
    }
  }

  lemma LiveCorrect(p: Program)
    requires SingleAssignment(p) && DefinedBeforeUse(p) && OutputsExist(p)
    ensures Refines(p, LiveProgram(p)) && NoDeadCode(LiveProgram(p))
  {
    var q := LiveProgram(p);
    LiveKeeps(p, 0);
    LiveReads(p, 0);
    forall ops: Ops, mem: Env, k | 0 <= k < |p.outputs|
      ensures Run(ops, q.instrs, mem)(q.outputs[k]) == Run(ops, p.instrs, mem)(p.outputs[k])
    {
      LiveSuffix(ops, p, 0, mem, mem);
      assert p.instrs[0..] == p.instrs;
      assert p.outputs[k] in p.outputs;
    }
  }

  lemma {:induction false} LiveSubset(p: Program, k: nat)
    requires k <= |p.instrs|
    ensures forall x :: 0 <= x < |LiveFold(p, k).code| ==> LiveFold(p, k).code[x] in p.instrs
    decreases |p.instrs| - k
  {
    if k < |p.instrs| { LiveSubset(p, k + 1); }
  }

  /** `remove_dead_code` */
  method RemoveDeadCode(p: Program) returns (q: Program)
    requires SingleAssignment(p) && DefinedBeforeUse(p) && OutputsExist(p)
    ensures Refines(p, q) && NoDeadCode(q) && forall x :: 0 <= x < |q.instrs| ==> q.instrs[x] in p.instrs
  {
    var reversed := [];
    var readSet: set<nat> := {};
    for k := |p.instrs| downto 0
      invariant Live(Reverse(reversed), readSet) == LiveFold(p, k)
    {
      var i := p.instrs[k];
      if i.dst !in readSet && i.dst !in p.outputs {
      } else {
        ReverseSnoc(reversed, i);
        reversed := reversed + [i];
        readSet := readSet + MemInputs(i);
      }
    }
    q := Program(Reverse(reversed), p.inputs, p.outputs, p.memoryCount);
    LiveCorrect(p);
    LiveSubset(p, 0);
  }

  function Reverse(s: seq<Instr>): (r: seq<Instr>)
    ensures |r| == |s|
  {
    seq(|s|, i requires 0 <= i < |s| => s[|s| - 1 - i])
  }

  lemma ReverseSnoc(s: seq<Instr>, i: Instr)
    ensures Reverse(s + [i]) == [i] + Reverse(s)
  {
  }

  /** The three passes in the order of `file_to_IR`: the result is in single-assignment form, computes the
      same outputs for every memory and every meaning of the opcodes, holds no dead instruction and reads no copy. */
  method Passes(p: Program) returns (q: Program)
    requires Below(p) && DefinedBeforeUse(p) && OutputsExist(p)
    ensures q.inputs == p.inputs && SameOutputs(p, q)
    ensures SingleAssignment(q) && DefinedBeforeUse(q) && OutputsExist(q) && NoDeadCode(q) && Contained(q) && (SingleAssignment(p) && AllReturned(p) ==> AllReturned(q))
    ensures ReadsNoCopies(p, q)
  {
    hide *;
    var a := ToSSA(p);
    SsaParts(p, a);
    var b := PropagateCopy(a);
    RefinesParts(a, b);
    q := RemoveDeadCode(b);
    RefinesParts(b, q);
    SameOutputsTrans(p, a, b);
    SameOutputsTrans(p, b, q);
    CopiesStayGone(p, a, b, q);
  }

  /** The copies of the program in single-assignment form are gone. */
  ghost predicate ReadsNoCopies(p: Program, q: Program) {
    exists a :: IsSsaOf(p, a) && CopiesGone(a, q)
  }

  lemma CopiesStayGone(p: Program, a: Program, b: Program, q: Program)
    requires IsSsaOf(p, a) && CopiesGone(a, b) && forall x :: 0 <= x < |q.instrs| ==> q.instrs[x] in b.instrs
    ensures ReadsNoCopies(p, q)
  {
    hide IsSsaOf; hide IsCopy; hide Instr.Reads;
    assert CopiesGone(a, q);
  }

  lemma SsaParts(p: Program, q: Program)
    requires IsSsaOf(p, q) && DefinedBeforeUse(p) && OutputsExist(p)
    ensures q.inputs == p.inputs && SingleAssignment(q) && SameOutputs(p, q) && DefinedBeforeUse(q) && OutputsExist(q) && Contained(q) && (SingleAssignment(p) && AllReturned(p) ==> AllReturned(q))
  {
  }

  lemma RefinesParts(p: Program, q: Program)
    requires Refines(p, q)
    ensures q.inputs == p.inputs && SameOutputs(p, q) && SingleAssignment(q) && DefinedBeforeUse(q) && OutputsExist(q) && (Contained(p) ==> Contained(q)) && (AllReturned(p) ==> AllReturned(q))
  {
  }
}
