/** Running a lowered program: every cell that matters has the value the graph gives it, whatever registers were chosen and
    whatever they held, provided no live output is exposed. */
module LoweredRuns {
  import opened IR
  import opened Dfg
  import opened Bytecode
  import opened Backend
  import opened Simulation
  import RegAlloc
  import Lowering
  import Allocator
  import Linking
  import LlsCode
  import SecureElement
  import Interpreter

  // ----- cells that matter -----

  ghost predicate UsedBy(g: Graph, n: nat, m: nat) {
    n in g.nodes && n in g.mlmi && RegAlloc.Used(g.mlmi[n].instrs, m)
  }

  /** The program returns the cell, or some node uses it. */
  ghost predicate Live(g: Graph, m: nat) {
    m in g.progOutputs || exists n :: UsedBy(g, n, m)
  }

  /** No live output loses its register. */
  ghost predicate NodeClean(g: Graph, n: Mlmi, cfg: Config) {
    NodeSafe(n, cfg) && forall o :: o in n.outputs && Live(g, o) ==> !RegAlloc.Exposed(NodeProblem(n, cfg), o)
  }

  /** What the allocator needs of every node: the condition on inputs, and live outputs that are not exposed. */
  ghost predicate Clean(g: Graph, cfg: Config) {
    forall n :: n in g.nodes && n in g.mlmi ==> NodeClean(g, g.mlmi[n], cfg)
  }

  /** A node that returns everything it computes, as the nodes of routing networks and the added copies do, is clean. */
  lemma OnlyOutputsClean(g: Graph, n: Mlmi, cfg: Config)
    requires Returns(n)
    ensures NodeClean(g, n, cfg)
  {
    hide Live; hide RegAlloc.LastRead; hide RegAlloc.Unpacked;
  }

  lemma ReturningClean(g: Graph, cfg: Config)
    requires Returning(g)
    ensures Clean(g, cfg)
  {
    hide NodeClean; hide Returns;
    forall n | n in g.nodes && n in g.mlmi ensures NodeClean(g, g.mlmi[n], cfg) { OnlyOutputsClean(g, g.mlmi[n], cfg); }
  }

  lemma CleanAt(g: Graph, cfg: Config, n: nat)
    requires Clean(g, cfg) && n in g.nodes && n in g.mlmi
    ensures NodeClean(g, g.mlmi[n], cfg)
  {
    hide NodeClean;
  }

  // ----- storing words -----

  lemma {:induction false} StoreAt(mem: Memory, cells: seq<nat>, ws: seq<Word>, j: nat, m: nat, w: Word)
    requires j <= |cells| == |ws| && (m in cells[..j] || (m in mem && mem[m] == w)) && forall i :: 0 <= i < j && cells[i] == m ==> ws[i] == w
    ensures m in Store(mem, cells, ws, j) && Store(mem, cells, ws, j)[m] == w
  {
    if j > 0 {
      assert cells[..j] == cells[..j - 1] + [cells[j - 1]];
      if cells[j - 1] != m { StoreAt(mem, cells, ws, j - 1, m, w); }
    }
  }

  /** The memory holds the values of the live cells that exist before node `k` of the order. */
  ghost predicate Holds(g: Graph, order: seq<nat>, k: nat, mem: Memory, val: Env)
    requires NodesOk(g) && k <= |order| && forall i :: 0 <= i < |order| ==> order[i] in g.nodes
  {
    forall m :: Live(g, m) && Before(g, order, k, m) ==> m in mem && mem[m] == val(m)
  }

  lemma HoldsInputs(g: Graph, order: seq<nat>, inputs: seq<nat>, inps: seq<Word>, val: Env)
    requires NodesOk(g) && (forall i :: 0 <= i < |order| ==> order[i] in g.nodes) && (forall m :: m in inputs <==> m in g.progInputs)
    requires |inps| == |inputs| && forall i :: 0 <= i < |inputs| ==> val(inputs[i]) == inps[i]
    ensures Holds(g, order, 0, Store(map[], inputs, inps, |inps|), val)
  {
    hide Live; hide NodesOk;
    forall m | Live(g, m) && Before(g, order, 0, m) ensures m in Store(map[], inputs, inps, |inps|) && Store(map[], inputs, inps, |inps|)[m] == val(m) {
      assert inputs[..|inps|] == inputs;
      StoreAt(map[], inputs, inps, |inps|, m, val(m));
    }
  }

  // ----- one multi-instruction -----

  /** The words fetched for the used inputs are theirs. */
  lemma FetchesUsed(g: Graph, order: seq<nat>, k: nat, mem: Memory, val: Env, cfg: Config, m: nat)
    requires NodesOk(g) && IsOrder(g, order) && k < |order| && Holds(g, order, k, mem, val)
    requires var q := Allocator.SomeInput(NodeProblem(g.mlmi[order[k]], cfg)); m in RegAlloc.UsedInputs(q) && RegAlloc.UsedInputs(q) == RegAlloc.UsedInputs(NodeProblem(g.mlmi[order[k]], cfg))
    ensures var q := Allocator.SomeInput(NodeProblem(g.mlmi[order[k]], cfg));
      RegAlloc.FirstIndex(q.inputs, m) < |q.inputs| && Fetch(mem, q.inputs)[RegAlloc.FirstIndex(q.inputs, m)] == val(m)
  {
    hide RegAlloc.Used; hide NodeOk;
    var n := g.mlmi[order[k]];
    assert m in n.inputs && UsedBy(g, order[k], m);
    assert Before(g, order, k, m);
    assert Live(g, m);
    hide Live; hide Before;
    assert m in mem && mem[m] == val(m);
  }

  lemma {:induction false} DefinedAt(instrs: seq<Instr>, o: nat) returns (b: nat)
    requires Assigns(instrs, o)
    ensures b < |instrs| && instrs[b].dst == o
  {
    b :| 0 <= b < |instrs| && instrs[b].dst == o;
  }

  /** A live output of a lowered node gets its value. */
  lemma OutputRight(ops: Ops, g: Graph, order: seq<nat>, k: nat, mem: Memory, val: Env, cfg: Config, mi: Llmi, gk: seq<Word>, x: nat)
    requires NodesOk(g) && IsOrder(g, order) && k < |order| && Holds(g, order, k, mem, val) && Models(ops, g, val)
    requires Lowers(g.mlmi[order[k]], cfg, mi) && NodeClean(g, g.mlmi[order[k]], cfg) && NodeFits(g.mlmi[order[k]], cfg) && MiShape(mi, cfg) && |gk| == cfg.r
    requires x < |mi.outputs| && Live(g, mi.outputs[x])
    ensures MiOutputs(ops, mi, cfg, mem, gk)[x] == val(mi.outputs[x])
  {
    hide *;
    ShapeIs(mi, cfg);
    OutputIsAssigned(g, order, k, mi.outputs[x]);
    var n := g.mlmi[order[k]];
    var p, u := NodeProblem(n, cfg), UsedCount(n, cfg);
    var q := Allocator.SomeInput(p);
    var run := LowersIs(n, cfg, mi);
    SameCode(n, cfg);
    NodeRegular(n, cfg);
    NodeFacts(n, cfg);
    Allocator.SomeInputRegular(p, u);
    Allocator.SameProblem(p, u, q);
    CleanIs(g, n, cfg, mi.outputs[x]);
    Allocator.MakeWellFormed(q, u);
    var vs := Fetch(mem, mi.inputs);
    forall m | m in RegAlloc.UsedInputs(q) ensures RegAlloc.FirstIndex(q.inputs, m) < |q.inputs| && val(m) == vs[RegAlloc.FirstIndex(q.inputs, m)] {
      FetchesUsed(g, order, k, mem, val, cfg, m);
    }
    var b := DefinedAt(n.instrs, mi.outputs[x]);
    FetchLength(mem, mi.inputs);
    Linking.LoweredEvaluates(ops, q, u, run, mi.lls, val, vs, gk, b, x);
    MiOutputsIs(ops, mi, cfg, mem, gk);
    ValueOfRun(ops, g, order[k], val, mi.outputs[x]);
  }

  lemma ShapeIs(mi: Llmi, cfg: Config)
    requires MiShape(mi, cfg)
    ensures |mi.inputs| <= cfg.r && |mi.outputs| <= cfg.lout <= cfg.r && LlsCode.AllInRange(LlsCode.Codes(mi.lls), cfg.r)
  {
    hide LlsCode.AllInRange; hide LlsCode.Codes;
  }

  lemma LowersIs(n: Mlmi, cfg: Config, mi: Llmi) returns (run: seq<RegAlloc.State>)
    requires Lowers(n, cfg, mi)
    ensures var q, u := Allocator.SomeInput(NodeProblem(n, cfg)), UsedCount(n, cfg);
      && q.lout <= q.k && RegAlloc.Regular(q, u) && Lowering.Complete(q, u, run) && |run| == |n.instrs| + 1
      && mi.lls == Lowering.LowerAll(run[|n.instrs|].regs, n.instrs) && mi.inputs == q.inputs && mi.outputs == n.outputs
  {
    hide RegAlloc.Regular; hide Lowering.Complete; hide Lowering.LowerAll; hide UsedCount; hide Allocator.SomeInput; hide NodeProblem;
    run :| LoweredBy(n, cfg, mi, run);
  }

  lemma CleanIs(g: Graph, n: Mlmi, cfg: Config, o: nat)
    requires NodeClean(g, n, cfg)
    ensures NodeSafe(n, cfg) && (o in n.outputs && Live(g, o) ==> !RegAlloc.Exposed(NodeProblem(n, cfg), o))
  {
    hide NodeSafe; hide Live; hide RegAlloc.Exposed;
  }

  lemma FetchLength(mem: Memory, cells: seq<nat>)
    ensures |Fetch(mem, cells)| == |cells|
  {
  }

  lemma MiOutputsIs(ops: Ops, mi: Llmi, cfg: Config, mem: Memory, gk: seq<Word>)
    requires MiShape(mi, cfg) && |gk| == cfg.r
    ensures |mi.inputs| <= |gk| && |mi.outputs| <= cfg.lout <= |gk| && LlsCode.AllInRange(LlsCode.Codes(mi.lls), |gk|) && |Fetch(mem, mi.inputs)| <= |gk|
    ensures MiOutputs(ops, mi, cfg, mem, gk) == SecureElement.Evaluated(ops, LlsCode.Codes(mi.lls), cfg.lout, |mi.outputs|, Fetch(mem, mi.inputs), gk)
  {
    hide LlsCode.AllInRange; hide LlsCode.Codes; hide SecureElement.Evaluated;
  }

  lemma OutputIsAssigned(g: Graph, order: seq<nat>, k: nat, o: nat)
    requires NodesOk(g) && IsOrder(g, order) && k < |order|
    ensures order[k] in g.nodes && order[k] in g.mlmi && (o in g.mlmi[order[k]].outputs ==> Assigns(g.mlmi[order[k]].instrs, o))
  {
    hide Assigns; hide Scheduled; hide SingleAssign; hide Before;
    assert NodeOk(g.mlmi[order[k]]);
  }

  lemma ValueOfRun(ops: Ops, g: Graph, n: nat, val: Env, o: nat)
    requires NodesOk(g) && Models(ops, g, val) && n in g.nodes && n in g.mlmi && o in g.mlmi[n].outputs
    ensures Run(ops, g.mlmi[n].instrs, val)(o) == val(o)
  {
    hide Models; hide NodesOk; hide Run;
    RunNodeGivesValues(ops, g, n, val, val, o);
  }

  // ----- the whole program -----

  lemma {:induction false} LiveCellsRight(ops: Ops, g: Graph, order: seq<nat>, cfg: Config, p: Program, gs: seq<seq<Word>>, inps: seq<Word>, val: Env, k: nat)
    requires NodesOk(g) && IsOrder(g, order) && AllFit(g, cfg) && Clean(g, cfg) && IsLowered(g, order, cfg, p) && Models(ops, g, val)
    requires AllShaped(p, cfg) && k <= |p.instrs| == |order| && k <= |gs| && Files(gs, cfg.r) && |inps| == |p.inputs|
    requires (forall m :: m in p.inputs <==> m in g.progInputs) && forall i :: 0 <= i < |p.inputs| ==> val(p.inputs[i]) == inps[i]
    ensures (forall i :: 0 <= i < |order| ==> order[i] in g.nodes) && Holds(g, order, k, MemAt(ops, p, cfg, gs, inps, k), val)
    decreases k
  {
    hide *;
    OrderIs(g, order);
    MemAtIs(ops, p, cfg, gs, inps, k);
    if k == 0 {
      HoldsInputs(g, order, p.inputs, inps, val);
    } else {
      LiveCellsRight(ops, g, order, cfg, p, gs, inps, val, k - 1);
      var n, mi, mem := order[k - 1], p.instrs[k - 1], MemAt(ops, p, cfg, gs, inps, k - 1);
      AllFitKnown(g, cfg);
      CleanAt(g, cfg, n);
      LoweredAt(g, order, cfg, p, k - 1);
      var ws := MiOutputs(ops, mi, cfg, mem, gs[k - 1]);
      forall x | 0 <= x < |mi.outputs| && Live(g, mi.outputs[x]) ensures ws[x] == val(mi.outputs[x]) {
        OutputRight(ops, g, order, k - 1, mem, val, cfg, mi, gs[k - 1], x);
      }
      HoldsNext(g, order, k - 1, mem, val, mi.outputs, ws);
    }
  }

  lemma MemAtIs(ops: Ops, p: Program, cfg: Config, gs: seq<seq<Word>>, inps: seq<Word>, k: nat)
    requires AllShaped(p, cfg) && k <= |p.instrs| && k <= |gs| && Files(gs, cfg.r) && |inps| == |p.inputs|
    ensures k == 0 ==> MemAt(ops, p, cfg, gs, inps, k) == Store(map[], p.inputs, inps, |inps|)
    ensures k > 0 ==> MiShape(p.instrs[k - 1], cfg) && |gs[k - 1]| == cfg.r && |MiOutputs(ops, p.instrs[k - 1], cfg, MemAt(ops, p, cfg, gs, inps, k - 1), gs[k - 1])| == |p.instrs[k - 1].outputs|
    ensures k > 0 ==> var mem, mi := MemAt(ops, p, cfg, gs, inps, k - 1), p.instrs[k - 1];
      MemAt(ops, p, cfg, gs, inps, k) == Store(mem, mi.outputs, MiOutputs(ops, mi, cfg, mem, gs[k - 1]), |mi.outputs|)
  {
    hide Store; hide MiShape;
  }

  lemma LoweredAt(g: Graph, order: seq<nat>, cfg: Config, p: Program, k: nat)
    requires IsLowered(g, order, cfg, p) && k < |order| && |p.instrs| == |order|
    ensures order[k] in g.mlmi && Lowers(g.mlmi[order[k]], cfg, p.instrs[k]) && p.instrs[k].outputs == g.mlmi[order[k]].outputs
    ensures p.outputs == g.progOutputs
  {
    hide LoweredBy;
    assert Lowers(g.mlmi[order[k]], cfg, p.instrs[k]);
    var run := LowersIs(g.mlmi[order[k]], cfg, p.instrs[k]);
  }

  lemma HoldsNext(g: Graph, order: seq<nat>, k: nat, mem: Memory, val: Env, outs: seq<nat>, ws: seq<Word>)
    requires NodesOk(g) && k < |order| && (forall i :: 0 <= i < |order| ==> order[i] in g.nodes) && Holds(g, order, k, mem, val)
    requires order[k] in g.mlmi && outs == g.mlmi[order[k]].outputs && |ws| == |outs| && forall x :: 0 <= x < |outs| && Live(g, outs[x]) ==> ws[x] == val(outs[x])
    ensures Holds(g, order, k + 1, Store(mem, outs, ws, |outs|), val)
  {
    hide Live; hide NodesOk; hide Store;
    assert outs[..|outs|] == outs;
    forall m | Live(g, m) && Before(g, order, k + 1, m) ensures m in Store(mem, outs, ws, |outs|) && Store(mem, outs, ws, |outs|)[m] == val(m) {
      BeforeNext(g, order, k, m);
      StoreAt(mem, outs, ws, |outs|, m, val(m));
    }
  }

  lemma BeforeNext(g: Graph, order: seq<nat>, k: nat, m: nat)
    requires NodesOk(g) && k < |order| && (forall i :: 0 <= i < |order| ==> order[i] in g.nodes) && Before(g, order, k + 1, m)
    ensures Before(g, order, k, m) || m in g.mlmi[order[k]].outputs
  {
    hide NodeOk;
  }

  /** The outputs of the lowered program are the graph's. */
  lemma ResultsRight(ops: Ops, g: Graph, order: seq<nat>, cfg: Config, p: Program, gs: seq<seq<Word>>, inps: seq<Word>, val: Env, i: nat)
    requires Integral(g) && NodesOk(g) && IsOrder(g, order) && AllFit(g, cfg) && Clean(g, cfg) && IsLowered(g, order, cfg, p) && Models(ops, g, val)
    requires AllShaped(p, cfg) && |gs| == |p.instrs| && Files(gs, cfg.r) && |inps| == |p.inputs| && |p.instrs| == |order|
    requires (forall m :: m in p.inputs <==> m in g.progInputs) && (forall j :: 0 <= j < |p.inputs| ==> val(p.inputs[j]) == inps[j]) && i < |p.outputs| && p.outputs == g.progOutputs
    ensures Interpreter.Results(ops, p, cfg, gs, inps)[i] == val(p.outputs[i])
  {
    hide *;
    var n := |order|;
    LiveCellsRight(ops, g, order, cfg, p, gs, inps, val, n);
    OutputBefore(g, order, p.outputs[i]);
    HeldAt(g, order, n, MemAt(ops, p, cfg, gs, inps, n), val, p.outputs[i]);
    ResultIs(ops, p, cfg, gs, inps, i);
  }

  lemma OutputBefore(g: Graph, order: seq<nat>, o: nat)
    requires Integral(g) && NodesOk(g) && IsOrder(g, order) && o in g.progOutputs && forall i :: 0 <= i < |order| ==> order[i] in g.nodes
    ensures Live(g, o) && Before(g, order, |order|, o)
  {
    hide NodeOk; hide FwdOk; hide Assigns;
    assert Available(g, o);
    if o !in g.progInputs {
      assert g.back[o] in order;
      var j :| 0 <= j < |order| && order[j] == g.back[o];
      assert o in g.mlmi[order[j]].outputs;
    }
  }

  lemma HeldAt(g: Graph, order: seq<nat>, k: nat, mem: Memory, val: Env, m: nat)
    requires NodesOk(g) && k <= |order| && (forall i :: 0 <= i < |order| ==> order[i] in g.nodes) && Holds(g, order, k, mem, val) && Live(g, m) && Before(g, order, k, m)
    ensures m in mem && mem[m] == val(m)
  {
    hide NodesOk; hide Live; hide Before;
  }

  lemma ResultIs(ops: Ops, p: Program, cfg: Config, gs: seq<seq<Word>>, inps: seq<Word>, i: nat)
    requires AllShaped(p, cfg) && |p.instrs| == |gs| && Files(gs, cfg.r) && |inps| == |p.inputs| && i < |p.outputs|
    ensures var mem := MemAt(ops, p, cfg, gs, inps, |p.instrs|);
      p.outputs[i] in mem ==> Interpreter.Results(ops, p, cfg, gs, inps)[i] == mem[p.outputs[i]]
  {
    hide AllShaped; hide Files; hide MemAt;
  }
}
