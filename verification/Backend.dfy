/** The end of the compiler: every node of an ordered graph is lowered (`to_LLIR` of compiler/src/DFG.py with `MLMI_to_LLMI` of
    compiler/src/lowering/lowering.py), and running the lowered program computes what the graph means. */
module Backend {
  import opened Options
  import opened IR
  import opened Dfg
  import opened LayeredGraph
  import opened Bytecode
  import RegAlloc
  import Lowering
  import Allocator

  // ----- one node -----

  function NodeProblem(n: Mlmi, cfg: Config): RegAlloc.Problem {
    RegAlloc.Problem(n.instrs, n.inputs, n.outputs, cfg.r, cfg.lout)
  }

  ghost function UsedCount(n: Mlmi, cfg: Config): nat {
    |RegAlloc.UsedInputs(NodeProblem(n, cfg))|
  }

  /** `l_in`, `l_out` and `s` of the configuration, which also asks for `r >= l_in + l_out`. */
  ghost predicate NodeFits(n: Mlmi, cfg: Config) {
    NodeOk(n) && NodeWithin(n, Limits(cfg.lin, cfg.lout, cfg.s)) && cfg.lin >= 1 && cfg.lin + cfg.lout <= cfg.r
  }

  lemma DefinesIsAssigns(instrs: seq<Instr>, m: nat, k: nat)
    requires k <= |instrs|
    ensures RegAlloc.Defines(instrs, m, k) <==> Assigns(instrs[..k], m)
  {
    if RegAlloc.Defines(instrs, m, k) {
      var j :| 0 <= j < k && instrs[j].dst == m;
      assert instrs[..k][j].dst == m;
    }
    if Assigns(instrs[..k], m) {
      var j :| 0 <= j < k && instrs[..k][j].dst == m;
      assert instrs[j].dst == m;
    }
  }

  lemma ReadIsUsed(n: Mlmi, cfg: Config, i: nat, m: nat)
    requires NodeOk(n) && i < |n.instrs| && n.instrs[i].Reads(m)
    ensures RegAlloc.Defines(n.instrs, m, i) || m in RegAlloc.UsedInputs(NodeProblem(n, cfg))
  {
    hide Assigns; hide Instr.Reads;
    DefinesIsAssigns(n.instrs, m, i);
    DefinesIsAssigns(n.instrs, m, |n.instrs|);
    assert n.instrs[..|n.instrs|] == n.instrs;
    hide RegAlloc.Defines;
  }

  lemma {:induction false} UsedFew(s: seq<nat>, used: set<nat>)
    requires forall m :: m in used ==> m in s
    ensures |used| <= |s|
    decreases |s|
  {
    if s == [] {
      assert used == {};
    } else {
      var k := |s| - 1;
      assert s == s[..k] + [s[k]];
      UsedFew(s[..k], used - {s[k]});
    }
  }

  /** Every node within the limits is a problem the allocator accepts. */
  lemma NodeRegular(n: Mlmi, cfg: Config)
    requires NodeFits(n, cfg)
    ensures RegAlloc.Regular(NodeProblem(n, cfg), UsedCount(n, cfg))
  {
    var p := NodeProblem(n, cfg);
    forall i, m | 0 <= i < |p.instrs| && p.instrs[i].Reads(m) ensures RegAlloc.Defines(p.instrs, m, i) || m in RegAlloc.UsedInputs(p) { ReadIsUsed(n, cfg, i, m); }
    forall i | 0 <= i < |p.outputs| ensures RegAlloc.Defines(p.instrs, p.outputs[i], |p.instrs|) {
      DefinesIsAssigns(p.instrs, p.outputs[i], |p.instrs|);
      assert p.instrs[..|p.instrs|] == p.instrs && p.outputs[i] in n.outputs;
    }
    UsedFew(p.inputs, RegAlloc.UsedInputs(p));
    hide RegAlloc.Defines; hide RegAlloc.LastRead; hide Scheduled; hide Assigns; hide RegAlloc.Used; hide Instr.Reads;
  }

  ghost predicate LoweredBy(n: Mlmi, cfg: Config, mi: Llmi, run: seq<RegAlloc.State>) {
    var q, u := Allocator.SomeInput(NodeProblem(n, cfg)), UsedCount(n, cfg);
    && q.lout <= q.k && RegAlloc.Regular(q, u) && Lowering.Complete(q, u, run) && |run| == |n.instrs| + 1
    && mi == Llmi(Lowering.LowerAll(run[|n.instrs|].regs, n.instrs), q.inputs, n.outputs)
  }

  /** The node was lowered with some choice of registers. */
  ghost predicate Lowers(n: Mlmi, cfg: Config, mi: Llmi) {
    exists run: seq<RegAlloc.State> :: LoweredBy(n, cfg, mi, run)
  }

  /** The allocator's condition on inputs, and enough registers. */
  ghost predicate NodeSafe(n: Mlmi, cfg: Config) {
    RegAlloc.Safe(NodeProblem(n, cfg), UsedCount(n, cfg))
  }

  ghost predicate NodeEnough(n: Mlmi, cfg: Config)
    requires cfg.lout <= cfg.r
  {
    RegAlloc.Enough(NodeProblem(n, cfg), UsedCount(n, cfg))
  }

  method LowerNode(n: Mlmi, cfg: Config) returns (r: Option<Llmi>)
    requires NodeFits(n, cfg)
    ensures r.Some? ==> Lowers(n, cfg, r.value)
    ensures cfg.lout <= cfg.r && (NodeSafe(n, cfg) ==> (r.Some? <==> NodeEnough(n, cfg)))
  {
    hide *;
    NodeRegular(n, cfg);
    ghost var u := UsedCount(n, cfg);
    var code;
    ghost var run;
    code, run := Allocator.LowerMultiInstruction(NodeProblem(n, cfg), u);
    NodeFacts(n, cfg);
    if code.None? { return None; }
    SameCode(n, cfg);
    Lowering.CompleteParts(Allocator.SomeInput(NodeProblem(n, cfg)), u, run);
    r := Some(Llmi(code.value.0, code.value.1, n.outputs));
    MakeLowers(n, cfg, r.value, run);
  }

  lemma NodeFacts(n: Mlmi, cfg: Config)
    requires NodeFits(n, cfg)
    ensures cfg.lout <= cfg.r && NodeProblem(n, cfg).lout == cfg.lout && NodeProblem(n, cfg).k == cfg.r
    ensures NodeSafe(n, cfg) <==> RegAlloc.Safe(NodeProblem(n, cfg), UsedCount(n, cfg))
    ensures NodeEnough(n, cfg) <==> RegAlloc.Enough(NodeProblem(n, cfg), UsedCount(n, cfg))
  {
    hide RegAlloc.Safe; hide RegAlloc.Enough; hide UsedCount;
  }

  lemma SameCode(n: Mlmi, cfg: Config)
    ensures Allocator.SomeInput(NodeProblem(n, cfg)).instrs == n.instrs && NodeProblem(n, cfg).instrs == n.instrs
    ensures var q := Allocator.SomeInput(NodeProblem(n, cfg)); q.outputs == n.outputs && q.k == cfg.r && q.lout == cfg.lout
    ensures Allocator.SomeInput(NodeProblem(n, cfg)).inputs == if n.inputs == [] then [0] else n.inputs
  {
  }

  lemma MakeLowers(n: Mlmi, cfg: Config, mi: Llmi, run: seq<RegAlloc.State>)
    requires var q, u := Allocator.SomeInput(NodeProblem(n, cfg)), UsedCount(n, cfg);
      && q.lout <= q.k && RegAlloc.Regular(q, u) && Lowering.Complete(q, u, run) && |run| == |n.instrs| + 1
      && mi == Llmi(Lowering.LowerAll(run[|n.instrs|].regs, n.instrs), q.inputs, n.outputs)
    ensures Lowers(n, cfg, mi)
  {
    hide RegAlloc.Regular; hide Lowering.Complete; hide Lowering.LowerAll; hide UsedCount; hide Allocator.SomeInput; hide NodeProblem;
    assert LoweredBy(n, cfg, mi, run);
  }

  // ----- all nodes -----

  ghost predicate AllFit(g: Graph, cfg: Config) {
    forall n :: n in g.nodes ==> n in g.mlmi && NodeFits(g.mlmi[n], cfg)
  }

  ghost predicate IsLowered(g: Graph, order: seq<nat>, cfg: Config, p: Program) {
    && |p.instrs| == |order| && p.outputs == g.progOutputs
    && forall i :: 0 <= i < |order| ==> order[i] in g.mlmi && Lowers(g.mlmi[order[i]], cfg, p.instrs[i])
  }

  ghost predicate AllSafe(g: Graph, cfg: Config) {
    forall n :: n in g.nodes && n in g.mlmi ==> NodeSafe(g.mlmi[n], cfg)
  }

  ghost predicate AllEnough(g: Graph, cfg: Config)
    requires cfg.lout <= cfg.r
  {
    forall n :: n in g.nodes && n in g.mlmi ==> NodeEnough(g.mlmi[n], cfg)
  }

  /** `to_LLIR` over an order that was found: each node in turn. */
  method LowerAllNodes(g: Graph, order: seq<nat>, inputs: seq<nat>, memoryCount: nat, cfg: Config) returns (r: Option<Program>)
    requires NodesOk(g) && IsOrder(g, order) && AllFit(g, cfg) && cfg.lout <= cfg.r
    ensures r.Some? ==> IsLowered(g, order, cfg, r.value) && r.value.inputs == inputs && r.value.memoryCount == memoryCount
    ensures AllSafe(g, cfg) ==> (r.Some? <==> AllEnough(g, cfg))
  {
    hide *;
    OrderIs(g, order);
    AllFitKnown(g, cfg);
    var instrs: seq<Llmi> := [];
    for i := 0 to |order|
      invariant |instrs| == i && forall j :: 0 <= j < i ==> order[j] in g.mlmi && Lowers(g.mlmi[order[j]], cfg, instrs[j])
      invariant AllSafe(g, cfg) ==> forall j :: 0 <= j < i ==> order[j] in g.mlmi && NodeEnough(g.mlmi[order[j]], cfg)
    {
      var mi := LowerNode(g.mlmi[order[i]], cfg);
      if AllSafe(g, cfg) { SafeAt(g, cfg, order[i]); }
      if mi.None? {
        if AllEnough(g, cfg) { EnoughAt(g, cfg, order[i]); }
        return None;
      }
      instrs := instrs + [mi.value];
    }
    r := Some(Program(instrs, inputs, g.progOutputs, memoryCount));
    MakeLowered(g, order, cfg, r.value);
    if AllSafe(g, cfg) { MakeEnough(g, order, cfg); }
  }

  lemma AllFitKnown(g: Graph, cfg: Config)
    requires AllFit(g, cfg)
    ensures forall n :: n in g.nodes ==> n in g.mlmi && NodeFits(g.mlmi[n], cfg)
  {
    hide NodeFits;
  }

  lemma SafeAt(g: Graph, cfg: Config, n: nat)
    requires AllSafe(g, cfg) && n in g.nodes && n in g.mlmi
    ensures NodeSafe(g.mlmi[n], cfg)
  {
    hide NodeSafe;
  }

  lemma EnoughAt(g: Graph, cfg: Config, n: nat)
    requires cfg.lout <= cfg.r && AllEnough(g, cfg) && n in g.nodes && n in g.mlmi
    ensures NodeEnough(g.mlmi[n], cfg)
  {
    hide NodeEnough;
  }

  lemma MakeEnough(g: Graph, order: seq<nat>, cfg: Config)
    requires cfg.lout <= cfg.r && (forall n :: n in g.nodes ==> n in order) && forall j :: 0 <= j < |order| ==> order[j] in g.mlmi && NodeEnough(g.mlmi[order[j]], cfg)
    ensures AllEnough(g, cfg)
  {
    hide NodeEnough;
    forall n | n in g.nodes && n in g.mlmi ensures NodeEnough(g.mlmi[n], cfg) { var j :| 0 <= j < |order| && order[j] == n; }
  }

  lemma MakeLowered(g: Graph, order: seq<nat>, cfg: Config, p: Program)
    requires |p.instrs| == |order| && p.outputs == g.progOutputs && forall i :: 0 <= i < |order| ==> order[i] in g.mlmi && Lowers(g.mlmi[order[i]], cfg, p.instrs[i])
    ensures IsLowered(g, order, cfg, p)
  {
    hide Lowers;
  }
}
