/** From a program to an ordered list of multi-instructions: building the graph, clusterizing it
    (compiler/src/clusterization/basic_clusterizer.py) and emitting its nodes (compiler/src/DFG.py). */
module Midend {
  import opened IR
  import opened Dfg
  import opened DfgSchedule
  import opened DataflowGraph
  import opened BuildGraph
  import opened Clusterizer
  import opened ClusterLoops
  import Frontend

  lemma {:induction false} InputKept(ops: Ops, instrs: seq<Instr>, env: Env, k: nat, m: nat)
    requires !Assigns(instrs, m) && k <= |instrs|
    ensures Run(ops, instrs[..k], env)(m) == env(m)
  {
    hide Compute;
    if k > 0 {
      InputKept(ops, instrs, env, k - 1, m);
      RunStep(ops, instrs, k - 1, env);
      assert instrs[k - 1].dst != m;
    }
  }

  /** The nodes, executed in the emitted order, compute the program's outputs. */
  lemma ListComputes(ops: Ops, instrs: seq<Instr>, inputs: set<nat>, outputs: seq<nat>, h: Graph, order: seq<nat>, env: Env, o: nat)
    requires Flat(instrs, inputs, outputs) && h.progInputs == inputs && h.progOutputs == outputs && o in outputs
    requires NodesOk(h) && Models(ops, h, Run(ops, instrs, env)) && Integral(h) && IsOrder(h, order)
    ensures ListGives(ops, h, order, env, o, Run(ops, instrs, env)(o))
  {
    hide *;
    var val: Env := Run(ops, instrs, env);
    OrderIs(h, order);
    forall x | x in h.progInputs ensures env(x) == val(x) {
      InputUnassigned(instrs, inputs, outputs, x);
      InputKept(ops, instrs, env, |instrs|, x);
      assert instrs[..|instrs|] == instrs;
    }
    OrderComputesOutputs(ops, h, order, env, val, o);
    MakeListGives(ops, h, order, env, o);
  }

  lemma SameModel(ops: Ops, g: Graph, h: Graph, lim: Limits, val: Env)
    requires Keeps(g, h, lim) && NodesOk(g) && NodesOk(h) && Models(ops, g, val)
    ensures Models(ops, h, val) && h.progInputs == g.progInputs && h.progOutputs == g.progOutputs
  {
    hide Models; hide NodesOk; hide InLimits; hide OutputsNeeded;
  }

  lemma InputUnassigned(instrs: seq<Instr>, inputs: set<nat>, outputs: seq<nat>, x: nat)
    requires Flat(instrs, inputs, outputs) && x in inputs
    ensures !Assigns(instrs, x)
  {
    hide SingleAssign; hide Scheduled; hide Assigns;
  }

  /** The graph of a program, clusterized: the program's run is still a model, and no cell is new. */
  method BuildAndCluster(instrs: seq<Instr>, inputs: set<nat>, outputs: seq<nat>, lim: Limits, fits: Fits, simple: bool, fast: bool)
    returns (dfg: Dataflow)
    requires Flat(instrs, inputs, outputs)
    ensures fresh(dfg) && dfg.Valid() && NodesOk(dfg.View()) && dfg.progInputs == inputs && dfg.progOutputs == outputs
    ensures forall ops: Ops, env: Env :: Models(ops, dfg.View(), Run(ops, instrs, env))
    ensures DistinctOutputs(dfg.View()) && (forall k: nat :: AllBelow(instrs, inputs, k) ==> Below(dfg.View(), k)) && (AllNeeded(instrs, outputs) ==> OutputsNeeded(dfg.View()))
    ensures (forall i :: 0 <= i < |instrs| ==> instrs[i].dst in outputs) ==> Returning(dfg.View())
    ensures ClusteredFrom(instrs, inputs, outputs, dfg.View(), lim, fits, fast)
  {
    hide *;
    dfg := Build(instrs, inputs, outputs);
    dfg.ViewIs();
    ghost var g := dfg.View();
    BuiltDistinct(g, instrs);
    dfg.ValidParts();
    IntegralParts(g);
    forall k: nat | AllBelow(instrs, inputs, k) ensures Below(g, k) { BuiltBelow(g, instrs, inputs, outputs, k); }
    if AllNeeded(instrs, outputs) { BuiltNeeded(g, instrs, outputs); }
    if forall i :: 0 <= i < |instrs| ==> instrs[i].dst in outputs { BuiltAssigns(g, instrs, outputs); }
    ghost var one, parents := Clusterize(dfg, lim, fits, simple, fast);
    dfg.ValidParts();
    dfg.ViewIs();
    IntegralParts(dfg.View());
    KeepsCells(g, dfg.View(), lim);
    MakeClustered(g, instrs, inputs, outputs, dfg.View(), lim, fits, fast);
    if forall i :: 0 <= i < |instrs| ==> instrs[i].dst in outputs { OutputsReturned(dfg.View()); }
    forall ops: Ops, env: Env ensures Models(ops, dfg.View(), Run(ops, instrs, env)) { SameModel(ops, g, dfg.View(), lim, Run(ops, instrs, env)); }
  }

  /** One node per instruction, with the edges that follow from the code. */
  ghost predicate IsBuilt(g: Graph, instrs: seq<Instr>, inputs: set<nat>, outputs: seq<nat>) {
    && Integral(g) && g.progInputs == inputs && g.progOutputs == outputs && (forall n: nat :: n in g.nodes <==> n < |instrs|)
    && forall n: nat :: n < |instrs| ==> n in g.mlmi && g.mlmi[n] == FromHli(instrs[n])
  }

  ghost predicate ClusteredBy(g: Graph, instrs: seq<Instr>, inputs: set<nat>, outputs: seq<nat>, h: Graph, lim: Limits, fits: Fits, fast: bool) {
    IsBuilt(g, instrs, inputs, outputs) && Progress(g, h, Unmergeable(g, lim, fits)) && (!fast ==> AllApart(h, lim, fits))
  }

  /** The graph has fewer nodes than the program has instructions, unless none of them could be merged; without `fast` no two
      siblings are worth merging. */
  ghost predicate ClusteredFrom(instrs: seq<Instr>, inputs: set<nat>, outputs: seq<nat>, h: Graph, lim: Limits, fits: Fits, fast: bool) {
    exists g :: ClusteredBy(g, instrs, inputs, outputs, h, lim, fits, fast)
  }

  lemma MakeClustered(g: Graph, instrs: seq<Instr>, inputs: set<nat>, outputs: seq<nat>, h: Graph, lim: Limits, fits: Fits, fast: bool)
    requires Integral(g) && g.progInputs == inputs && g.progOutputs == outputs && (forall n: nat :: n in g.nodes <==> n < |instrs|)
    requires forall n :: n in g.nodes ==> n in g.mlmi && g.mlmi[n] == FromHli(instrs[n])
    requires Progress(g, h, Unmergeable(g, lim, fits)) && (!fast ==> AllApart(h, lim, fits))
    ensures ClusteredFrom(instrs, inputs, outputs, h, lim, fits, fast)
  {
    hide Integral; hide Progress; hide Unmergeable; hide AllApart;
    assert ClusteredBy(g, instrs, inputs, outputs, h, lim, fits, fast);
  }

  ghost predicate AllBelow(instrs: seq<Instr>, inputs: set<nat>, k: nat) {
    (forall m :: m in inputs ==> m < k) && forall i :: 0 <= i < |instrs| ==> instrs[i].dst < k
  }

  /** No dead instruction: each destination is an output or read by another instruction. */
  ghost predicate AllNeeded(instrs: seq<Instr>, outputs: seq<nat>) {
    forall i :: 0 <= i < |instrs| ==> instrs[i].dst in outputs || exists j :: 0 <= j < |instrs| && instrs[j].Reads(instrs[i].dst)
  }

  lemma PassesNeeded(q: Frontend.Program)
    requires Frontend.NoDeadCode(q)
    ensures AllNeeded(q.instrs, q.outputs)
  {
    hide Instr.Reads;
  }

  lemma BuiltNeeded(g: Graph, instrs: seq<Instr>, outputs: seq<nat>)
    requires AllNeeded(instrs, outputs) && NodesOk(g) && g.progOutputs == outputs && (forall n: nat :: n in g.nodes <==> n < |instrs|)
    requires forall n :: n in g.nodes ==> n < |instrs| && n in g.mlmi && g.mlmi[n] == FromHli(instrs[n])
    ensures OutputsNeeded(g)
  {
    hide NodeOk; hide Instr.Reads;
    forall n, o | n in g.nodes && o in g.mlmi[n].outputs && o !in g.progOutputs ensures ReadSomewhere(g, o) {
      assert o == instrs[n].dst;
      var j :| 0 <= j < |instrs| && instrs[j].Reads(o);
      assert j in g.nodes && o in g.mlmi[j].inputs;
    }
  }

  lemma BuiltAssigns(g: Graph, instrs: seq<Instr>, outputs: seq<nat>)
    requires (forall i :: 0 <= i < |instrs| ==> instrs[i].dst in outputs) && forall n :: n in g.nodes ==> n < |instrs| && n in g.mlmi && g.mlmi[n] == FromHli(instrs[n])
    ensures AssignsOnly(g, ToSet(outputs))
  {
    hide Instr.Reads;
    forall n | n in g.nodes && n in g.mlmi ensures NodeAssigns(g.mlmi[n], ToSet(outputs)) { }
  }

  lemma BuiltDistinct(g: Graph, instrs: seq<Instr>)
    requires forall n :: n in g.nodes ==> n < |instrs| && n in g.mlmi && g.mlmi[n] == FromHli(instrs[n])
    ensures DistinctOutputs(g)
  {
  }

  lemma KeepsCells(g: Graph, h: Graph, lim: Limits)
    requires Keeps(g, h, lim) && NodesOk(g) && NodesOk(h)
    ensures (DistinctOutputs(g) ==> DistinctOutputs(h)) && (OutputsNeeded(g) ==> OutputsNeeded(h)) && (forall cells: set<nat> :: AssignsOnly(g, cells) ==> AssignsOnly(h, cells)) && (forall k: nat :: Below(g, k) ==> Below(h, k)) && h.progInputs == g.progInputs && h.progOutputs == g.progOutputs
  {
    hide Models; hide NodesOk; hide InLimits; hide OutputsNeeded; hide Below; hide DistinctOutputs; hide AssignsOnly;
  }

  lemma BuiltBelow(g: Graph, instrs: seq<Instr>, inputs: set<nat>, outputs: seq<nat>, k: nat)
    requires Flat(instrs, inputs, outputs) && AllBelow(instrs, inputs, k) && NodesOk(g) && BackOk(g) && g.progInputs == inputs && g.progOutputs == outputs
    requires forall n :: n in g.nodes ==> n < |instrs| && n in g.mlmi && g.mlmi[n] == FromHli(instrs[n])
    ensures Below(g, k)
  {
    hide NodeOk; hide SingleAssign; hide Instr.Reads;
    forall m: nat, i | 0 <= i <= |instrs| && Assigns(instrs[..i], m) ensures m < k { var j :| 0 <= j < i && instrs[..i][j].dst == m; }
    assert instrs[..|instrs|] == instrs;
    hide Assigns;
    forall n | n in g.nodes ensures NodeBelow(g.mlmi[n], k) { ReadsBelow(instrs, inputs, k, n); }
    forall m | m in g.back ensures m < k {
      var n := g.back[m];
      AssignedIsDst(instrs[n], m);
    }
  }

  lemma AssignedIsDst(i: Instr, m: nat)
    requires Assigns(FromHli(i).instrs, m)
    ensures m == i.dst
  {
  }

  lemma ReadsBelow(instrs: seq<Instr>, inputs: set<nat>, k: nat, n: nat)
    requires Scheduled(instrs, inputs) && AllBelow(instrs, inputs, k) && n < |instrs| && forall m: nat, i :: 0 <= i <= |instrs| && Assigns(instrs[..i], m) ==> m < k
    ensures NodeBelow(FromHli(instrs[n]), k)
  {
    hide Instr.Reads; hide Assigns;
    forall m: nat | instrs[n].Reads(m) ensures m < k { assert m in inputs || Assigns(instrs[..n], m); }
  }

  /** Compiling the middle: whatever is merged and popped, an order is found, and executing the multi-instructions
      in that order gives every program output the value of the original program. */
  method Compile(instrs: seq<Instr>, inputs: set<nat>, outputs: seq<nat>, lim: Limits, fits: Fits, simple: bool, fast: bool)
    returns (dfg: Dataflow, order: seq<nat>)
    requires Flat(instrs, inputs, outputs)
    ensures fresh(dfg) && dfg.Valid() && NodesOk(dfg.View()) && IsOrder(dfg.View(), order) && (AllNeeded(instrs, outputs) ==> OutputsNeeded(dfg.View()))
    ensures ClusteredFrom(instrs, inputs, outputs, dfg.View(), lim, fits, fast)
    ensures forall ops: Ops, env: Env, o :: o in outputs ==>
      ListGives(ops, dfg.View(), order, env, o, Run(ops, instrs, env)(o))
  {
    hide *;
    dfg := BuildAndCluster(instrs, inputs, outputs, lim, fits, simple, fast);
    dfg.ValidParts();
    dfg.ViewIs();
    IntegralParts(dfg.View());
    var r := ToLlir(Graph(dfg.nodes, dfg.mlmi, dfg.forwardEdges, dfg.backwardEdges, dfg.progInputs, dfg.progOutputs));
    order := r.value;
    forall ops: Ops, env: Env, o | o in outputs
      ensures ListGives(ops, dfg.View(), order, env, o, Run(ops, instrs, env)(o))
    {
      ListComputes(ops, instrs, inputs, outputs, dfg.View(), order, env, o);
    }
  }

  // ----- after the frontend -----

  /** What the frontend's passes produce is what the graph is built from. */
  lemma PassesGiveFlat(q: Frontend.Program)
    requires Frontend.SingleAssignment(q) && Frontend.DefinedBeforeUse(q) && Frontend.OutputsExist(q)
    ensures Flat(q.instrs, ToSet(q.inputs), q.outputs)
  {
    hide Instr.Reads;
    forall i, m | 0 <= i < |q.instrs| && q.instrs[i].Reads(m) && m !in q.inputs ensures Assigns(q.instrs[..i], m) {
      assert Frontend.Written(q.instrs, m, i);
      var j :| 0 <= j < i && q.instrs[j].dst == m;
      assert q.instrs[..i][j].dst == m;
    }
    forall o | o in q.outputs && o !in q.inputs ensures Assigns(q.instrs, o) {
      var k :| 0 <= k < |q.outputs| && q.outputs[k] == o;
      assert Frontend.Written(q.instrs, q.outputs[k], |q.instrs|);
    }
  }

  /** From the frontend's program to ordered multi-instructions: the outputs are those of the program, for every
      opcode interpretation, every initial memory, and every choice made on the way. */
  method CompileProgram(p: Frontend.Program, lim: Limits, fits: Fits, simple: bool, fast: bool)
    returns (q: Frontend.Program, dfg: Dataflow, order: seq<nat>)
    requires Frontend.Below(p) && Frontend.DefinedBeforeUse(p) && Frontend.OutputsExist(p)
    ensures fresh(dfg) && dfg.Valid() && NodesOk(dfg.View()) && IsOrder(dfg.View(), order) && |q.outputs| == |p.outputs| && OutputsNeeded(dfg.View())
    ensures ClusteredFrom(q.instrs, ToSet(q.inputs), q.outputs, dfg.View(), lim, fits, fast) && Frontend.SameOutputs(p, q) && Frontend.NoDeadCode(q)
    ensures forall ops: Ops, env: Env, k :: 0 <= k < |p.outputs| ==>
      ListGives(ops, dfg.View(), order, env, q.outputs[k], Run(ops, p.instrs, env)(p.outputs[k]))
  {
    hide *;
    q := Frontend.Passes(p);
    PassesGiveFlat(q);
    PassesNeeded(q);
    dfg, order := Compile(q.instrs, ToSet(q.inputs), q.outputs, lim, fits, simple, fast);
    SameSize(p, q);
    forall ops: Ops, env: Env, k | 0 <= k < |p.outputs|
      ensures ListGives(ops, dfg.View(), order, env, q.outputs[k], Run(ops, p.instrs, env)(p.outputs[k]))
    {
      assert q.outputs[k] in q.outputs;
      SameAt(p, q, ops, env, k);
    }
  }

  lemma SameSize(p: Frontend.Program, q: Frontend.Program)
    requires Frontend.SameOutputs(p, q)
    ensures |p.outputs| == |q.outputs|
  {
  }

  lemma SameAt(p: Frontend.Program, q: Frontend.Program, ops: Ops, env: Env, k: nat)
    requires Frontend.SameOutputs(p, q) && k < |p.outputs| && |p.outputs| == |q.outputs|
    ensures Run(ops, q.instrs, env)(q.outputs[k]) == Run(ops, p.instrs, env)(p.outputs[k])
  {
    hide Run;
  }
}
