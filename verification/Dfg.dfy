/** The dataflow graph of compiler/src/DFG.py: nodes are multi-instructions, known by a number that stands for
    the object's identity; `Integral` is what `check_dfg_integrity` looks for, made exact. */
module Dfg {
  import opened IR
  import opened Graphs

  datatype Mlmi = Mlmi(instrs: seq<Instr>, inputs: seq<nat>, outputs: seq<nat>)

  datatype Graph = Graph(
    nodes: set<nat>, mlmi: map<nat, Mlmi>, fwd: Edges, back: map<nat, nat>, progInputs: set<nat>, progOutputs: seq<nat>)

  /** `l_in`, `l_out` and `s`: how many inputs, outputs and instructions a multi-instruction may have. */
  datatype Limits = Limits(lin: nat, lout: nat, s: nat)

  // ----- one node -----

  predicate Assigns(instrs: seq<Instr>, m: nat) {
    exists i :: 0 <= i < |instrs| && instrs[i].dst == m
  }

  predicate ReadsFrom(instrs: seq<Instr>, m: nat) {
    exists i :: 0 <= i < |instrs| && instrs[i].Reads(m)
  }

  /** `get_used`: read and not assigned. */
  predicate Uses(instrs: seq<Instr>, m: nat) {
    ReadsFrom(instrs, m) && !Assigns(instrs, m)
  }

  ghost predicate Scheduled(instrs: seq<Instr>, defined: set<nat>) {
    forall i, m :: 0 <= i < |instrs| && instrs[i].Reads(m) ==> m in defined || Assigns(instrs[..i], m)
  }

  ghost predicate SingleAssign(instrs: seq<Instr>) {
    forall i, j :: 0 <= i < j < |instrs| ==> instrs[i].dst != instrs[j].dst
  }

  function ToSet(s: seq<nat>): (r: set<nat>)
    ensures forall m :: m in r <==> m in s
  {
    set m | m in s
  }

  predicate NoRepeat(s: seq<nat>) {
    forall i, j :: 0 <= i < j < |s| ==> s[i] != s[j]
  }

  /** Definitions come before uses, inputs are not assigned, and outputs are. */
  ghost predicate NodeOk(n: Mlmi) {
    && SingleAssign(n.instrs) && Scheduled(n.instrs, ToSet(n.inputs))
    && (forall m :: m in n.inputs ==> !Assigns(n.instrs, m))
    && (forall m :: m in n.outputs ==> Assigns(n.instrs, m))
  }

  // ----- the graph -----

  predicate Shares(a: Mlmi, b: Mlmi) {
    exists v :: v in a.outputs && v in b.inputs
  }

  ghost predicate NodesOk(g: Graph) {
    forall n :: n in g.nodes ==> n in g.mlmi && NodeOk(g.mlmi[n])
  }

  /** Backward edges are exactly the assignments, and no program input is assigned. */
  ghost predicate BackOk(g: Graph)
    requires NodesOk(g)
  {
    && (forall m :: m in g.back ==> g.back[m] in g.nodes && Assigns(g.mlmi[g.back[m]].instrs, m) && m !in g.progInputs)
    && (forall n, m :: n in g.nodes && Assigns(g.mlmi[n].instrs, m) ==> m in g.back && g.back[m] == n)
  }

  /** A cell is a program input or an output of the node that assigns it. */
  ghost predicate Available(g: Graph, m: nat)
    requires NodesOk(g) && BackOk(g)
  {
    m in g.progInputs || (m in g.back && m in g.mlmi[g.back[m]].outputs)
  }

  /** Forward edges are exactly the shared variables. */
  ghost predicate FwdOk(g: Graph)
    requires NodesOk(g)
  {
    && (forall a :: a in g.fwd ==> a in g.nodes)
    && (forall a, b :: a in g.nodes ==> (b in Succ(g.fwd, a) <==> b in g.nodes && Shares(g.mlmi[a], g.mlmi[b])))
  }

  ghost predicate AvailableOk(g: Graph)
    requires NodesOk(g) && BackOk(g)
  {
    && (forall n, m :: n in g.nodes && m in g.mlmi[n].inputs ==> Available(g, m))
    && (forall m :: m in g.progOutputs ==> Available(g, m))
  }

  /** Every input of a node is read by it. */
  ghost predicate Exact(g: Graph)
    requires NodesOk(g)
  {
    forall n, m :: n in g.nodes && m in g.mlmi[n].inputs ==> ReadsFrom(g.mlmi[n].instrs, m)
  }

  ghost predicate Integral(g: Graph) {
    NodesOk(g) && BackOk(g) && FwdOk(g) && AvailableOk(g)
  }

  /** The node returns everything it computes. */
  ghost predicate Returns(n: Mlmi) {
    forall i :: 0 <= i < |n.instrs| ==> n.instrs[i].dst in n.outputs
  }

  ghost predicate Returning(g: Graph) {
    forall n :: n in g.nodes && n in g.mlmi ==> Returns(g.mlmi[n])
  }

  ghost predicate NodeAssigns(n: Mlmi, cells: set<nat>) {
    forall i :: 0 <= i < |n.instrs| ==> n.instrs[i].dst in cells
  }

  /** Only these cells are assigned. */
  ghost predicate AssignsOnly(g: Graph, cells: set<nat>) {
    forall n :: n in g.nodes && n in g.mlmi ==> NodeAssigns(g.mlmi[n], cells)
  }

  /** Program outputs are returned by the node that assigns them. */
  lemma OutputsReturned(g: Graph)
    requires Integral(g) && AssignsOnly(g, ToSet(g.progOutputs))
    ensures Returning(g)
  {
    hide NodeOk; hide FwdOk;
    forall n, i | n in g.nodes && n in g.mlmi && 0 <= i < |g.mlmi[n].instrs| ensures g.mlmi[n].instrs[i].dst in g.mlmi[n].outputs {
      assert NodeAssigns(g.mlmi[n], ToSet(g.progOutputs));
      var d := g.mlmi[n].instrs[i].dst;
      assert Assigns(g.mlmi[n].instrs, d) && d in g.progOutputs;
      assert Available(g, d);
    }
    forall n | n in g.nodes && n in g.mlmi ensures Returns(g.mlmi[n]) { }
  }

  lemma ReturningChanged(g: Graph, h: Graph, n: nat, mi: Mlmi)
    requires h.nodes <= g.nodes + {n} && h.mlmi == g.mlmi[n := mi] && (Returns(mi) || (n in g.nodes && n in g.mlmi && (Returns(g.mlmi[n]) ==> Returns(mi))))
    ensures Returning(g) ==> Returning(h)
  {
    hide Returns;
  }

  // ----- cells in use -----

  ghost predicate InstrBelow(i: Instr, k: nat) {
    i.dst < k && forall m: nat :: i.Reads(m) ==> m < k
  }

  ghost predicate NodeBelow(n: Mlmi, k: nat) {
    && (forall i :: 0 <= i < |n.instrs| ==> InstrBelow(n.instrs[i], k))
    && (forall m :: m in n.inputs ==> m < k) && (forall m :: m in n.outputs ==> m < k)
  }

  /** Every cell of the graph is below `k`. */
  ghost predicate Below(g: Graph, k: nat)
    requires NodesOk(g)
  {
    && (forall n :: n in g.nodes ==> NodeBelow(g.mlmi[n], k)) && (forall m :: m in g.back ==> m < k)
    && (forall m :: m in g.progInputs ==> m < k) && (forall m :: m in g.progOutputs ==> m < k)
  }

  // ----- meaning -----

  /** `val` gives every assigned cell the value its instruction computes. */
  ghost predicate Models(ops: Ops, g: Graph, val: Env)
    requires NodesOk(g)
  {
    forall n, i :: n in g.nodes && 0 <= i < |g.mlmi[n].instrs| ==>
      val(g.mlmi[n].instrs[i].dst) == Compute(ops, g.mlmi[n].instrs[i], val)
  }

  /** A multi-instruction changes its outputs only. */
  function RunNode(ops: Ops, n: Mlmi, env: Env): Env {
    (x: nat) => if x in n.outputs then Run(ops, n.instrs, env)(x) else env(x)
  }

  ghost predicate Computes(ops: Ops, instrs: seq<Instr>, val: Env) {
    forall i :: 0 <= i < |instrs| ==> val(instrs[i].dst) == Compute(ops, instrs[i], val)
  }

  /** Running a well-ordered sequence from the right inputs gives every assigned cell its value. */
  lemma {:induction false} RunGivesValues(ops: Ops, instrs: seq<Instr>, inputs: set<nat>, env: Env, val: Env, k: nat, m: nat)
    requires SingleAssign(instrs) && Scheduled(instrs, inputs) && Computes(ops, instrs, val)
    requires (forall x :: x in inputs ==> env(x) == val(x) && !Assigns(instrs, x)) && k <= |instrs|
    requires m in inputs || Assigns(instrs[..k], m)
    ensures Run(ops, instrs[..k], env)(m) == val(m)
    decreases k
  {
    hide Compute;
    if k > 0 {
      RunStep(ops, instrs, k - 1, env);
      var before := Run(ops, instrs[..k - 1], env);
      var i := instrs[k - 1];
      forall x | i.Reads(x) ensures before(x) == val(x) {
        RunGivesValues(ops, instrs, inputs, env, val, k - 1, x);
      }
      ComputeReads(ops, i, before, val);
      if m != i.dst {
        if Assigns(instrs[..k], m) { AssignsEarlier(instrs, k, m); }
        RunGivesValues(ops, instrs, inputs, env, val, k - 1, m);
      }
    }
  }

  lemma AssignsEarlier(instrs: seq<Instr>, k: nat, m: nat)
    requires 0 < k <= |instrs| && Assigns(instrs[..k], m) && instrs[k - 1].dst != m
    ensures Assigns(instrs[..k - 1], m)
  {
    var i :| 0 <= i < k && instrs[..k][i].dst == m;
    assert instrs[..k - 1][i].dst == m;
  }

  /** Running one node of a graph from the right inputs gives its outputs their values. */
  lemma RunNodeGivesValues(ops: Ops, g: Graph, n: nat, env: Env, val: Env, m: nat)
    requires NodesOk(g) && Models(ops, g, val) && n in g.nodes && m in g.mlmi[n].outputs
    requires forall x :: x in g.mlmi[n].inputs ==> env(x) == val(x)
    ensures RunNode(ops, g.mlmi[n], env)(m) == val(m)
  {
    hide Compute;
    var instrs := g.mlmi[n].instrs;
    assert instrs[..|instrs|] == instrs;
    assert NodeOk(g.mlmi[n]);
    RunGivesValues(ops, instrs, ToSet(g.mlmi[n].inputs), env, val, |instrs|, m);
  }

  // ----- orders -----

  ghost predicate Before(g: Graph, order: seq<nat>, i: nat, m: nat)
    requires NodesOk(g) && i <= |order| && forall k :: 0 <= k < |order| ==> order[k] in g.nodes
  {
    m in g.progInputs || exists j :: 0 <= j < i && m in g.mlmi[order[j]].outputs
  }

  /** Every node once, after the nodes whose outputs it reads. */
  ghost predicate IsOrder(g: Graph, order: seq<nat>)
    requires NodesOk(g)
  {
    && (forall k :: 0 <= k < |order| ==> order[k] in g.nodes)
    && (forall i, j :: 0 <= i < j < |order| ==> order[i] != order[j])
    && (forall n :: n in g.nodes ==> n in order)
    && (forall i, m :: 0 <= i < |order| && m in g.mlmi[order[i]].inputs ==> Before(g, order, i, m))
  }

  function RunList(ops: Ops, g: Graph, order: seq<nat>, env: Env): Env
    requires forall k :: 0 <= k < |order| ==> order[k] in g.mlmi
  {
    if order == [] then env
    else RunNode(ops, g.mlmi[order[|order| - 1]], RunList(ops, g, order[..|order| - 1], env))
  }

  /** Running the nodes in this order leaves `w` in cell `o`. */
  ghost predicate ListGives(ops: Ops, g: Graph, order: seq<nat>, env: Env, o: nat, w: Word) {
    (forall k :: 0 <= k < |order| ==> order[k] in g.mlmi) && RunList(ops, g, order, env)(o) == w
  }

  lemma MakeListGives(ops: Ops, g: Graph, order: seq<nat>, env: Env, o: nat)
    requires forall k :: 0 <= k < |order| ==> order[k] in g.mlmi
    ensures ListGives(ops, g, order, env, o, RunList(ops, g, order, env)(o))
  {
    hide RunList;
  }

  /** After `i` nodes of an order, program inputs and the outputs so far have their values. */
  lemma {:induction false} OrderGivesValues(ops: Ops, g: Graph, order: seq<nat>, env: Env, val: Env, i: nat, m: nat)
    requires Integral(g) && Models(ops, g, val) && IsOrder(g, order) && i <= |order|
    requires (forall x :: x in g.progInputs ==> env(x) == val(x)) && Before(g, order, i, m)
    ensures RunList(ops, g, order[..i], env)(m) == val(m)
    decreases i
  {
    hide *;
    IntegralParts(g);
    OrderIs(g, order);
    RunListStep(ops, g, order, env, i);
    if i > 0 {
      var n := order[i - 1];
      var before := RunList(ops, g, order[..i - 1], env);
      forall x | x in g.mlmi[n].inputs ensures before(x) == val(x) {
        InputBefore(g, order, i - 1, x);
        OrderGivesValues(ops, g, order, env, val, i - 1, x);
      }
      if m in g.mlmi[n].outputs {
        RunNodeGivesValues(ops, g, n, before, val, m);
      } else {
        BeforeEarlier(g, order, i, m);
        RunNodeKeeps(ops, g.mlmi[n], before, m);
        OrderGivesValues(ops, g, order, env, val, i - 1, m);
      }
    } else {
      BeforeFirst(g, order, m);
    }
  }

  lemma OrderIs(g: Graph, order: seq<nat>)
    requires NodesOk(g) && IsOrder(g, order)
    ensures (forall k :: 0 <= k < |order| ==> order[k] in g.nodes && order[k] in g.mlmi) && forall n :: n in g.nodes ==> n in order
  {
    hide NodeOk; hide Before;
  }

  lemma RunListStep(ops: Ops, g: Graph, order: seq<nat>, env: Env, i: nat)
    requires i <= |order| && forall k :: 0 <= k < |order| ==> order[k] in g.mlmi
    ensures i == 0 ==> RunList(ops, g, order[..i], env) == env
    ensures i > 0 ==> RunList(ops, g, order[..i], env) == RunNode(ops, g.mlmi[order[i - 1]], RunList(ops, g, order[..i - 1], env))
  {
    hide RunNode;
    if i > 0 { assert order[..i][..i - 1] == order[..i - 1]; }
  }

  lemma RunNodeKeeps(ops: Ops, n: Mlmi, env: Env, m: nat)
    requires m !in n.outputs
    ensures RunNode(ops, n, env)(m) == env(m)
  {
    hide Run;
  }

  lemma InputBefore(g: Graph, order: seq<nat>, i: nat, m: nat)
    requires NodesOk(g) && IsOrder(g, order) && i < |order| && order[i] in g.mlmi && m in g.mlmi[order[i]].inputs
    ensures Before(g, order, i, m)
  {
    hide NodeOk; hide Before;
  }

  lemma BeforeEarlier(g: Graph, order: seq<nat>, i: nat, m: nat)
    requires NodesOk(g) && 0 < i <= |order| && (forall k :: 0 <= k < |order| ==> order[k] in g.nodes) && Before(g, order, i, m) && m !in g.mlmi[order[i - 1]].outputs
    ensures Before(g, order, i - 1, m)
  {
    hide NodeOk;
  }

  lemma BeforeFirst(g: Graph, order: seq<nat>, m: nat)
    requires NodesOk(g) && (forall k :: 0 <= k < |order| ==> order[k] in g.nodes) && Before(g, order, 0, m)
    ensures m in g.progInputs
  {
    hide NodeOk;
  }

  /** Running the nodes in any order computes the program's outputs. */
  lemma OrderComputesOutputs(ops: Ops, g: Graph, order: seq<nat>, env: Env, val: Env, o: nat)
    requires Integral(g) && Models(ops, g, val) && IsOrder(g, order) && o in g.progOutputs
    requires forall x :: x in g.progInputs ==> env(x) == val(x)
    ensures RunList(ops, g, order, env)(o) == val(o)
  {
    hide Models; hide FwdOk; hide NodeOk; hide RunList; hide Assigns;
    assert order[..|order|] == order;
    assert Available(g, o);
    if o !in g.progInputs {
      var n := g.back[o];
      assert n in order;
      var j :| 0 <= j < |order| && order[j] == n;
    }
    OrderGivesValues(ops, g, order, env, val, |order|, o);
  }

  /** Any two orders of the same graph compute the same outputs. */
  lemma OrdersAgree(ops: Ops, g: Graph, a: seq<nat>, b: seq<nat>, env: Env, val: Env, o: nat)
    requires Integral(g) && Models(ops, g, val) && IsOrder(g, a) && IsOrder(g, b) && o in g.progOutputs
    requires forall x :: x in g.progInputs ==> env(x) == val(x)
    ensures RunList(ops, g, a, env)(o) == RunList(ops, g, b, env)(o)
  {
    hide *;
    IntegralParts(g);
    OrderComputesOutputs(ops, g, a, env, val, o);
    OrderComputesOutputs(ops, g, b, env, val, o);
  }

  lemma IntegralParts(g: Graph)
    requires Integral(g)
    ensures NodesOk(g) && BackOk(g) && FwdOk(g) && AvailableOk(g)
  {
    hide NodesOk; hide BackOk; hide FwdOk; hide AvailableOk;
  }
}
