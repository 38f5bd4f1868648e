/** `build_graph` of compiler/src/DFG.py on one multi-instruction per instruction (`MLMI.FromHLI` of
    compiler/src/IR.py), and the meaning of the graph it starts from. */
module BuildGraph {
  import opened IR
  import opened Graphs
  import opened Dfg
  import opened DataflowGraph
  import opened DfgMerge

  // ----- a single-assignment program -----

  /** Single assignment, definitions before uses, inputs not assigned, and outputs that exist. */
  ghost predicate Flat(instrs: seq<Instr>, inputs: set<nat>, outputs: seq<nat>) {
    && SingleAssign(instrs) && Scheduled(instrs, inputs)
    && (forall m :: m in inputs ==> !Assigns(instrs, m))
    && (forall o :: o in outputs ==> o in inputs || Assigns(instrs, o))
  }

  function SrcList(s: Src): (r: seq<nat>)
    ensures forall m :: m in r <==> s == Loc(m)
  {
    if s.Loc? then [s.m] else []
  }

  function FromHli(i: Instr): (n: Mlmi)
    ensures n.instrs == [i] && n.outputs == [i.dst] && forall m :: m in n.inputs <==> i.Reads(m)
  {
    Mlmi([i], SrcList(i.src1) + SrcList(i.src2) + SrcList(i.src3), [i.dst])
  }

  // ----- its run is a model -----

  /** A cell that has its value when instruction `i` is reached keeps it. */
  lemma {:induction false} KeepsValue(ops: Ops, instrs: seq<Instr>, inputs: set<nat>, env: Env, i: nat, k: nat, m: nat)
    requires SingleAssign(instrs) && (forall x :: x in inputs ==> !Assigns(instrs, x)) && i <= k <= |instrs|
    requires m in inputs || Assigns(instrs[..i], m)
    ensures Run(ops, instrs[..k], env)(m) == Run(ops, instrs[..i], env)(m)
    decreases k
  {
    hide Compute;
    if i < k {
      KeepsValue(ops, instrs, inputs, env, i, k - 1, m);
      RunStep(ops, instrs, k - 1, env);
      assert instrs[k - 1].dst != m by {
        if m in inputs {
          assert Assigns(instrs, instrs[k - 1].dst);
        } else {
          var j :| 0 <= j < i && instrs[..i][j].dst == m;
        }
      }
    }
  }

  /** What a single-assignment program leaves in memory satisfies each of its instructions. */
  lemma RunIsModel(ops: Ops, instrs: seq<Instr>, inputs: set<nat>, env: Env, i: nat)
    requires SingleAssign(instrs) && Scheduled(instrs, inputs) && (forall x :: x in inputs ==> !Assigns(instrs, x)) && i < |instrs|
    ensures Run(ops, instrs, env)(instrs[i].dst) == Compute(ops, instrs[i], Run(ops, instrs, env))
  {
    hide Compute; hide Instr.Reads;
    var before, after: Env := Run(ops, instrs[..i], env), Run(ops, instrs, env);
    assert instrs[..|instrs|] == instrs;
    RunStep(ops, instrs, i, env);
    forall m | instrs[i].Reads(m) ensures before(m) == after(m) {
      KeepsValue(ops, instrs, inputs, env, i, |instrs|, m);
    }
    ComputeReads(ops, instrs[i], before, after);
    assert instrs[..i + 1][i].dst == instrs[i].dst;
    KeepsValue(ops, instrs, inputs, env, i + 1, |instrs|, instrs[i].dst);
  }

  // ----- the graph -----

  ghost predicate BackFor(instrs: seq<Instr>, back: map<nat, nat>) {
    && (forall i :: 0 <= i < |instrs| ==> instrs[i].dst in back && back[instrs[i].dst] == i)
    && (forall m :: m in back ==> back[m] < |instrs| && instrs[back[m]].dst == m)
  }

  method BuildBack(instrs: seq<Instr>) returns (back: map<nat, nat>)
    requires SingleAssign(instrs)
    ensures BackFor(instrs, back)
  {
    back := map[];
    for i := 0 to |instrs|
      invariant forall j :: 0 <= j < i ==> instrs[j].dst in back && back[instrs[j].dst] == j
      invariant forall m :: m in back ==> back[m] < i && instrs[back[m]].dst == m
    {
      back := back[instrs[i].dst := i];
    }
  }

  /** The edges into the first `k` nodes. */
  ghost predicate EdgesInto(instrs: seq<Instr>, back: map<nat, nat>, inputs: set<nat>, fwd: Edges, k: nat)
    requires k <= |instrs|
  {
    && (forall a :: a in fwd ==> a < |instrs|)
    && (forall a: nat, b: nat :: EdgeIs(instrs, back, inputs, fwd, k, a, b))
  }

  /** An edge from `a` to `b` is there exactly when `b` is among the first `k` and reads what `a` defines. */
  ghost predicate EdgeIs(instrs: seq<Instr>, back: map<nat, nat>, inputs: set<nat>, fwd: Edges, k: nat, a: nat, b: nat)
    requires k <= |instrs|
  {
    b in Succ(fwd, a) <==> b < k && Fed(back, inputs, UsedSet([instrs[b]]), a)
  }

  lemma EdgesIntoNext(instrs: seq<Instr>, back: map<nat, nat>, inputs: set<nat>, fwd: Edges, k: nat, f: Edges)
    requires k < |instrs| && BackFor(instrs, back) && EdgesInto(instrs, back, inputs, fwd, k)
    requires Updated(fwd, back, inputs, UsedSet([instrs[k]]), {}, {k}, f)
    ensures EdgesInto(instrs, back, inputs, f, k + 1)
  {
    hide UsedSet; hide Succ;
    forall a | a in f ensures a < |instrs| {
      if Fed(back, inputs, UsedSet([instrs[k]]), a) {
        var v :| v in UsedSet([instrs[k]]) && v !in inputs && v in back && back[v] == a;
      }
    }
    hide Fed;
    var j := k + 1;
    forall a: nat, b: nat ensures EdgeIs(instrs, back, inputs, f, j, a, b) {
      assert EdgeIs(instrs, back, inputs, fwd, k, a, b);
    }
  }

  lemma SourceDefined(instrs: seq<Instr>, inputs: set<nat>, back: map<nat, nat>, k: nat)
    requires Scheduled(instrs, inputs) && BackFor(instrs, back) && k < |instrs|
    ensures forall v :: v in UsedSet([instrs[k]]) && v !in inputs ==> v in back
  {
    hide Instr.Reads;
    forall v | v in UsedSet([instrs[k]]) && v !in inputs ensures v in back {
      assert instrs[k].Reads(v);
      var j :| 0 <= j < k && instrs[..k][j].dst == v;
      assert instrs[j].dst == v;
    }
  }

  method BuildForward(instrs: seq<Instr>, inputs: set<nat>, back: map<nat, nat>) returns (fwd: Edges)
    requires Scheduled(instrs, inputs) && BackFor(instrs, back)
    ensures EdgesInto(instrs, back, inputs, fwd, |instrs|)
  {
    hide EdgesInto; hide BackFor; hide Scheduled; hide UsedSet; hide Updated; hide Fed;
    fwd := map[];
    NoEdges(instrs, back, inputs);
    for i := 0 to |instrs|
      invariant EdgesInto(instrs, back, inputs, fwd, i)
    {
      SourceDefined(instrs, inputs, back, i);
      var f := UpdateEdges(fwd, back, inputs, UsedSet([instrs[i]]), {}, {i});
      EdgesIntoNext(instrs, back, inputs, fwd, i, f);
      fwd := f;
    }
  }

  lemma NoEdges(instrs: seq<Instr>, back: map<nat, nat>, inputs: set<nat>)
    ensures EdgesInto(instrs, back, inputs, map[], 0)
  {
    var none: Edges := map[];
    assert forall a: nat :: Succ(none, a) == {};
  }

  function AllNodes(instrs: seq<Instr>): (r: map<nat, Mlmi>)
    ensures forall n: nat :: n in r <==> n < |instrs|
    ensures forall n: nat :: n in r ==> r[n] == FromHli(instrs[n])
  {
    map n: nat | n < |instrs| :: FromHli(instrs[n])
  }

  ghost function GraphOf(instrs: seq<Instr>, inputs: set<nat>, outputs: seq<nat>, back: map<nat, nat>, fwd: Edges): Graph {
    Graph(AllNodes(instrs).Keys, AllNodes(instrs), fwd, back, inputs, outputs)
  }

  lemma SingleNodeOk(i: Instr)
    requires !i.Reads(i.dst)
    ensures NodeOk(FromHli(i))
    ensures forall m :: Assigns([i], m) <==> m == i.dst
    ensures forall m :: m in UsedSet([i]) <==> i.Reads(m)
  {
    hide Instr.Reads;
    var n := FromHli(i);
    forall m ensures Assigns([i], m) <==> m == i.dst { assert [i][0] == i; }
    forall m ensures ReadsFrom([i], m) <==> i.Reads(m) { assert [i][0] == i; }
  }

  lemma NotSelfRead(instrs: seq<Instr>, inputs: set<nat>, i: nat)
    requires SingleAssign(instrs) && Scheduled(instrs, inputs) && (forall m :: m in inputs ==> !Assigns(instrs, m)) && i < |instrs|
    ensures !instrs[i].Reads(instrs[i].dst)
  {
    hide Instr.Reads;
    var d := instrs[i].dst;
    assert Assigns(instrs, d);
    assert forall j :: 0 <= j < i ==> instrs[..i][j].dst != d;
    assert !Assigns(instrs[..i], d) && d !in inputs;
  }

  lemma BuiltNodesOk(instrs: seq<Instr>, inputs: set<nat>, outputs: seq<nat>, back: map<nat, nat>, fwd: Edges)
    requires Flat(instrs, inputs, outputs)
    ensures NodesOk(GraphOf(instrs, inputs, outputs, back, fwd))
    ensures forall i, m :: 0 <= i < |instrs| ==> (Assigns([instrs[i]], m) <==> m == instrs[i].dst)
    ensures forall i, m :: 0 <= i < |instrs| ==> (m in UsedSet([instrs[i]]) <==> instrs[i].Reads(m))
  {
    hide NodeOk; hide Assigns; hide UsedSet; hide Instr.Reads; hide FromHli; hide Scheduled;
    forall i | 0 <= i < |instrs|
      ensures NodeOk(FromHli(instrs[i]))
      ensures forall m :: Assigns([instrs[i]], m) <==> m == instrs[i].dst
      ensures forall m :: m in UsedSet([instrs[i]]) <==> instrs[i].Reads(m)
    {
      NotSelfRead(instrs, inputs, i);
      SingleNodeOk(instrs[i]);
    }
  }

  lemma BuiltBackOk(instrs: seq<Instr>, inputs: set<nat>, outputs: seq<nat>, back: map<nat, nat>, fwd: Edges)
    requires Flat(instrs, inputs, outputs) && BackFor(instrs, back) && NodesOk(GraphOf(instrs, inputs, outputs, back, fwd))
    ensures BackOk(GraphOf(instrs, inputs, outputs, back, fwd))
  {
    BuiltNodesOk(instrs, inputs, outputs, back, fwd);
    hide NodeOk; hide Assigns; hide UsedSet; hide Instr.Reads; hide FromHli; hide Scheduled;
    forall m | m in back ensures m !in inputs { AssignedSomewhere(instrs, back[m]); }
  }

  lemma AssignedSomewhere(instrs: seq<Instr>, i: nat)
    requires i < |instrs|
    ensures Assigns(instrs, instrs[i].dst)
  {
  }

  lemma BuiltEdge(instrs: seq<Instr>, inputs: set<nat>, outputs: seq<nat>, back: map<nat, nat>, fwd: Edges, a: nat, b: nat)
    requires Flat(instrs, inputs, outputs) && BackFor(instrs, back) && EdgesInto(instrs, back, inputs, fwd, |instrs|) && a < |instrs|
    ensures b in Succ(fwd, a) <==> b < |instrs| && Shares(FromHli(instrs[a]), FromHli(instrs[b]))
  {
    hide *;
    BuiltNodesOk(instrs, inputs, outputs, back, fwd);
    EdgeFed(instrs, back, inputs, fwd, a, b);
    if b < |instrs| {
      SharesWhenRead(instrs[a], instrs[b]);
      FedWhenRead(instrs, inputs, outputs, back, a, UsedSet([instrs[b]]));
    }
  }

  lemma SharesWhenRead(i: Instr, j: Instr)
    ensures Shares(FromHli(i), FromHli(j)) <==> j.Reads(i.dst)
  {
    hide Instr.Reads;
    if j.Reads(i.dst) { assert i.dst in FromHli(i).outputs && i.dst in FromHli(j).inputs; }
  }

  lemma FedWhenRead(instrs: seq<Instr>, inputs: set<nat>, outputs: seq<nat>, back: map<nat, nat>, a: nat, used: set<nat>)
    requires Flat(instrs, inputs, outputs) && BackFor(instrs, back) && a < |instrs|
    ensures Fed(back, inputs, used, a) <==> instrs[a].dst in used
  {
    hide Scheduled; hide SingleAssign; hide Assigns;
    AssignedSomewhere(instrs, a);
  }

  lemma BuiltAvailable(instrs: seq<Instr>, inputs: set<nat>, outputs: seq<nat>, back: map<nat, nat>, fwd: Edges, m: nat)
    requires Flat(instrs, inputs, outputs) && BackFor(instrs, back)
    requires var g := GraphOf(instrs, inputs, outputs, back, fwd); NodesOk(g) && BackOk(g)
    requires m in inputs || Assigns(instrs, m)
    ensures Available(GraphOf(instrs, inputs, outputs, back, fwd), m)
  {
    hide NodeOk; hide Scheduled; hide SingleAssign; hide Instr.Reads;
    if m !in inputs {
      var i :| 0 <= i < |instrs| && instrs[i].dst == m;
    }
  }

  lemma BuiltFwdOk(instrs: seq<Instr>, inputs: set<nat>, outputs: seq<nat>, back: map<nat, nat>, fwd: Edges)
    requires Flat(instrs, inputs, outputs) && BackFor(instrs, back) && EdgesInto(instrs, back, inputs, fwd, |instrs|)
    requires NodesOk(GraphOf(instrs, inputs, outputs, back, fwd))
    ensures FwdOk(GraphOf(instrs, inputs, outputs, back, fwd))
  {
    hide NodeOk; hide Fed; hide Shares; hide Succ; hide BackFor; hide FromHli; hide Flat;
    var g := GraphOf(instrs, inputs, outputs, back, fwd);
    forall a, b | a in g.nodes ensures b in Succ(g.fwd, a) <==> b in g.nodes && Shares(g.mlmi[a], g.mlmi[b]) {
      BuiltEdge(instrs, inputs, outputs, back, fwd, a, b);
    }
  }

  lemma BuiltAvailableOk(instrs: seq<Instr>, inputs: set<nat>, outputs: seq<nat>, back: map<nat, nat>, fwd: Edges)
    requires Flat(instrs, inputs, outputs) && BackFor(instrs, back)
    requires var g := GraphOf(instrs, inputs, outputs, back, fwd); NodesOk(g) && BackOk(g)
    ensures AvailableOk(GraphOf(instrs, inputs, outputs, back, fwd))
  {
    hide NodeOk; hide Assigns; hide Instr.Reads; hide SingleAssign; hide BackOk; hide BackFor; hide Available;
    var g := GraphOf(instrs, inputs, outputs, back, fwd);
    forall n, m | n in g.nodes && m in g.mlmi[n].inputs ensures Available(g, m) {
      assert instrs[n].Reads(m);
      if m !in inputs { AssignsWhole(instrs, n, m); }
      BuiltAvailable(instrs, inputs, outputs, back, fwd, m);
    }
    forall m | m in g.progOutputs ensures Available(g, m) { BuiltAvailable(instrs, inputs, outputs, back, fwd, m); }
  }

  /** The graph that is built is integral. */
  lemma BuiltIntegral(instrs: seq<Instr>, inputs: set<nat>, outputs: seq<nat>, back: map<nat, nat>, fwd: Edges)
    requires Flat(instrs, inputs, outputs) && BackFor(instrs, back) && EdgesInto(instrs, back, inputs, fwd, |instrs|)
    ensures Integral(GraphOf(instrs, inputs, outputs, back, fwd))
  {
    hide *;
    BuiltNodesOk(instrs, inputs, outputs, back, fwd);
    BuiltBackOk(instrs, inputs, outputs, back, fwd);
    BuiltFwdOk(instrs, inputs, outputs, back, fwd);
    BuiltAvailableOk(instrs, inputs, outputs, back, fwd);
    MakeIntegral(GraphOf(instrs, inputs, outputs, back, fwd));
  }

  lemma AssignsWhole(instrs: seq<Instr>, n: nat, m: nat)
    requires n <= |instrs| && Assigns(instrs[..n], m)
    ensures Assigns(instrs, m)
  {
    var j :| 0 <= j < n && instrs[..n][j].dst == m;
    assert instrs[j].dst == m;
  }

  lemma BuiltExact(instrs: seq<Instr>, inputs: set<nat>, outputs: seq<nat>, back: map<nat, nat>, fwd: Edges)
    requires NodesOk(GraphOf(instrs, inputs, outputs, back, fwd))
    ensures Exact(GraphOf(instrs, inputs, outputs, back, fwd))
  {
    hide NodeOk; hide Instr.Reads;
    forall i, m | 0 <= i < |instrs| && instrs[i].Reads(m) ensures ReadsFrom([instrs[i]], m) { assert [instrs[i]][0] == instrs[i]; }
  }

  /** Edges go from earlier to later instructions. */
  lemma EdgeGoesOn(instrs: seq<Instr>, inputs: set<nat>, back: map<nat, nat>, a: nat, b: nat)
    requires Scheduled(instrs, inputs) && BackFor(instrs, back) && b < |instrs| && Fed(back, inputs, UsedSet([instrs[b]]), a)
    ensures a < b
  {
    hide Instr.Reads; hide UsedSet;
    var v :| v in UsedSet([instrs[b]]) && v !in inputs && v in back && back[v] == a;
    assert instrs[b].Reads(v);
    var j :| 0 <= j < b && instrs[..b][j].dst == v;
    assert instrs[j].dst == v;
  }

  lemma EdgeFed(instrs: seq<Instr>, back: map<nat, nat>, inputs: set<nat>, fwd: Edges, a: nat, b: nat)
    requires EdgesInto(instrs, back, inputs, fwd, |instrs|)
    ensures b in Succ(fwd, a) <==> b < |instrs| && Fed(back, inputs, UsedSet([instrs[b]]), a)
  {
    hide Succ; hide Fed; hide UsedSet;
    assert EdgeIs(instrs, back, inputs, fwd, |instrs|, a, b);
  }

  lemma BuiltAcyclic(instrs: seq<Instr>, inputs: set<nat>, outputs: seq<nat>, back: map<nat, nat>, fwd: Edges)
    requires Flat(instrs, inputs, outputs) && BackFor(instrs, back) && EdgesInto(instrs, back, inputs, fwd, |instrs|)
    ensures Acyclic(fwd)
  {
    hide Acyclic; hide UsedSet; hide Fed; hide Scheduled; hide BackFor; hide Succ; hide SingleAssign; hide Assigns;
    forall a: nat, b: nat | b in Succ(fwd, a) ensures a < b {
      EdgeFed(instrs, back, inputs, fwd, a, b);
      EdgeGoesOn(instrs, inputs, back, a, b);
    }
    RankedIsAcyclic(fwd, (n: nat) => n);
  }

  /** The program's run is a model of the graph. */
  lemma BuiltModel(ops: Ops, instrs: seq<Instr>, inputs: set<nat>, outputs: seq<nat>, back: map<nat, nat>, fwd: Edges, env: Env)
    requires Flat(instrs, inputs, outputs) && NodesOk(GraphOf(instrs, inputs, outputs, back, fwd))
    ensures Models(ops, GraphOf(instrs, inputs, outputs, back, fwd), Run(ops, instrs, env))
  {
    hide NodeOk; hide Compute; hide Run; hide Instr.Reads;
    var g := GraphOf(instrs, inputs, outputs, back, fwd);
    var val: Env := Run(ops, instrs, env);
    forall n, i | n in g.nodes && 0 <= i < |g.mlmi[n].instrs|
      ensures val(g.mlmi[n].instrs[i].dst) == Compute(ops, g.mlmi[n].instrs[i], val)
    {
      RunIsModel(ops, instrs, inputs, env, n);
    }
  }

  /** `build_graph`: the graph is integral and acyclic, and the program's run is a model of it. */
  method Build(instrs: seq<Instr>, inputs: set<nat>, outputs: seq<nat>) returns (dfg: Dataflow)
    requires Flat(instrs, inputs, outputs)
    ensures fresh(dfg) && dfg.Valid() && dfg.progInputs == inputs && dfg.progOutputs == outputs
    ensures forall n: nat :: n in dfg.nodes <==> n < |instrs|
    ensures forall n :: n in dfg.nodes ==> n in dfg.mlmi && dfg.mlmi[n] == FromHli(instrs[n])
    ensures NodesOk(dfg.View()) && forall ops: Ops, env: Env :: Models(ops, dfg.View(), Run(ops, instrs, env))
  {
    hide *;
    FlatParts(instrs, inputs, outputs);
    var back := BuildBack(instrs);
    var fwd := BuildForward(instrs, inputs, back);
    var all := AllNodes(instrs);
    dfg := new Dataflow(all.Keys, all, fwd, back, inputs, outputs, |instrs|);
    dfg.ViewIs();
    GraphOfIs(instrs, inputs, outputs, back, fwd);
    BuiltIntegral(instrs, inputs, outputs, back, fwd);
    BuiltAcyclic(instrs, inputs, outputs, back, fwd);
    IntegralParts(dfg.View());
    BuiltExact(instrs, inputs, outputs, back, fwd);
    dfg.MakeValid();
    forall ops: Ops, env: Env ensures Models(ops, dfg.View(), Run(ops, instrs, env)) {
      BuiltModel(ops, instrs, inputs, outputs, back, fwd, env);
    }
  }

  lemma FlatParts(instrs: seq<Instr>, inputs: set<nat>, outputs: seq<nat>)
    requires Flat(instrs, inputs, outputs)
    ensures SingleAssign(instrs) && Scheduled(instrs, inputs)
  {
    hide SingleAssign; hide Scheduled; hide Assigns;
  }

  lemma GraphOfIs(instrs: seq<Instr>, inputs: set<nat>, outputs: seq<nat>, back: map<nat, nat>, fwd: Edges)
    ensures GraphOf(instrs, inputs, outputs, back, fwd) == Graph(AllNodes(instrs).Keys, AllNodes(instrs), fwd, back, inputs, outputs)
  {
  }
}
