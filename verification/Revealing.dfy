/** A lowered program meets what the runtime asks for: revealed cells are not read, and every program output is revealed. */
module Revealing {
  import opened IR
  import opened Dfg
  import opened DfgSchedule
  import opened Bytecode
  import opened Backend
  import opened LoweredRuns
  import opened Simulation
  import Allocator
  import Linking
  import LayeredGraph
  import LlsCode
  import Lowering
  import Serializer
  import Copies
  import Rectangularize
  import Universalize

  /** No node reads an output of a node that returns a program output. */
  ghost predicate RevealedUnread(g: Graph)
    requires NodesOk(g)
  {
    forall n, y, o, m :: n in g.nodes && y in g.nodes && o in g.mlmi[n].outputs && o in g.progOutputs && m in g.mlmi[n].outputs ==> m !in g.mlmi[y].inputs
  }

  ghost predicate OutputsFromNodes(g: Graph)
    requires NodesOk(g)
  {
    forall o :: o in g.progOutputs ==> o in g.back && g.back[o] in g.nodes && o in g.mlmi[g.back[o]].outputs
  }

  lemma {:induction false} ClearFrom(p: Program, k: nat, m: nat) returns (j: nat)
    requires k <= |p.instrs| && m in ClearAt(p, k)
    ensures j < k && m in p.instrs[j].outputs && Reveals(p, p.instrs[j])
    decreases k
  {
    hide Reveals;
    if Reveals(p, p.instrs[k - 1]) && m in p.instrs[k - 1].outputs { j := k - 1; } else { j := ClearFrom(p, k - 1, m); }
  }

  lemma LoweredShape(n: Mlmi, cfg: Config, mi: Llmi)
    requires NodeFits(n, cfg) && Lowers(n, cfg, mi)
    ensures MiShape(mi, cfg) && mi.outputs == n.outputs && mi.inputs == if n.inputs == [] then [0] else n.inputs
  {
    hide *;
    var q, u := Allocator.SomeInput(NodeProblem(n, cfg)), UsedCount(n, cfg);
    var run := LowersIs(n, cfg, mi);
    SameCode(n, cfg);
    Linking.LoweredInRange(q, u, run, mi.lls);
    FitSizes(n, cfg);
    LowerLength(run[|n.instrs|].regs, n.instrs);
    MakeShape(mi, cfg);
  }

  lemma LowerLength(regs: map<nat, nat>, instrs: seq<Instr>)
    ensures |Lowering.LowerAll(regs, instrs)| == |instrs|
  {
  }

  lemma FitSizes(n: Mlmi, cfg: Config)
    requires NodeFits(n, cfg)
    ensures |n.inputs| <= cfg.lin && |n.outputs| <= cfg.lout && |n.instrs| <= cfg.s && 1 <= cfg.lin && cfg.lin + cfg.lout <= cfg.r
  {
    hide NodeOk;
  }

  lemma MakeShape(mi: Llmi, cfg: Config)
    requires |mi.lls| <= cfg.s && |mi.inputs| <= cfg.r && |mi.outputs| <= cfg.lout <= cfg.r && LlsCode.AllInRange(LlsCode.Codes(mi.lls), cfg.r)
    ensures MiShape(mi, cfg)
  {
    hide LlsCode.AllInRange; hide LlsCode.Codes;
  }

  lemma RevealsIs(p: Program, mi: Llmi) returns (o: nat)
    requires Reveals(p, mi)
    ensures o in mi.outputs && o in p.outputs
  {
    var j :| 0 <= j < |mi.outputs| && mi.outputs[j] in p.outputs;
    o := mi.outputs[j];
  }

  lemma UnreadAt(g: Graph, n: nat, y: nat, o: nat, m: nat)
    requires NodesOk(g) && RevealedUnread(g) && n in g.nodes && y in g.nodes && n in g.mlmi && y in g.mlmi && o in g.mlmi[n].outputs && o in g.progOutputs && m in g.mlmi[n].outputs
    ensures m !in g.mlmi[y].inputs
  {
    hide NodesOk;
  }

  /** Outputs of nodes are not program inputs. */
  lemma OutputNotInput(g: Graph, n: nat, m: nat)
    requires NodesOk(g) && BackOk(g) && n in g.nodes && n in g.mlmi && m in g.mlmi[n].outputs
    ensures m !in g.progInputs
  {
    hide Scheduled; hide SingleAssign; hide Assigns;
    assert NodeOk(g.mlmi[n]);
  }

  lemma NotInClear(g: Graph, order: seq<nat>, cfg: Config, p: Program, k: nat, m: nat)
    requires NodesOk(g) && BackOk(g) && IsOrder(g, order) && AllFit(g, cfg) && IsLowered(g, order, cfg, p) && RevealedUnread(g) && 0 in g.progInputs
    requires |p.instrs| == |order| && k < |order| && m in p.instrs[k].inputs
    ensures m !in ClearAt(p, k)
  {
    hide *;
    OrderIs(g, order);
    AllFitKnown(g, cfg);
    LoweredAt(g, order, cfg, p, k);
    LoweredShape(g.mlmi[order[k]], cfg, p.instrs[k]);
    if m in ClearAt(p, k) {
      var j := ClearFrom(p, k, m);
      LoweredAt(g, order, cfg, p, j);
      var o := RevealsIs(p, p.instrs[j]);
      UnreadAt(g, order[j], order[k], o, m);
      OutputNotInput(g, order[j], m);
    }
  }

  lemma Produced(g: Graph, order: seq<nat>, cfg: Config, p: Program, o: nat) returns (k: nat)
    requires NodesOk(g) && IsOrder(g, order) && IsLowered(g, order, cfg, p) && OutputsFromNodes(g) && o in g.progOutputs && |p.instrs| == |order|
    ensures k < |p.instrs| && Produces(p.instrs[k], o)
  {
    hide NodeOk; hide Lowers; hide Before;
    assert g.back[o] in order;
    k :| 0 <= k < |order| && order[k] == g.back[o];
    LoweredAt(g, order, cfg, p, k);
  }

  /** The runtime can run it, when the serializer can write it. */
  lemma LoweredRunnable(g: Graph, order: seq<nat>, cfg: Config, p: Program)
    requires NodesOk(g) && BackOk(g) && IsOrder(g, order) && AllFit(g, cfg) && IsLowered(g, order, cfg, p) && RevealedUnread(g) && OutputsFromNodes(g) && 0 in g.progInputs
    requires |p.instrs| == |order| && Serializer.Serializable(p, cfg) && 2 <= cfg.lout <= cfg.r <= 0x100_0000 && 2 <= p.memoryCount <= 0x100_0000
    ensures Runnable(p, cfg)
  {
    hide *;
    LoweredShaped(g, order, cfg, p);
    forall k, j | 0 <= k < |p.instrs| && 0 <= j < |p.instrs[k].inputs| ensures p.instrs[k].inputs[j] !in ClearAt(p, k) {
      NotInClear(g, order, cfg, p, k, p.instrs[k].inputs[j]);
    }
    LoweredOutputs(g, order, cfg, p);
    forall o | o in p.outputs ensures exists k :: 0 <= k < |p.instrs| && Produces(p.instrs[k], o) { var k := Produced(g, order, cfg, p, o); }
    MakeRunnable(p, cfg);
  }

  lemma LoweredOutputs(g: Graph, order: seq<nat>, cfg: Config, p: Program)
    requires IsLowered(g, order, cfg, p)
    ensures p.outputs == g.progOutputs && |p.instrs| == |order|
  {
    hide Lowers;
  }

  lemma LoweredShaped(g: Graph, order: seq<nat>, cfg: Config, p: Program)
    requires NodesOk(g) && IsOrder(g, order) && AllFit(g, cfg) && IsLowered(g, order, cfg, p)
    ensures AllShaped(p, cfg)
  {
    hide *;
    OrderIs(g, order);
    AllFitKnown(g, cfg);
    LoweredOutputs(g, order, cfg, p);
    forall k | 0 <= k < |p.instrs| ensures MiShape(p.instrs[k], cfg) {
      LoweredAt(g, order, cfg, p, k);
      LoweredShape(g.mlmi[order[k]], cfg, p.instrs[k]);
    }
    MakeShaped(p, cfg);
  }

  lemma MakeShaped(p: Program, cfg: Config)
    requires forall k :: 0 <= k < |p.instrs| ==> MiShape(p.instrs[k], cfg)
    ensures AllShaped(p, cfg)
  {
    hide MiShape;
  }

  lemma MakeRunnable(p: Program, cfg: Config)
    requires Serializer.Serializable(p, cfg) && AllShaped(p, cfg) && 2 <= cfg.lout <= cfg.r <= 0x100_0000 && 2 <= p.memoryCount <= 0x100_0000
    requires forall k, j :: 0 <= k < |p.instrs| && 0 <= j < |p.instrs[k].inputs| ==> p.instrs[k].inputs[j] !in ClearAt(p, k)
    requires forall o :: o in p.outputs ==> exists k :: 0 <= k < |p.instrs| && Produces(p.instrs[k], o)
    ensures Runnable(p, cfg)
  {
    hide Serializer.Serializable; hide AllShaped; hide ClearAt; hide Produces;
    forall k | 0 <= k < |p.instrs| ensures HiddenAt(p, k) { }
  }

  // ----- universalized graphs -----

  /** After universalization program outputs come from the last layer, whose outputs no node reads. */
  lemma UniversalUnread(g0: Graph, first: nat, st: LayeredGraph.St, rho: Copies.Origins)
    requires LayeredGraph.Sound(g0, first, st, rho) && NodesOk(st.g) && BackOk(st.g) && st.nl.Keys == st.g.nodes && Universalize.OutputsLast(st)
    ensures RevealedUnread(st.g) && OutputsFromNodes(st.g)
  {
    hide *;
    LayeredGraph.SoundParts(g0, first, st, rho);
    NodesKnown(st.g);
    forall n, y, o, m | n in st.g.nodes && y in st.g.nodes && o in st.g.mlmi[n].outputs && o in st.g.progOutputs && m in st.g.mlmi[n].outputs ensures m !in st.g.mlmi[y].inputs {
      LastIs(st, o);
      OutputLevel(st, n, o);
      OutputLevel(st, n, m);
      Rectangularize.LayerBound(st, y);
      if m in st.g.mlmi[y].inputs { Rectangularize.InputKnown(g0, first, st, rho, y, m); }
    }
    forall o | o in st.g.progOutputs ensures o in st.g.back && st.g.back[o] in st.g.nodes && o in st.g.mlmi[st.g.back[o]].outputs {
      LastIs(st, o);
    }
    MakeUnread(st.g);
  }

  lemma LastIs(st: LayeredGraph.St, o: nat)
    requires NodesOk(st.g) && BackOk(st.g) && st.nl.Keys == st.g.nodes && Universalize.OutputsLast(st) && o in st.g.progOutputs
    ensures o in st.g.back && st.g.back[o] in st.g.nodes && st.g.back[o] in st.nl && st.nl[st.g.back[o]] == |st.layers| - 1 && o in st.g.mlmi[st.g.back[o]].outputs
  {
    hide NodeOk; hide Assigns;
  }

  lemma OutputLevel(st: LayeredGraph.St, n: nat, m: nat)
    requires NodesOk(st.g) && BackOk(st.g) && st.nl.Keys == st.g.nodes && n in st.g.nodes && n in st.g.mlmi && m in st.g.mlmi[n].outputs
    ensures m in st.g.back && st.g.back[m] == n && n in st.nl && LayeredGraph.Level(st, m) == st.nl[n]
  {
    hide Scheduled; hide SingleAssign; hide Assigns;
    assert NodeOk(st.g.mlmi[n]);
  }

  lemma MakeUnread(g: Graph)
    requires NodesOk(g) && forall n :: n in g.nodes ==> n in g.mlmi
    requires forall n, y, o, m :: n in g.nodes && y in g.nodes && o in g.mlmi[n].outputs && o in g.progOutputs && m in g.mlmi[n].outputs ==> m !in g.mlmi[y].inputs
    requires forall o :: o in g.progOutputs ==> o in g.back && g.back[o] in g.nodes && o in g.mlmi[g.back[o]].outputs
    ensures RevealedUnread(g) && OutputsFromNodes(g)
  {
    hide NodesOk;
  }
}
