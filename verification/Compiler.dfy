/** The whole chain of compiler/src/main.py and runtime/interpreter.c: a straight-line program is put in single-assignment form,
    clusterized, universalized, ordered, lowered, serialized and interpreted, and the result is what the program computes. */
module Compiler {
  import opened Options
  import opened IR
  import opened Dfg
  import opened DfgSchedule
  import opened Copies
  import opened Tracking
  import opened LayeredGraph
  import opened Bytecode
  import opened Backend
  import opened LoweredRuns
  import opened Revealing
  import Bits
  import BuildGraph
  import ByteView
  import Clusterizer
  import Frontend
  import Interpreter
  import Midend
  import SecureElement
  import Serializer
  import Simulation
  import Universalize

  // ----- what the program computes -----

  function OutputsOf(ops: Ops, p: Frontend.Program, env: Env): (r: seq<Word>)
    ensures |r| == |p.outputs|
  {
    seq<Word>(|p.outputs|, i requires 0 <= i < |p.outputs| => Run(ops, p.instrs, env)(p.outputs[i]))
  }

  ghost predicate Given(p: Frontend.Program, env: Env, inps: seq<Word>) {
    |inps| == |p.inputs| && forall i :: 0 <= i < |p.inputs| ==> env(p.inputs[i]) == inps[i]
  }

  /** Whatever the lowered program returns are the outputs of the source program. */
  ghost predicate Faithful(p: Frontend.Program, cfg: Config, llir: Program) {
    forall ops: Ops, env: Env, inps: seq<Word>, r: Option<seq<Word>> ::
      Given(p, env, inps) && Interpreter.IsResult(ops, llir, cfg, inps, r) ==> r == Some(OutputsOf(ops, p, env))
  }

  /** The limits that `main` asks of the configuration, and those of the model. */
  ghost predicate ConfigOk(cfg: Config, le: nat) {
    && le >= 1 && cfg.lin == cfg.lout == Bits.Pow2(le) && cfg.s >= cfg.lin && cfg.lin + cfg.lout <= cfg.r <= 0x100_0000
  }

  function LimitsOf(cfg: Config): Limits {
    Limits(cfg.lin, cfg.lout, cfg.s)
  }

  // ----- from the graph to the lowered program -----

  /** The values of the clusterized graph, seen in the universalized one. */
  lemma PulledValues(ops: Ops, g0: Graph, first: nat, g: Graph, rho: Origins, k: nat, val: Env)
    requires Tracks(g0, first, g, rho, k) && Models(ops, g0, val)
    ensures Models(ops, g, Pull(val, rho)) && (forall m :: m in g.progInputs ==> Pull(val, rho)(m) == val(m)) && |g.progOutputs| == |g0.progOutputs|
    ensures forall i :: 0 <= i < |g.progOutputs| ==> Pull(val, rho)(g.progOutputs[i]) == val(g0.progOutputs[i])
  {
    hide *;
    TracksParts(g0, first, g, rho, k);
    CarriesAt(g0, g, rho, ops, val);
    forall m | m in g.progInputs ensures Pull(val, rho)(m) == val(m) { PullOld(val, rho, first, k, m); }
    forall i | 0 <= i < |g.progOutputs| ensures Pull(val, rho)(g.progOutputs[i]) == val(g0.progOutputs[i]) { PullIs(val, rho, g.progOutputs[i], g0.progOutputs[i]); }
  }

  /** One run of the lowered program. */
  lemma RunIsFaithful(ops: Ops, p: Frontend.Program, q: Frontend.Program, cfg: Config, g0: Graph, st: St, rho: Origins, order: seq<nat>, llir: Program,
                      env: Env, inps: seq<Word>, gs: seq<seq<Word>>)
    requires Frontend.SameOutputs(p, q) && q.inputs == p.inputs && |p.outputs| == |q.outputs| && NodesOk(g0) && Models(ops, g0, Run(ops, q.instrs, env)) && g0.progOutputs == q.outputs && g0.progInputs == ToSet(q.inputs)
    requires BuildGraph.Flat(q.instrs, ToSet(q.inputs), q.outputs)
    requires Sound(g0, q.memoryCount, st, rho) && NodesOk(st.g) && IsOrder(st.g, order) && AllFit(st.g, cfg) && Clean(st.g, cfg) && IsLowered(st.g, order, cfg, llir) && llir.inputs == q.inputs
    requires Given(p, env, inps) && Simulation.AllShaped(llir, cfg) && |gs| == |llir.instrs| && Simulation.Files(gs, cfg.r) && |inps| == |llir.inputs|
    ensures Interpreter.Results(ops, llir, cfg, gs, inps) == OutputsOf(ops, p, env)
  {
    hide *;
    SoundParts(g0, q.memoryCount, st, rho);
    TracksParts(g0, q.memoryCount, st.g, rho, st.k);
    var val: Env := Run(ops, q.instrs, env);
    PulledValues(ops, g0, q.memoryCount, st.g, rho, st.k, val);
    var pulled := Pull(val, rho);
    LoweredOutputs(st.g, order, cfg, llir);
    GivenIs(p, env, inps);
    forall j | 0 <= j < |llir.inputs| ensures pulled(llir.inputs[j]) == inps[j] {
      assert llir.inputs[j] in g0.progInputs;
      InputValue(ops, q, env, llir.inputs[j]);
    }
    OutputsOfIs(ops, p, env);
    forall i | 0 <= i < |llir.outputs| ensures |Interpreter.Results(ops, llir, cfg, gs, inps)| == |llir.outputs| == |p.outputs| && Interpreter.Results(ops, llir, cfg, gs, inps)[i] == OutputsOf(ops, p, env)[i] {
      ResultsRight(ops, st.g, order, cfg, llir, gs, inps, pulled, i);
      Midend.SameAt(p, q, ops, env, i);
    }
    ResultsLength(ops, llir, cfg, gs, inps);
  }

  lemma GivenIs(p: Frontend.Program, env: Env, inps: seq<Word>)
    requires Given(p, env, inps)
    ensures |inps| == |p.inputs| && forall i :: 0 <= i < |p.inputs| ==> env(p.inputs[i]) == inps[i]
  {
  }

  lemma OutputsOfIs(ops: Ops, p: Frontend.Program, env: Env)
    ensures |OutputsOf(ops, p, env)| == |p.outputs| && forall i :: 0 <= i < |p.outputs| ==> OutputsOf(ops, p, env)[i] == Run(ops, p.instrs, env)(p.outputs[i])
  {
    hide Run;
  }

  lemma ResultsLength(ops: Ops, p: Program, cfg: Config, gs: seq<seq<Word>>, inps: seq<Word>)
    requires Simulation.AllShaped(p, cfg) && |p.instrs| <= |gs| && Simulation.Files(gs, cfg.r) && |inps| == |p.inputs|
    ensures |Interpreter.Results(ops, p, cfg, gs, inps)| == |p.outputs|
  {
    hide Simulation.AllShaped; hide Simulation.Files;
  }

  lemma InputValue(ops: Ops, q: Frontend.Program, env: Env, m: nat)
    requires BuildGraph.Flat(q.instrs, ToSet(q.inputs), q.outputs) && m in q.inputs
    ensures Run(ops, q.instrs, env)(m) == env(m)
  {
    hide *;
    InSet(q.inputs, m);
    Midend.InputUnassigned(q.instrs, ToSet(q.inputs), q.outputs, m);
    Midend.InputKept(ops, q.instrs, env, |q.instrs|, m);
    assert q.instrs[..|q.instrs|] == q.instrs;
  }

  lemma InSet(s: seq<nat>, m: nat)
    ensures m in ToSet(s) <==> m in s
  {
  }

  lemma FaithfulWhenClean(p: Frontend.Program, q: Frontend.Program, cfg: Config, g0: Graph, st: St, rho: Origins, order: seq<nat>, llir: Program)
    requires Frontend.SameOutputs(p, q) && q.inputs == p.inputs && |p.outputs| == |q.outputs| && NodesOk(g0) && (forall ops: Ops, env: Env :: Models(ops, g0, Run(ops, q.instrs, env)))
    requires g0.progOutputs == q.outputs && g0.progInputs == ToSet(q.inputs) && BuildGraph.Flat(q.instrs, ToSet(q.inputs), q.outputs)
    requires Sound(g0, q.memoryCount, st, rho) && NodesOk(st.g) && IsOrder(st.g, order) && AllFit(st.g, cfg) && Clean(st.g, cfg) && IsLowered(st.g, order, cfg, llir) && llir.inputs == q.inputs
    ensures Faithful(p, cfg, llir)
  {
    hide *;
    forall ops: Ops, env: Env, inps: seq<Word>, r: Option<seq<Word>> | Given(p, env, inps) && Interpreter.IsResult(ops, llir, cfg, inps, r)
      ensures r == Some(OutputsOf(ops, p, env))
    {
      var gs := ResultFrom(ops, llir, cfg, inps, r);
      RunIsFaithful(ops, p, q, cfg, g0, st, rho, order, llir, env, inps, gs);
    }
    MakeFaithful(p, cfg, llir);
  }

  lemma ResultFrom(ops: Ops, p: Program, cfg: Config, inps: seq<Word>, r: Option<seq<Word>>) returns (gs: seq<seq<Word>>)
    requires Interpreter.IsResult(ops, p, cfg, inps, r)
    ensures Simulation.AllShaped(p, cfg) && |gs| == |p.instrs| && Simulation.Files(gs, cfg.r) && |inps| == |p.inputs| && r == Some(Interpreter.Results(ops, p, cfg, gs, inps))
  {
    hide Simulation.AllShaped; hide Simulation.Files; hide Interpreter.Results;
    gs :| Interpreter.ResultFor(ops, p, cfg, gs, inps, r);
  }

  lemma MakeFaithful(p: Frontend.Program, cfg: Config, llir: Program)
    requires forall ops: Ops, env: Env, inps: seq<Word>, r: Option<seq<Word>> :: Given(p, env, inps) && Interpreter.IsResult(ops, llir, cfg, inps, r) ==> r == Some(OutputsOf(ops, p, env))
    ensures Faithful(p, cfg, llir)
  {
    hide Given; hide Interpreter.IsResult; hide OutputsOf;
  }

  // ----- the compiler -----

  /** What `main` was asked for, besides the configuration. */
  datatype Flags = Flags(le: nat, fits: Clusterizer.Fits, fast: bool, depth: nat, width: nat)

  /** Every pass has done its work: the frontend's program computes the outputs and has neither dead code nor copies that are
      read; the clusterized graph has fewer nodes than that program has instructions, unless none could be merged. */
  ghost predicate FrontOk(p: Frontend.Program, cfg: Config, f: Flags, q: Frontend.Program, clustered: Graph) {
    && Frontend.SameOutputs(p, q) && Frontend.NoDeadCode(q) && Frontend.ReadsNoCopies(p, q)
    && Midend.ClusteredFrom(q.instrs, ToSet(q.inputs), q.outputs, clustered, LimitsOf(cfg), f.fits, f.fast)
  }

  /** The graph that was lowered has the layers, nodes and edges that the numbers of inputs and outputs, depth and width ask
      for, and the lowered program has its nodes in an order that respects the edges. */
  ghost predicate LoweredOk(cfg: Config, f: Flags, clustered: Graph, st: St, llir: Program) {
    && NodesOk(st.g) && Universalize.Universalized(st, f.le, |clustered.progInputs|, |ToSet(clustered.progOutputs)|, f.depth, f.width)
    && exists order :: IsOrder(st.g, order) && IsLowered(st.g, order, cfg, llir)
  }

  /** The program the runtime gets can be run whenever it can be written, and returns the source program's outputs whenever
      the allocator's conditions hold of the universalized graph; they do when every node of the clusterized graph returns
      everything it computes. */
  ghost predicate CompiledOk(p: Frontend.Program, cfg: Config, clustered: Graph, g: Graph, llir: Program) {
    && llir.inputs == p.inputs
    && (Serializer.Serializable(llir, cfg) && 2 <= llir.memoryCount <= 0x100_0000 ==> Simulation.Runnable(llir, cfg))
    && (Clean(g, cfg) ==> Faithful(p, cfg, llir)) && (Returning(clustered) ==> Clean(g, cfg)) && (Plain(p) ==> Returning(clustered))
  }

  /** A program in single-assignment form that returns everything it computes. */
  ghost predicate Plain(p: Frontend.Program) {
    Frontend.SingleAssignment(p) && Frontend.AllReturned(p)
  }

  lemma PlainIs(p: Frontend.Program, q: Frontend.Program)
    requires Plain(p) && (Frontend.SingleAssignment(p) && Frontend.AllReturned(p) ==> Frontend.AllReturned(q))
    ensures forall i :: 0 <= i < |q.instrs| ==> q.instrs[i].dst in q.outputs
  {
    hide Frontend.SingleAssignment;
  }

  /** How compiling ends: with a lowered program, the frontend's program and the graphs it came from, clusterized and then
      universalized; with a clusterized graph one of whose nodes left the limits, on which the padding loops do not end; with
      nothing to universalize; or without registers. */
  datatype Outcome =
    | Lowered(q: Frontend.Program, clustered: Graph, st: St, llir: Program)
    | LimitsLeft(q: Frontend.Program, clustered: Graph, n: nat)
    | Nothing
    | NoRegisters(q: Frontend.Program, clustered: Graph, st: St)

  ghost predicate OutcomeOk(p: Frontend.Program, cfg: Config, f: Flags, c: Outcome)
    requires cfg.lout <= cfg.r
  {
    match c
    case Lowered(q, clustered, st, llir) => CompiledOk(p, cfg, clustered, st.g, llir) && FrontOk(p, cfg, f, q, clustered) && LoweredOk(cfg, f, clustered, st, llir)
    case LimitsLeft(q, g, n) => FrontOk(p, cfg, f, q, g) && Exceeds(cfg, q, g, n)
    case Nothing => p.inputs == [] || (p.outputs == [] && f.width == 0 && f.depth <= 1)
    case NoRegisters(q, clustered, st) =>
      FrontOk(p, cfg, f, q, clustered) && Universalize.Universalized(st, f.le, |clustered.progInputs|, |ToSet(clustered.progOutputs)|, f.depth, f.width)
      && (AllSafe(st.g, cfg) ==> !AllEnough(st.g, cfg))
  }

  /** The graph stands for the program, and its node `n` has too many inputs, outputs or instructions. */
  ghost predicate Exceeds(cfg: Config, q: Frontend.Program, g: Graph, n: nat) {
    && NodesOk(g) && (forall ops: Ops, env: Env :: Models(ops, g, Run(ops, q.instrs, env))) && g.progOutputs == q.outputs
    && n in g.nodes && (|g.mlmi[n].inputs| > cfg.lin || |g.mlmi[n].outputs| > cfg.lout || |g.mlmi[n].instrs| > cfg.s)
  }

  /** `main` with universalization, up to the serializer. */
  method CompileUniversal(p: Frontend.Program, cfg: Config, le: nat, fits: Clusterizer.Fits, simple: bool, fast: bool, depth: nat, width: nat)
    returns (c: Outcome)
    requires Frontend.Below(p) && Frontend.DefinedBeforeUse(p) && Frontend.OutputsExist(p) && ConfigOk(cfg, le) && (p.inputs == [] || 0 in p.inputs)
    ensures cfg.lout <= cfg.r && OutcomeOk(p, cfg, Flags(le, fits, fast, depth, width), c)
  {
    hide *;
    ConfigIs(cfg, le);
    ghost var f := Flags(le, fits, fast, depth, width);
    var q := Frontend.Passes(p);
    Midend.PassesGiveFlat(q);
    Midend.SameSize(p, q);
    var lim := LimitsOf(cfg);
    var dfg := Midend.BuildAndCluster(q.instrs, ToSet(q.inputs), q.outputs, lim, fits, simple, fast);
    dfg.ValidParts();
    dfg.ViewIs();
    IntegralParts(dfg.View());
    NodesKnown(dfg.View());
    ContainedBelow(q);
    var g := Graph(dfg.nodes, dfg.mlmi, dfg.forwardEdges, dfg.backwardEdges, dfg.progInputs, dfg.progOutputs);
    MakeFront(p, cfg, f, q, g);
    if n :| n in g.nodes && (|g.mlmi[n].inputs| > lim.lin || |g.mlmi[n].outputs| > lim.lout || |g.mlmi[n].instrs| > lim.s) {
      LimitsOk(p, cfg, f, q, g, n);
      return LimitsLeft(q, g, n);
    }
    forall n | n in g.nodes ensures NodeWithin(g.mlmi[n], lim) { MakeWithin(g, n, lim); }
    var u;
    ghost var rho;
    u, rho := Universalize.UniversalizeGraph(g, q.memoryCount, dfg.nextId, lim, le, depth, width);
    if u.None? {
      NothingOk(p, cfg, f, g.progInputs);
      return Nothing;
    }
    var st := u.value;
    SoundParts(g, q.memoryCount, st, rho);
    TracksParts(g, q.memoryCount, st.g, rho, st.k);
    NodesKnown(st.g);
    var order := ToLlir(st.g);
    UniversalFits(st, cfg, lim);
    var llir := LowerAllNodes(st.g, order.value, q.inputs, st.k, cfg);
    if llir.None? {
      RegistersOk(p, cfg, f, q, g, st);
      return NoRegisters(q, g, st);
    }
    UniversalUnread(g, q.memoryCount, st, rho);
    FirstInput(p, st.g, ToSet(q.inputs));
    LoweredOutputs(st.g, order.value, cfg, llir.value);
    if Serializer.Serializable(llir.value, cfg) && 2 <= llir.value.memoryCount <= 0x100_0000 { LoweredRunnable(st.g, order.value, cfg, llir.value); }
    if Clean(st.g, cfg) { FaithfulWhenClean(p, q, cfg, g, st, rho, order.value, llir.value); }
    if Returning(g) { ReturningClean(st.g, cfg); }
    if Plain(p) { PlainIs(p, q); }
    MakeBack(cfg, f, g, st, order.value, llir.value);
    MakeCompiled(p, cfg, f, q, g, st, llir.value);
    return Lowered(q, g, st, llir.value);
  }

  lemma MakeFront(p: Frontend.Program, cfg: Config, f: Flags, q: Frontend.Program, clustered: Graph)
    requires Frontend.SameOutputs(p, q) && Frontend.NoDeadCode(q) && Frontend.ReadsNoCopies(p, q)
    requires Midend.ClusteredFrom(q.instrs, ToSet(q.inputs), q.outputs, clustered, LimitsOf(cfg), f.fits, f.fast)
    ensures FrontOk(p, cfg, f, q, clustered)
  {
    hide Frontend.SameOutputs; hide Frontend.NoDeadCode; hide Frontend.ReadsNoCopies; hide Midend.ClusteredFrom;
  }

  lemma MakeBack(cfg: Config, f: Flags, clustered: Graph, st: St, order: seq<nat>, llir: Program)
    requires NodesOk(st.g) && Universalize.Universalized(st, f.le, |clustered.progInputs|, |ToSet(clustered.progOutputs)|, f.depth, f.width)
    requires IsOrder(st.g, order) && IsLowered(st.g, order, cfg, llir)
    ensures LoweredOk(cfg, f, clustered, st, llir)
  {
    hide NodesOk; hide Universalize.Universalized; hide IsOrder; hide IsLowered;
  }

  lemma LimitsOk(p: Frontend.Program, cfg: Config, f: Flags, q: Frontend.Program, g: Graph, n: nat)
    requires cfg.lout <= cfg.r && FrontOk(p, cfg, f, q, g) && NodesOk(g) && (forall ops: Ops, env: Env :: Models(ops, g, Run(ops, q.instrs, env))) && g.progOutputs == q.outputs
    requires n in g.nodes && n in g.mlmi && (|g.mlmi[n].inputs| > cfg.lin || |g.mlmi[n].outputs| > cfg.lout || |g.mlmi[n].instrs| > cfg.s)
    ensures OutcomeOk(p, cfg, f, LimitsLeft(q, g, n))
  {
    hide FrontOk; hide NodesOk; hide Models; hide Run;
    assert Exceeds(cfg, q, g, n);
  }

  lemma NothingOk(p: Frontend.Program, cfg: Config, f: Flags, inputs: set<nat>)
    requires cfg.lout <= cfg.r && inputs == ToSet(p.inputs) && (inputs == {} || (p.outputs == [] && f.width == 0 && f.depth <= 1))
    ensures OutcomeOk(p, cfg, f, Nothing)
  {
    if p.inputs != [] { assert p.inputs[0] in inputs; }
  }

  lemma RegistersOk(p: Frontend.Program, cfg: Config, f: Flags, q: Frontend.Program, clustered: Graph, st: St)
    requires cfg.lout <= cfg.r && FrontOk(p, cfg, f, q, clustered) && Universalize.Universalized(st, f.le, |clustered.progInputs|, |ToSet(clustered.progOutputs)|, f.depth, f.width)
    requires AllSafe(st.g, cfg) ==> !AllEnough(st.g, cfg)
    ensures OutcomeOk(p, cfg, f, NoRegisters(q, clustered, st))
  {
    hide AllSafe; hide AllEnough; hide FrontOk; hide Universalize.Universalized;
  }

  lemma ConfigIs(cfg: Config, le: nat)
    requires ConfigOk(cfg, le)
    ensures le >= 1 && cfg.lin == cfg.lout == Bits.Pow2(le) && cfg.s >= cfg.lin && cfg.lin + cfg.lout <= cfg.r <= 0x100_0000 && 2 <= cfg.lout
    ensures LimitsOf(cfg).lin == cfg.lin && LimitsOf(cfg).lout == cfg.lout && LimitsOf(cfg).s == cfg.s
  {
    Universalize.AtLeastTwo(le);
  }

  lemma ContainedBelow(q: Frontend.Program)
    requires Frontend.Contained(q)
    ensures Midend.AllBelow(q.instrs, ToSet(q.inputs), q.memoryCount)
  {
  }

  lemma MakeWithin(g: Graph, n: nat, lim: Limits)
    requires Clusterizer.DistinctOutputs(g) && n in g.nodes && n in g.mlmi && |g.mlmi[n].inputs| <= lim.lin && |g.mlmi[n].outputs| <= lim.lout && |g.mlmi[n].instrs| <= lim.s
    ensures NodeWithin(g.mlmi[n], lim)
  {
    hide NoRepeat;
  }

  lemma UniversalFits(st: St, cfg: Config, lim: Limits)
    requires NodesOk(st.g) && Within(st, lim) && lim.lin == cfg.lin && lim.lout == cfg.lout && lim.s == cfg.s && cfg.lin >= 1 && cfg.lin + cfg.lout <= cfg.r
    ensures AllFit(st.g, cfg)
  {
    hide NodeOk; hide NoRepeat;
    forall n | n in st.g.nodes ensures n in st.g.mlmi && NodeFits(st.g.mlmi[n], cfg) { assert NodeWithin(st.g.mlmi[n], lim); }
  }

  lemma FirstInput(p: Frontend.Program, g: Graph, inputs: set<nat>)
    requires g.progInputs == inputs == ToSet(p.inputs) && inputs != {} && (p.inputs == [] || 0 in p.inputs)
    ensures 0 in g.progInputs
  {
  }

  lemma MakeCompiled(p: Frontend.Program, cfg: Config, f: Flags, q: Frontend.Program, clustered: Graph, st: St, llir: Program)
    requires cfg.lout <= cfg.r && llir.inputs == p.inputs && (Serializer.Serializable(llir, cfg) && 2 <= llir.memoryCount <= 0x100_0000 ==> Simulation.Runnable(llir, cfg))
    requires (Clean(st.g, cfg) ==> Faithful(p, cfg, llir)) && (Returning(clustered) ==> Clean(st.g, cfg)) && (Plain(p) ==> Returning(clustered))
    requires FrontOk(p, cfg, f, q, clustered) && LoweredOk(cfg, f, clustered, st, llir)
    ensures OutcomeOk(p, cfg, f, Lowered(q, clustered, st, llir))
  {
    hide Serializer.Serializable; hide Simulation.Runnable; hide Clean; hide Faithful; hide Returning; hide Plain; hide FrontOk; hide LoweredOk;
  }

  // ----- and the runtime -----

  /** The format holds the program: memory indices of at most three bytes, and nothing the serializer refuses. */
  predicate Writable(llir: Program, cfg: Config) {
    2 <= llir.memoryCount <= 0x100_0000 && Serializer.Serializable(llir, cfg)
  }

  /** Compiling, serializing and interpreting: a lowered program that can be written runs without a failed decryption, and the
      words returned are the outputs of the source program on the given inputs, for every meaning of the opcodes, every initial
      memory and every choice made on the way. This holds when the allocator's conditions hold of the universalized graph, so
      when every clusterized node returns everything it computes, and outright when the source program does. */
  method CompileAndRun(e: SecureElement.Element, ops: Ops, p: Frontend.Program, cfg: Config, le: nat, fits: Clusterizer.Fits, simple: bool, fast: bool, depth: nat, width: nat,
                       key: Key, sealedKey: seq<ByteView.Byte>, inps: seq<Word>)
    returns (c: Outcome, out: Option<seq<Word>>)
    requires Frontend.Below(p) && Frontend.DefinedBeforeUse(p) && Frontend.OutputsExist(p) && ConfigOk(cfg, le) && (p.inputs == [] || 0 in p.inputs)
    requires |sealedKey| == 64 && e.open(sealedKey) == Some(key) && |inps| == |p.inputs| && |inps| < 0x1_0000_0000
    ensures cfg.lout <= cfg.r && OutcomeOk(p, cfg, Flags(le, fits, fast, depth, width), c) && (out.Some? <==> c.Lowered? && Writable(c.llir, cfg))
    ensures out.Some? && (Clean(c.st.g, cfg) || Returning(c.clustered) || Plain(p)) ==> forall env: Env :: Given(p, env, inps) ==> out.value == OutputsOf(ops, p, env)
  {
    hide *;
    ConfigIs(cfg, le);
    c := CompileUniversal(p, cfg, le, fits, simple, fast, depth, width);
    out := None;
    if !c.Lowered? { return; }
    WritableIs(c.llir, cfg);
    if !Writable(c.llir, cfg) { return; }
    CompiledIs(p, cfg, Flags(le, fits, fast, depth, width), c.q, c.clustered, c.st, c.llir);
    out := Interpreter.SerializeAndInterpret(e, ops, cfg, c.llir, key, sealedKey, inps);
    ghost var some := SomeResult(ops, c.llir, cfg, inps, out);
    if Clean(c.st.g, cfg) { forall env: Env | Given(p, env, inps) ensures out == Some(OutputsOf(ops, p, env)) { FaithfulAt(p, cfg, c.llir, ops, env, inps, out); } }
  }

  lemma WritableIs(llir: Program, cfg: Config)
    ensures Writable(llir, cfg) <==> 2 <= llir.memoryCount <= 0x100_0000 && Serializer.Serializable(llir, cfg)
  {
    hide Serializer.Serializable;
  }

  lemma CompiledIs(p: Frontend.Program, cfg: Config, f: Flags, q: Frontend.Program, clustered: Graph, st: St, llir: Program)
    requires cfg.lout <= cfg.r && OutcomeOk(p, cfg, f, Lowered(q, clustered, st, llir))
    ensures llir.inputs == p.inputs && (Serializer.Serializable(llir, cfg) && 2 <= llir.memoryCount <= 0x100_0000 ==> Simulation.Runnable(llir, cfg))
    ensures (Clean(st.g, cfg) ==> Faithful(p, cfg, llir)) && (Returning(clustered) ==> Clean(st.g, cfg)) && (Plain(p) ==> Returning(clustered))
  {
    hide Serializer.Serializable; hide Simulation.Runnable; hide Clean; hide Faithful; hide Returning; hide Plain; hide FrontOk; hide LoweredOk;
  }

  lemma SomeResult(ops: Ops, llir: Program, cfg: Config, inps: seq<Word>, out: Option<seq<Word>>) returns (w: seq<Word>)
    requires Interpreter.IsResult(ops, llir, cfg, inps, out)
    ensures out == Some(w)
  {
    hide *;
    var gs := ResultFrom(ops, llir, cfg, inps, out);
    w := out.value;
  }

  lemma FaithfulAt(p: Frontend.Program, cfg: Config, llir: Program, ops: Ops, env: Env, inps: seq<Word>, r: Option<seq<Word>>)
    requires Faithful(p, cfg, llir) && Given(p, env, inps) && Interpreter.IsResult(ops, llir, cfg, inps, r)
    ensures r == Some(OutputsOf(ops, p, env))
  {
    hide Given; hide Interpreter.IsResult; hide OutputsOf;
  }
}
