/** More steps on layered graphs, for compiler/src/universalization/universalizer.py: a new layer, other program
    outputs of the same origin, an unused input, and an intermediate result as output. */
module UniversalOps {
  import opened IR
  import opened Graphs
  import opened Dfg
  import opened DfgSchedule
  import opened DfgMerge
  import opened Copies
  import opened Tracking
  import opened Layerize
  import opened LayeredGraph

  /** Edges go from earlier to later layers, so the graph is acyclic. */
  lemma SoundAcyclic(g0: Graph, first: nat, st: St, rho: Origins)
    requires Sound(g0, first, st, rho)
    ensures Acyclic(st.g.fwd)
  {
    hide *;
    SoundParts(g0, first, st, rho);
    forall a, b | b in Succ(st.g.fwd, a) ensures Rank(st, a) < Rank(st, b) { EdgeClimbs(g0, first, st, rho, a, b); }
    RankedIsAcyclic(st.g.fwd, (n: nat) => Rank(st, n));
  }

  function Rank(st: St, n: nat): nat {
    if n in st.nl then st.nl[n] else 0
  }

  lemma EdgeClimbs(g0: Graph, first: nat, st: St, rho: Origins, a: nat, b: nat)
    requires Sound(g0, first, st, rho) && b in Succ(st.g.fwd, a)
    ensures Rank(st, a) < Rank(st, b)
  {
    SoundParts(g0, first, st, rho);
    var v := EdgeShares(st.g, a, b);
    OutputAssigned(st.g, a, v);
    hide Sound; hide Tracks; hide Below; hide NodeOk; hide Available; hide InLayers; hide FwdOk; hide BackOk; hide OriginsOk; hide AvailableOk; hide Succ;
    assert Level(st, v) < st.nl[b];
  }

  // ----- a new layer -----

  function Shift(l: nat, at: nat): nat {
    if l >= at then l + 1 else l
  }

  function InsertLayer(st: St, at: nat): St
    requires at <= |st.layers|
  {
    st.(layers := st.layers[..at] + [[]] + st.layers[at..], nl := map n | n in st.nl :: Shift(st.nl[n], at))
  }

  lemma InsertNumbered(st: St, at: nat)
    requires Numbered(st) && at <= |st.layers|
    ensures Numbered(InsertLayer(st, at))
  {
    var t := InsertLayer(st, at);
    forall i, n | 0 <= i < |t.layers| ensures n in t.layers[i] <==> n in t.nl && t.nl[n] == i {
      if i < at { assert t.layers[i] == st.layers[i]; } else if i > at { assert t.layers[i] == st.layers[i - 1]; }
    }
  }

  lemma InsertLevel(st: St, at: nat, m: nat)
    requires at <= |st.layers|
    ensures var l := Level(st, m);
      if l >= at then Level(InsertLayer(st, at), m) == l + 1 else Level(InsertLayer(st, at), m) == l
  {
  }

  lemma InsertSound(g0: Graph, first: nat, st: St, rho: Origins, at: nat)
    requires Sound(g0, first, st, rho) && at <= |st.layers|
    ensures Sound(g0, first, InsertLayer(st, at), rho)
    ensures forall m: nat :: Level(InsertLayer(st, at), m) == if Level(st, m) >= at then Level(st, m) + 1 else Level(st, m)
  {
    hide *;
    SoundParts(g0, first, st, rho);
    InsertNumbered(st, at);
    forall m: nat ensures Level(InsertLayer(st, at), m) == if Level(st, m) >= at then Level(st, m) + 1 else Level(st, m) { InsertLevel(st, at, m); }
    InsertOrdered(st, at);
    MakeSound(g0, first, InsertLayer(st, at), rho);
  }

  lemma InsertOrdered(st: St, at: nat)
    requires NodesOk(st.g) && st.nl.Keys == st.g.nodes && Ordered(st) && at <= |st.layers| && Numbered(InsertLayer(st, at))
    requires forall m: nat :: Level(InsertLayer(st, at), m) == if Level(st, m) >= at then Level(st, m) + 1 else Level(st, m)
    ensures InsertLayer(st, at).g == st.g && InsertLayer(st, at).k == st.k && Ordered(InsertLayer(st, at))
  {
    hide NodeOk; hide Level; hide InLayers;
    var t := InsertLayer(st, at);
    forall n, m | n in t.g.nodes && m in t.g.mlmi[n].inputs ensures Level(t, m) < t.nl[n] { assert Level(st, m) < st.nl[n]; }
  }

  // ----- other program outputs -----

  function SetOutputs(st: St, outs: seq<nat>): St {
    st.(g := st.g.(progOutputs := outs))
  }

  ghost predicate SameOrigins(rho: Origins, a: seq<nat>, b: seq<nat>) {
    |a| == |b| && forall i :: 0 <= i < |a| ==> OriginOf(rho, a[i]) == OriginOf(rho, b[i])
  }

  lemma SetOutputsSound(g0: Graph, first: nat, st: St, rho: Origins, outs: seq<nat>)
    requires Sound(g0, first, st, rho) && BackOk(st.g) && SameOrigins(rho, outs, st.g.progOutputs) && SameRepeats(st.g.progOutputs, outs) && forall o :: o in outs ==> Available(st.g, o)
    ensures Sound(g0, first, SetOutputs(st, outs), rho) && (forall m: nat :: Level(SetOutputs(st, outs), m) == Level(st, m))
    ensures BackOk(SetOutputs(st, outs).g) && forall x: nat :: Available(st.g, x) ==> Available(SetOutputs(st, outs).g, x)
  {
    var t := SetOutputs(st, outs);
    SoundParts(g0, first, st, rho);
    TracksParts(g0, first, st.g, rho, st.k);
    hide Sound; hide Tracks; hide NodeOk; hide InLayers; hide OriginsOk; hide OriginOf; hide Assigns; hide Shares;
    assert NodesOk(t.g) && BackOk(t.g) && FwdOk(t.g);
    forall x: nat | Available(st.g, x) ensures Available(t.g, x) { }
    assert AvailableOk(t.g);
    SetOutputsBelow(st, outs);
    forall ops: Ops, val: Env | Models(ops, g0, val) ensures Models(ops, t.g, Pull(val, rho)) {
      CarriesAt(g0, st.g, rho, ops, val);
      SetOutputsModels(ops, st.g, outs, Pull(val, rho));
    }
    hide *;
    MakeIntegral(t.g);
    SetOutputsIs(st, outs);
    OutputOrigins(g0, st.g, rho, outs);
    ReturningSame(st.g, t.g);
    RepeatsTrans(g0.progOutputs, st.g.progOutputs, outs);
    MakeTracks(g0, first, t.g, rho, t.k);
    SetOutputsOrdered(st, outs);
    MakeSound(g0, first, t, rho);
  }

  lemma ReturningSame(g: Graph, h: Graph)
    requires h.nodes == g.nodes && h.mlmi == g.mlmi
    ensures Returning(g) ==> Returning(h)
  {
    hide Returns;
  }

  lemma OutputOrigins(g0: Graph, g: Graph, rho: Origins, outs: seq<nat>)
    requires |g.progOutputs| == |g0.progOutputs| && (forall i :: 0 <= i < |g.progOutputs| ==> OriginOf(rho, g.progOutputs[i]) == Of(g0.progOutputs[i]))
    requires SameOrigins(rho, outs, g.progOutputs)
    ensures |outs| == |g0.progOutputs| && forall i :: 0 <= i < |outs| ==> OriginOf(rho, outs[i]) == Of(g0.progOutputs[i])
  {
    hide OriginOf;
  }

  lemma SetOutputsIs(st: St, outs: seq<nat>)
    ensures var t := SetOutputs(st, outs);
      t.g.progOutputs == outs && t.g.progInputs == st.g.progInputs && t.k == st.k && t.nl == st.nl && t.layers == st.layers && t.g.nodes == st.g.nodes && t.g.mlmi == st.g.mlmi && t.g.back == st.g.back && t.g.fwd == st.g.fwd
  {
  }

  lemma SetOutputsModels(ops: Ops, g: Graph, outs: seq<nat>, val: Env)
    requires NodesOk(g) && NodesOk(g.(progOutputs := outs)) && Models(ops, g, val)
    ensures Models(ops, g.(progOutputs := outs), val)
  {
    hide NodeOk; hide Compute;
  }

  lemma SetOutputsBelow(st: St, outs: seq<nat>)
    requires NodesOk(st.g) && BackOk(st.g) && Below(st.g, st.k) && (forall o :: o in outs ==> Available(st.g, o)) && NodesOk(SetOutputs(st, outs).g)
    ensures Below(SetOutputs(st, outs).g, st.k)
  {
    hide NodeOk; hide NodeBelow; hide BackOk; hide Available;
    forall o | o in outs ensures o < st.k { AvailableBelow(st.g, st.k, o); }
  }

  lemma SetOutputsOrdered(st: St, outs: seq<nat>)
    requires NodesOk(st.g) && Numbered(st) && Ordered(st) && NodesOk(SetOutputs(st, outs).g)
    ensures Numbered(SetOutputs(st, outs)) && Ordered(SetOutputs(st, outs)) && forall m: nat :: Level(SetOutputs(st, outs), m) == Level(st, m)
  {
    hide NodeOk; hide InLayers;
    var t := SetOutputs(st, outs);
    forall n, m | n in t.g.nodes && m in t.g.mlmi[n].inputs ensures Level(t, m) < t.nl[n] { assert Level(st, m) < st.nl[n]; }
  }

  // ----- an input that is not read -----

  function AddInput(st: St, n: nat, m: nat): St
    requires n in st.g.mlmi
  {
    var mi := st.g.mlmi[n];
    st.(g := Graph(st.g.nodes, st.g.mlmi[n := Mlmi(mi.instrs, mi.inputs + [m], mi.outputs)], EdgeFor(st.g.fwd, st.g.back, st.g.progInputs, m, n),
                   st.g.back, st.g.progInputs, st.g.progOutputs))
  }

  lemma RenamedNothing(s: seq<Instr>)
    ensures RenamedAll(map[], s) == s
  {
  }

  lemma AddInputIs(st: St, n: nat, m: nat)
    requires n in st.g.mlmi
    ensures var t := AddInput(st, n, m);
      && t.g == WithRewired(st.g, n, st.g.mlmi[n].inputs + [m], map[], t.g.fwd) && n in t.g.mlmi && t.g.mlmi[n] == Rewired(st.g.mlmi[n], st.g.mlmi[n].inputs + [m], map[])
      && t.g.mlmi[n] == Mlmi(st.g.mlmi[n].instrs, st.g.mlmi[n].inputs + [m], st.g.mlmi[n].outputs) && t.g.mlmi == st.g.mlmi[n := t.g.mlmi[n]]
      && t.g.fwd == EdgeFor(st.g.fwd, st.g.back, st.g.progInputs, m, n) && t.k == st.k && t.nl == st.nl && t.layers == st.layers && t.nextId == st.nextId
      && t.g.back == st.g.back && t.g.progInputs == st.g.progInputs && t.g.nodes == st.g.nodes && t.g.progOutputs == st.g.progOutputs
  {
    hide RenamedAll; hide EdgeFor;
    RenamedNothing(st.g.mlmi[n].instrs);
  }

  /** Taking one more cell of an earlier layer as input keeps everything. */
  lemma AddInputSound(g0: Graph, first: nat, st: St, rho: Origins, n: nat, m: nat)
    requires Sound(g0, first, st, rho) && BackOk(st.g) && CanCopy(st, n, m, false) && n in st.g.mlmi
    ensures Sound(g0, first, AddInput(st, n, m), rho) && (forall x: nat :: Level(AddInput(st, n, m), x) == Level(st, x))
    ensures BackOk(AddInput(st, n, m).g) && forall x: nat :: Available(st.g, x) ==> Available(AddInput(st, n, m).g, x)
  {
    hide *;
    SoundParts(g0, first, st, rho);
    CanCopyParts(st, n, m, false);
    var t, inputs := AddInput(st, n, m), st.g.mlmi[n].inputs + [m];
    AddInputIs(st, n, m);
    InputsWith(g0, first, st, rho, n, m, inputs);
    EarlierUnassigned(st, n, m);
    EdgeForFollows(st.g, t.g, n, t.g.mlmi[n], m);
    forall x | x in st.g.mlmi[n].inputs ensures Renamed(map[], x) in inputs { RenamedSame(x); }
    RewireGood(st.g, n, inputs, map[], t.g.fwd);
    ChangeIntegral(st.g, t.g, n, t.g.mlmi[n], {});
    TracksRewire(g0, first, st.g, rho, st.k, n, inputs, map[], t.g.fwd);
    TracksParts(g0, first, t.g, rho, t.k);
    forall x: nat ensures Level(t, x) == Level(st, x) { LevelSame(st, t, x); }
    forall x: nat | Available(st.g, x) ensures Available(t.g, x) { ChangedAvailable(st.g, t.g, n, t.g.mlmi[n], {}, x); }
    OrderedNode(st, t, n);
    NumberedSame(st, t, n);
    MakeSound(g0, first, t, rho);
  }

  lemma RenamedSame(x: nat)
    ensures Renamed(map[], x) == x
  {
  }

  lemma InputsWith(g0: Graph, first: nat, st: St, rho: Origins, n: nat, m: nat, inputs: seq<nat>)
    requires Sound(g0, first, st, rho) && BackOk(st.g) && CanCopy(st, n, m, false) && n in st.g.mlmi && inputs == st.g.mlmi[n].inputs + [m]
    ensures forall x :: x in inputs ==> Available(st.g, x) && x < st.k && Level(st, x) < st.nl[n] && !Assigns(st.g.mlmi[n].instrs, x)
  {
    hide *;
    CopyInputs(g0, first, st, rho, n, m, false, true, WithInput(st.g.mlmi[n].inputs, m, true));
  }

  /** A change of one node that keeps all levels, with inputs of earlier layers. */
  lemma OrderedNode(st: St, t: St, n: nat)
    requires NodesOk(st.g) && NodesOk(t.g) && st.nl.Keys == st.g.nodes && Ordered(st) && t.nl == st.nl && t.g.nodes == st.g.nodes && n in t.g.mlmi && n in st.g.nodes
    requires t.g.mlmi == st.g.mlmi[n := t.g.mlmi[n]] && (forall x: nat :: Level(t, x) == Level(st, x))
    requires forall x :: x in t.g.mlmi[n].inputs ==> Level(st, x) < st.nl[n]
    ensures Ordered(t)
  {
    hide NodeOk; hide Level;
  }

  lemma NumberedSame(st: St, t: St, n: nat)
    requires Numbered(st) && n in st.g.mlmi && n in t.g.mlmi && t.nl == st.nl && t.layers == st.layers && t.nextId == st.nextId && t.g.nodes == st.g.nodes
    requires t.g.mlmi == st.g.mlmi[n := t.g.mlmi[n]]
    ensures Numbered(t)
  {
    hide InLayers;
  }

  // ----- an intermediate result as output -----

  function Expose(st: St, n: nat, v: nat): St
    requires n in st.g.mlmi
  {
    var mi := st.g.mlmi[n];
    st.(g := Graph(st.g.nodes, st.g.mlmi[n := Mlmi(mi.instrs, mi.inputs, mi.outputs + [v])], st.g.fwd, st.g.back[v := n], st.g.progInputs, st.g.progOutputs))
  }

  lemma ExposeGood(st: St, n: nat, v: nat)
    requires Integral(st.g) && n in st.g.nodes && n in st.g.mlmi && Assigns(st.g.mlmi[n].instrs, v) && v !in st.g.mlmi[n].outputs
    ensures var t := Expose(st, n, v); Good(st.g, t.g, n, t.g.mlmi[n], {}) && t.g.back == st.g.back
  {
    var t := Expose(st, n, v);
    var g, mi := st.g, t.g.mlmi[n];
    IntegralParts(g);
    assert g.back[v] == n;
    assert t.g.back == g.back;
    ExposedOk(g.mlmi[n], mi, v);
    SameEdgesFollow(g, t.g, n, mi);
    UnreadOutput(g, n, v);
    hide NodeOk; hide Assigns; hide EdgesFollow; hide FwdOk; hide BackOk; hide Available;
    assert Changes(g, t.g, n, mi, {}) && Unused(g, {});
    forall m | m in mi.inputs ensures Available(g, m) { }
  }

  lemma ExposedOk(n: Mlmi, mi: Mlmi, v: nat)
    requires NodeOk(n) && Assigns(n.instrs, v) && mi == Mlmi(n.instrs, n.inputs, n.outputs + [v])
    ensures NodeOk(mi)
  {
    hide SingleAssign; hide Scheduled; hide Assigns;
  }

  /** What is not an output is read by no other node. */
  lemma UnreadOutput(g: Graph, n: nat, v: nat)
    requires NodesOk(g) && BackOk(g) && AvailableOk(g) && n in g.nodes && v in g.back && g.back[v] == n && v !in g.mlmi[n].outputs
    ensures forall y :: y in g.nodes ==> v !in g.mlmi[y].inputs
  {
    hide NodeOk; hide Assigns;
    forall y | y in g.nodes ensures v !in g.mlmi[y].inputs {
      assert v in g.mlmi[y].inputs ==> Available(g, v);
    }
  }

  lemma ExposeIs(st: St, n: nat, v: nat)
    requires n in st.g.mlmi
    ensures var t := Expose(st, n, v);
      && n in t.g.mlmi && t.g.mlmi[n] == Mlmi(st.g.mlmi[n].instrs, st.g.mlmi[n].inputs, st.g.mlmi[n].outputs + [v]) && t.g.mlmi == st.g.mlmi[n := t.g.mlmi[n]]
      && t.k == st.k && t.nl == st.nl && t.layers == st.layers && t.nextId == st.nextId && t.g.progInputs == st.g.progInputs && t.g.nodes == st.g.nodes
      && t.g.progOutputs == st.g.progOutputs
  {
  }

  lemma ExposeTracks(g0: Graph, first: nat, st: St, rho: Origins, n: nat, v: nat)
    requires Tracks(g0, first, st.g, rho, st.k) && n in st.g.nodes && n in st.g.mlmi && v < st.k
    requires var t := Expose(st, n, v); Good(st.g, t.g, n, t.g.mlmi[n], {}) && Integral(t.g) && t.g.back == st.g.back
    ensures Tracks(g0, first, Expose(st, n, v).g, rho, st.k)
  {
    hide *;
    var t := Expose(st, n, v);
    TracksParts(g0, first, st.g, rho, st.k);
    IntegralParts(t.g);
    ExposeIs(st, n, v);
    ExposeBelow(st, n, v);
    forall ops: Ops, val: Env | Models(ops, g0, val) ensures Models(ops, t.g, Pull(val, rho)) {
      CarriesAt(g0, st.g, rho, ops, val);
      NodeComputes(ops, st.g, n, Pull(val, rho));
      ChangedModel(ops, st.g, t.g, n, t.g.mlmi[n], {}, Pull(val, rho), Pull(val, rho), st.k);
    }
    MoreReturned(st.g.mlmi[n], v);
    ReturningChanged(st.g, t.g, n, t.g.mlmi[n]);
    MakeTracks(g0, first, t.g, rho, t.k);
  }

  lemma MoreReturned(n: Mlmi, v: nat)
    ensures Returns(n) ==> Returns(Mlmi(n.instrs, n.inputs, n.outputs + [v]))
  {
  }

  lemma NodeComputes(ops: Ops, g: Graph, n: nat, val: Env)
    requires NodesOk(g) && n in g.nodes && Models(ops, g, val)
    ensures Computes(ops, g.mlmi[n].instrs, val)
  {
    hide NodeOk; hide Compute;
  }

  lemma ExposeBelow(st: St, n: nat, v: nat)
    requires NodesOk(st.g) && Below(st.g, st.k) && n in st.g.nodes && n in st.g.mlmi && v < st.k && NodesOk(Expose(st, n, v).g)
    ensures Below(Expose(st, n, v).g, st.k)
  {
    hide NodeOk; hide InstrBelow;
    assert NodeBelow(st.g.mlmi[n], st.k);
  }

  /** Returning an intermediate result as well keeps everything. */
  lemma ExposeSound(g0: Graph, first: nat, st: St, rho: Origins, n: nat, v: nat)
    requires Sound(g0, first, st, rho) && BackOk(st.g) && n in st.g.nodes && n in st.g.mlmi && Assigns(st.g.mlmi[n].instrs, v) && v !in st.g.mlmi[n].outputs
    ensures Sound(g0, first, Expose(st, n, v), rho) && (forall x: nat :: Level(Expose(st, n, v), x) == Level(st, x))
    ensures BackOk(Expose(st, n, v).g) && forall x: nat :: Available(st.g, x) ==> Available(Expose(st, n, v).g, x)
  {
    hide *;
    SoundParts(g0, first, st, rho);
    var t := Expose(st, n, v);
    ExposeGood(st, n, v);
    ExposeIs(st, n, v);
    AssignedBelow(st, n, v);
    ChangeIntegral(st.g, t.g, n, t.g.mlmi[n], {});
    ExposeTracks(g0, first, st, rho, n, v);
    TracksParts(g0, first, t.g, rho, t.k);
    forall x: nat ensures Level(t, x) == Level(st, x) { LevelSame(st, t, x); }
    forall x: nat | Available(st.g, x) ensures Available(t.g, x) { ChangedAvailable(st.g, t.g, n, t.g.mlmi[n], {}, x); }
    NodeOrdered(st, n);
    OrderedNode(st, t, n);
    NumberedSame(st, t, n);
    MakeSound(g0, first, t, rho);
  }

  lemma AssignedBelow(st: St, n: nat, v: nat)
    requires NodesOk(st.g) && BackOk(st.g) && Below(st.g, st.k) && n in st.g.nodes && Assigns(st.g.mlmi[n].instrs, v)
    ensures v < st.k
  {
    hide NodeOk; hide NodeBelow; hide Assigns;
    assert v in st.g.back && st.g.back[v] == n;
  }

  lemma NodeOrdered(st: St, n: nat)
    requires NodesOk(st.g) && st.nl.Keys == st.g.nodes && Ordered(st) && n in st.g.nodes
    ensures forall x :: x in st.g.mlmi[n].inputs ==> Level(st, x) < st.nl[n]
  {
    hide NodeOk; hide Level;
  }
}
