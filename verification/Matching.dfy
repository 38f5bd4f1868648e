/** `equalize_layers` and `match_layers_inputs_outputs` of compiler/src/universalization/universalizer.py: every node of
    the middle layers gets `l_in` inputs and `l_out` outputs. The random choice of an input is an arbitrary one. */
module Matching {
  import opened IR
  import opened Dfg
  import opened DfgSchedule
  import opened DataflowGraph
  import opened Copies
  import opened Tracking
  import opened Layerize
  import opened LayeredGraph
  import opened Rectangularize
  import opened UniversalOps
  import opened Universalizer
  import opened Masking
  import opened Propagation
  import opened Drawing

  // ----- one change of one node -----

  /** What every step of this pass keeps. */
  ghost predicate Keeps(u: Universal, g0: Graph, first: nat)
    reads u
  {
    u.Valid(g0, first) && AllTight(u.st) && OutputsFrom(u.st, |u.st.layers| - 1)
  }

  lemma TightOne(s: St, t: St, rho: Origins, rho2: Origins, n: nat)
    requires AllTight(s) && n in s.nl && n in s.g.nodes && n in s.g.mlmi && OnlyLayer(s, t, rho, rho2, s.nl[n]) && t.nl == s.nl && t.g.nodes == s.g.nodes
    requires n in t.g.mlmi && t.g.mlmi == s.g.mlmi[n := t.g.mlmi[n]] && forall x :: x in t.g.mlmi[n].inputs ==> x < s.k && Level(s, x) + 1 == s.nl[n]
    requires forall y, x :: y in s.g.nodes && y in s.g.mlmi && x in s.g.mlmi[y].inputs ==> x < s.k
    ensures AllTight(t)
  {
    hide Level; hide OriginOf;
    forall y | y in t.g.nodes && y in t.g.mlmi && y in t.nl ensures NodeTight(t, y) { assert NodeTight(s, y); }
  }

  lemma FromStays(s: St, t: St, rho: Origins, rho2: Origins, l: nat, low: int)
    requires OnlyLayer(s, t, rho, rho2, l) && OutputsFrom(s, low) && forall o :: o in s.g.progOutputs ==> o < s.k
    ensures OutputsFrom(t, low)
  {
    hide Level; hide OriginOf;
  }

  /** Node `n` takes one more input from the layer before. */
  method TakeInput(u: Universal, ghost g0: Graph, ghost first: nat, n: nat, m: nat)
    requires Keeps(u, g0, first) && n in u.st.g.nodes && n in u.st.g.mlmi && n in u.st.nl && |u.st.g.mlmi[n].inputs| < u.lim.lin
    requires NodesOk(u.st.g) && BackOk(u.st.g) && Takeable(u.st, m, u.st.nl[n])
    modifies u`st
    ensures Keeps(u, g0, first) && n in old(u.st.nl) && OnlyLayer(old(u.st), u.st, u.rho, u.rho, old(u.st.nl)[n]) && u.st.nl == old(u.st.nl) && u.st.g.nodes == old(u.st.g.nodes)
    ensures n in old(u.st.g.mlmi) && u.st.g.mlmi == old(u.st.g.mlmi)[n := WithMore(old(u.st.g.mlmi[n]), m)] && u.st.k == old(u.st.k) && u.st.layers == old(u.st.layers)
    ensures NodesOk(old(u.st.g)) && BackOk(old(u.st.g)) && NodesOk(u.st.g) && BackOk(u.st.g) && forall z: nat :: Available(old(u.st.g), z) ==> Available(u.st.g, z)
    ensures forall z: nat :: Level(u.st, z) == Level(old(u.st), z)
  {
    hide *;
    ghost var s := u.st;
    KeepsParts(u, g0, first);
    u.ValidParts(g0, first);
    TakeableIs(s, m, s.nl[n]);
    MakeCanCopyAny(s, n, m, false);
    AddInputSound(g0, first, s, u.rho, n, m);
    AddInputIs(s, n, m);
    WithMoreIs(s.g.mlmi[n], m);
    MoreWithin(s, n, m, u.lim);
    AllBelow(g0, first, s, u.rho);
    OutputsBelowK(g0, first, s, u.rho);
    u.st := AddInput(u.st, n, m);
    SoundParts(g0, first, u.st, u.rho);
    u.MakeValid(g0, first);
    OneNodeOnly(s, u.st, u.rho, u.rho, n, s.nl[n]);
    TightInputs(s, n);
    TightOne(s, u.st, u.rho, u.rho, n);
    FromStays(s, u.st, u.rho, u.rho, s.nl[n], |s.layers| - 1);
    MakeKeeps(u, g0, first);
  }

  function WithMore(n: Mlmi, m: nat): Mlmi {
    Mlmi(n.instrs, n.inputs + [m], n.outputs)
  }

  lemma WithMoreIs(n: Mlmi, m: nat)
    ensures WithMore(n, m) == Mlmi(n.instrs, n.inputs + [m], n.outputs)
  {
  }

  lemma KeepsParts(u: Universal, g0: Graph, first: nat)
    requires Keeps(u, g0, first)
    ensures u.Valid(g0, first) && AllTight(u.st) && OutputsFrom(u.st, |u.st.layers| - 1)
  {
    hide AllTight; hide OutputsFrom; hide Universal.Valid;
  }

  lemma MakeKeeps(u: Universal, g0: Graph, first: nat)
    requires u.Valid(g0, first) && AllTight(u.st) && OutputsFrom(u.st, |u.st.layers| - 1)
    ensures Keeps(u, g0, first)
  {
    hide AllTight; hide OutputsFrom; hide Universal.Valid;
  }

  lemma TightInputs(st: St, n: nat)
    requires AllTight(st) && n in st.g.nodes && n in st.g.mlmi && n in st.nl
    ensures forall x :: x in st.g.mlmi[n].inputs ==> Level(st, x) + 1 == st.nl[n]
  {
    assert NodeTight(st, n);
  }

  lemma MoreWithin(st: St, n: nat, m: nat, lim: Limits)
    requires Within(st, lim) && n in st.g.nodes && n in st.g.mlmi && |st.g.mlmi[n].inputs| < lim.lin
    ensures Within(AddInput(st, n, m), lim)
  {
    hide EdgeFor;
    assert NodeWithin(st.g.mlmi[n], lim);
    forall y | y in st.g.nodes && y in st.g.mlmi && y != n ensures NodeWithin(st.g.mlmi[y], lim) { }
  }

  /** Node `n` returns one more of its results. */
  method Return(u: Universal, ghost g0: Graph, ghost first: nat, n: nat, v: nat)
    requires Keeps(u, g0, first) && n in u.st.g.nodes && n in u.st.g.mlmi && n in u.st.nl && |u.st.g.mlmi[n].outputs| < u.lim.lout
    requires Assigns(u.st.g.mlmi[n].instrs, v) && v !in u.st.g.mlmi[n].outputs
    modifies u`st
    ensures Keeps(u, g0, first) && n in old(u.st.nl) && OnlyLayer(old(u.st), u.st, u.rho, u.rho, old(u.st.nl)[n]) && u.st.nl == old(u.st.nl) && u.st.g.nodes == old(u.st.g.nodes)
    ensures n in old(u.st.g.mlmi) && u.st.g.mlmi == old(u.st.g.mlmi)[n := Returning(old(u.st.g.mlmi[n]), v)] && u.st.layers == old(u.st.layers)
  {
    hide *;
    ghost var s := u.st;
    KeepsParts(u, g0, first);
    u.ValidParts(g0, first);
    ExposeSound(g0, first, s, u.rho, n, v);
    ExposeIs(s, n, v);
    ReturningIs(s.g.mlmi[n], v);
    ReturnWithin(s, n, v, u.lim);
    AllBelow(g0, first, s, u.rho);
    OutputsBelowK(g0, first, s, u.rho);
    u.st := Expose(u.st, n, v);
    SoundParts(g0, first, u.st, u.rho);
    u.MakeValid(g0, first);
    OneNodeOnly(s, u.st, u.rho, u.rho, n, s.nl[n]);
    TightInputs(s, n);
    TightOne(s, u.st, u.rho, u.rho, n);
    FromStays(s, u.st, u.rho, u.rho, s.nl[n], |s.layers| - 1);
    MakeKeeps(u, g0, first);
  }

  function Returning(n: Mlmi, v: nat): Mlmi {
    Mlmi(n.instrs, n.inputs, n.outputs + [v])
  }

  lemma ReturningIs(n: Mlmi, v: nat)
    ensures Returning(n, v) == Mlmi(n.instrs, n.inputs, n.outputs + [v]) && |Returning(n, v).outputs| == |n.outputs| + 1
  {
  }

  lemma ReturnWithin(st: St, n: nat, v: nat, lim: Limits)
    requires Within(st, lim) && n in st.g.nodes && n in st.g.mlmi && |st.g.mlmi[n].outputs| < lim.lout && v !in st.g.mlmi[n].outputs
    ensures Within(Expose(st, n, v), lim)
  {
    assert NodeWithin(st.g.mlmi[n], lim);
    forall y | y in st.g.nodes && y in st.g.mlmi && y != n ensures NodeWithin(st.g.mlmi[y], lim) { }
  }

  /** Node `n` returns one more zero. */
  method ReturnZero(u: Universal, ghost g0: Graph, ghost first: nat, n: nat) returns (c: nat)
    requires Keeps(u, g0, first) && n in u.st.g.nodes && n in u.st.g.mlmi && n in u.st.nl && |u.st.g.mlmi[n].outputs| < u.lim.lout && |u.st.g.mlmi[n].instrs| < u.lim.s
    modifies u
    ensures Keeps(u, g0, first) && n in old(u.st.nl) && OnlyLayer(old(u.st), u.st, old(u.rho), u.rho, old(u.st.nl)[n]) && u.st.nl == old(u.st.nl) && u.st.g.nodes == old(u.st.g.nodes)
    ensures n in old(u.st.g.mlmi) && u.st.g.mlmi == old(u.st.g.mlmi)[n := CopiedNode(old(u.st.g.mlmi[n]), c, 0, true)] && u.st.layers == old(u.st.layers)
  {
    hide *;
    ghost var s, r := u.st, u.rho;
    KeepsParts(u, g0, first);
    u.ValidParts(g0, first);
    AllBelow(g0, first, s, r);
    OutputsBelowK(g0, first, s, r);
    c := u.Copy(g0, first, n, 0, true);
    TightCopy(s, u.st, r, u.rho, n, c, 0, true);
    FromStays(s, u.st, r, u.rho, s.nl[n], |s.layers| - 1);
    MakeKeeps(u, g0, first);
  }

  // ----- the outputs of a node -----

  ghost predicate Possible(n: Mlmi, possible: set<nat>) {
    && (forall v :: v in possible <==> Assigns(n.instrs, v) && v !in n.outputs)
    && |n.instrs| <= |n.outputs| + |possible|
  }

  lemma PossibleStart(n: Mlmi)
    requires NodeOk(n)
    ensures Possible(n, DefSet(n.instrs) - ToSet(n.outputs))
  {
    hide Scheduled;
    var d, o := DefSet(n.instrs), ToSet(n.outputs);
    DefSize(n.instrs);
    OutputSize(n.outputs);
    assert d == (d - o) + (d * o);
    assert d * o <= o;
    SetSize(d * o, o);
  }

  lemma {:induction false} DefSize(s: seq<Instr>)
    requires SingleAssign(s)
    ensures |DefSet(s)| == |s|
    decreases |s|
  {
    if s != [] {
      var k := |s| - 1;
      DefSize(s[..k]);
      assert DefSet(s) == DefSet(s[..k]) + {s[k].dst} by {
        forall m ensures m in DefSet(s) <==> m in DefSet(s[..k]) || m == s[k].dst {
          assert s == s[..k] + [s[k]];
          ConsAssigns(s[k], s[..k], m);
        }
      }
      assert s[k].dst !in DefSet(s[..k]);
    }
  }

  lemma {:induction false} OutputSize(s: seq<nat>)
    ensures |ToSet(s)| <= |s|
    decreases |s|
  {
    if s != [] {
      var k := |s| - 1;
      OutputSize(s[..k]);
      assert ToSet(s) == ToSet(s[..k]) + {s[k]};
    }
  }

  lemma SetSize(a: set<nat>, b: set<nat>)
    requires a <= b
    ensures |a| <= |b|
  {
    assert b == a + (b - a);
  }

  lemma PossibleReturn(n: Mlmi, possible: set<nat>, v: nat)
    requires Possible(n, possible) && v in possible
    ensures Possible(Returning(n, v), possible - {v})
  {
    hide Assigns;
    assert |possible - {v}| == |possible| - 1;
  }

  lemma PossibleZero(n: Mlmi, c: nat)
    requires Possible(n, {})
    ensures Possible(CopiedNode(n, c, 0, true), {}) && |CopiedNode(n, c, 0, true).outputs| == |n.outputs| + 1
  {
    hide Assigns;
    var e := CopiedNode(n, c, 0, true);
    forall v ensures Assigns(e.instrs, v) <==> Assigns(n.instrs, v) || v == c { ConsAssigns(MoveZero(c), n.instrs, v); }
  }

  /** The outputs of one node: intermediate results first, then zeros; the zeros never exceed the instruction limit. */
  method PadOutputs(u: Universal, ghost g0: Graph, ghost first: nat, n: nat)
    requires Keeps(u, g0, first) && n in u.st.g.nodes && n in u.st.g.mlmi && n in u.st.nl
    modifies u
    ensures Keeps(u, g0, first) && n in old(u.st.nl) && OnlyLayer(old(u.st), u.st, old(u.rho), u.rho, old(u.st.nl)[n]) && u.st.nl == old(u.st.nl) && u.st.g.nodes == old(u.st.g.nodes)
    ensures u.st.layers == old(u.st.layers) && n in u.st.g.mlmi && |u.st.g.mlmi[n].outputs| == u.lim.lout && n in old(u.st.g.mlmi) && u.st.g.mlmi[n].inputs == old(u.st.g.mlmi[n].inputs)
    ensures forall y :: y in old(u.st.g.mlmi) && y != n ==> y in u.st.g.mlmi && u.st.g.mlmi[y] == old(u.st.g.mlmi[y])
  {
    hide *;
    ghost var s0, r0 := u.st, u.rho;
    KeepsParts(u, g0, first);
    u.ValidParts(g0, first);
    OnlyLayerSelf(s0, r0, s0.nl[n]);
    NodeIsOk(u.st.g, n);
    NodeWithinIs(u.st, n, u.lim);
    PossibleStart(u.st.g.mlmi[n]);
    var possible := DefSet(u.st.g.mlmi[n].instrs) - ToSet(u.st.g.mlmi[n].outputs);
    while |u.st.g.mlmi[n].outputs| != u.lim.lout
      invariant Keeps(u, g0, first) && OnlyLayer(s0, u.st, r0, u.rho, s0.nl[n]) && u.st.nl == s0.nl && u.st.g.nodes == s0.g.nodes && u.st.layers == s0.layers && n in u.st.g.mlmi
      invariant Possible(u.st.g.mlmi[n], possible) && |u.st.g.mlmi[n].outputs| <= u.lim.lout && u.st.g.mlmi[n].inputs == s0.g.mlmi[n].inputs
      invariant forall y :: y in s0.g.mlmi && y != n ==> y in u.st.g.mlmi && u.st.g.mlmi[y] == s0.g.mlmi[y]
      decreases u.lim.lout - |u.st.g.mlmi[n].outputs|
    {
      ghost var s, r := u.st, u.rho;
      if possible != {} {
        var v :| v in possible;
        PossibleIs(s.g.mlmi[n], possible, v);
        PossibleReturn(s.g.mlmi[n], possible, v);
        ReturningIs(s.g.mlmi[n], v);
        Return(u, g0, first, n, v);
        possible := possible - {v};
      } else {
        PossibleIs(s.g.mlmi[n], possible, 0);
        KeepsParts(u, g0, first);
        u.ValidParts(g0, first);
        var c := ReturnZero(u, g0, first, n);
        PossibleZero(s.g.mlmi[n], c);
        CopiedInputs(s.g.mlmi[n], c);
      }
      OnlyLayerTrans(s0, s, u.st, r0, r, u.rho, s0.nl[n]);
    }
  }

  lemma PossibleIs(n: Mlmi, possible: set<nat>, v: nat)
    requires Possible(n, possible)
    ensures (v in possible <==> Assigns(n.instrs, v) && v !in n.outputs) && |n.instrs| <= |n.outputs| + |possible|
  {
    hide Assigns;
  }

  lemma CopiedInputs(n: Mlmi, c: nat)
    ensures CopiedNode(n, c, 0, true).inputs == n.inputs
  {
  }

  lemma NodeIsOk(g: Graph, n: nat)
    requires NodesOk(g) && n in g.nodes
    ensures NodeOk(g.mlmi[n])
  {
    hide NodeOk;
  }

  // ----- the inputs of a node -----

  /** The outputs of the previous layer, all of which can be taken into layer `l`. */
  ghost predicate PrevOk(st: St, prev: set<nat>, l: nat)
    requires NodesOk(st.g) && BackOk(st.g)
  {
    forall m :: m in prev ==> Takeable(st, m, l)
  }

  lemma SomethingLeft(prev: set<nat>, inputs: seq<nat>)
    requires |prev| > |inputs|
    ensures exists m :: m in prev && m !in inputs
  {
    OutputSize(inputs);
    if forall m :: m in prev ==> m in inputs { SetSize(prev, ToSet(inputs)); }
  }

  lemma PrevStays(s: St, t: St, prev: set<nat>, l: nat)
    requires NodesOk(s.g) && BackOk(s.g) && NodesOk(t.g) && BackOk(t.g) && PrevOk(s, prev, l) && t.k == s.k
    requires (forall z: nat :: Level(t, z) == Level(s, z)) && forall z: nat :: Available(s.g, z) ==> Available(t.g, z)
    ensures PrevOk(t, prev, l)
  {
    hide NodeOk; hide BackOk; hide Available; hide Level;
  }

  lemma PrevAt(st: St, prev: set<nat>, l: nat, m: nat)
    requires NodesOk(st.g) && BackOk(st.g) && PrevOk(st, prev, l) && m in prev
    ensures Takeable(st, m, l)
  {
    hide NodeOk; hide BackOk; hide Takeable;
  }

  /** The inputs of one node: arbitrary unused outputs of the layer before, until there are `l_in`. */
  method PadInputs(u: Universal, ghost g0: Graph, ghost first: nat, n: nat, prev: set<nat>)
    requires Keeps(u, g0, first) && n in u.st.g.nodes && n in u.st.g.mlmi && n in u.st.nl && NodesOk(u.st.g) && BackOk(u.st.g)
    requires PrevOk(u.st, prev, u.st.nl[n]) && |prev| >= u.lim.lin
    modifies u`st
    ensures Keeps(u, g0, first) && n in old(u.st.nl) && OnlyLayer(old(u.st), u.st, u.rho, u.rho, old(u.st.nl)[n]) && u.st.nl == old(u.st.nl) && u.st.g.nodes == old(u.st.g.nodes)
    ensures u.st.layers == old(u.st.layers) && n in u.st.g.mlmi && |u.st.g.mlmi[n].inputs| == u.lim.lin && NodesOk(u.st.g) && BackOk(u.st.g) && PrevOk(u.st, prev, old(u.st.nl)[n])
    ensures forall y :: y in old(u.st.g.mlmi) && y != n ==> y in u.st.g.mlmi && u.st.g.mlmi[y] == old(u.st.g.mlmi[y])
  {
    hide *;
    ghost var s0 := u.st;
    KeepsParts(u, g0, first);
    u.ValidParts(g0, first);
    OnlyLayerSelf(s0, u.rho, s0.nl[n]);
    NodeWithinIs(u.st, n, u.lim);
    while |u.st.g.mlmi[n].inputs| != u.lim.lin
      invariant Keeps(u, g0, first) && OnlyLayer(s0, u.st, u.rho, u.rho, s0.nl[n]) && u.st.nl == s0.nl && u.st.g.nodes == s0.g.nodes && u.st.layers == s0.layers && n in u.st.g.mlmi
      invariant |u.st.g.mlmi[n].inputs| <= u.lim.lin && NodesOk(u.st.g) && BackOk(u.st.g) && PrevOk(u.st, prev, s0.nl[n])
      invariant forall y :: y in s0.g.mlmi && y != n ==> y in u.st.g.mlmi && u.st.g.mlmi[y] == s0.g.mlmi[y]
      decreases u.lim.lin - |u.st.g.mlmi[n].inputs|
    {
      ghost var s := u.st;
      SomethingLeft(prev, u.st.g.mlmi[n].inputs);
      var m :| m in prev && m !in u.st.g.mlmi[n].inputs;
      PrevAt(s, prev, s0.nl[n], m);
      WithMoreIs(s.g.mlmi[n], m);
      TakeInput(u, g0, first, n, m);
      PrevStays(s, u.st, prev, s0.nl[n]);
      OnlyLayerTrans(s0, s, u.st, u.rho, u.rho, u.rho, s0.nl[n]);
    }
  }

  // ----- one layer -----

  /** All outputs of the nodes of a layer. */
  method LayerOutputs(st: St, l: nat, ghost g0: Graph, ghost first: nat, ghost rho: Origins) returns (r: set<nat>)
    requires Sound(g0, first, st, rho) && BackOk(st.g) && NodesOk(st.g) && l < |st.layers|
    ensures PrevOk(st, r, l + 1)
    ensures forall n :: n in st.layers[l] ==> n in st.g.mlmi && ToSet(st.g.mlmi[n].outputs) <= r
  {
    hide *;
    LayerNodesKnown(g0, first, st, rho, l);
    r := {};
    NothingTaken(st, l + 1);
    var layer := st.layers[l];
    for i := 0 to |layer|
      invariant PrevOk(st, r, l + 1) && forall j :: 0 <= j < i ==> ToSet(st.g.mlmi[layer[j]].outputs) <= r
    {
      NodeTakeable(g0, first, st, rho, layer[i], l);
      MoreTaken(st, r, ToSet(st.g.mlmi[layer[i]].outputs), l + 1);
      r := r + ToSet(st.g.mlmi[layer[i]].outputs);
    }
  }

  lemma NothingTaken(st: St, l: nat)
    requires NodesOk(st.g) && BackOk(st.g)
    ensures PrevOk(st, {}, l)
  {
  }

  lemma MoreTaken(st: St, a: set<nat>, b: set<nat>, l: nat)
    requires NodesOk(st.g) && BackOk(st.g) && PrevOk(st, a, l) && forall m :: m in b ==> Takeable(st, m, l)
    ensures PrevOk(st, a + b, l)
  {
    hide NodeOk; hide BackOk; hide Takeable;
  }

  lemma NodeTakeable(g0: Graph, first: nat, st: St, rho: Origins, n: nat, l: nat)
    requires Sound(g0, first, st, rho) && BackOk(st.g) && NodesOk(st.g) && n in st.g.nodes && n in st.g.mlmi && n in st.nl && st.nl[n] == l
    ensures forall m :: m in ToSet(st.g.mlmi[n].outputs) ==> Takeable(st, m, l + 1)
  {
    SoundParts(g0, first, st, rho);
    hide Sound; hide Tracks; hide NodeOk; hide BackOk; hide FwdOk; hide AvailableOk; hide Ordered; hide OriginsOk; hide InLayers; hide Assigns; hide Below;
    forall m | m in st.g.mlmi[n].outputs ensures Takeable(st, m, l + 1) {
      OutputAssigned(st.g, n, m);
      AvailableBelow(st.g, st.k, m);
    }
  }

  /** Every node of layer `l` has exactly `l_in` inputs and `l_out` outputs. */
  ghost predicate Full(st: St, lim: Limits, l: nat) {
    l < |st.layers| && forall n :: n in st.layers[l] ==> n in st.g.mlmi && |st.g.mlmi[n].inputs| == lim.lin && |st.g.mlmi[n].outputs| == lim.lout
  }

  ghost predicate FullTo(st: St, lim: Limits, l: nat) {
    forall j :: 1 <= j < l ==> Full(st, lim, j)
  }

  lemma FullStays(s: St, t: St, rho: Origins, rho2: Origins, lim: Limits, l: nat)
    requires OnlyLayer(s, t, rho, rho2, l) && FullTo(s, lim, l) && InLayers(s.nl, s.layers) && l <= |s.layers|
    ensures FullTo(t, lim, l)
  {
    hide Level; hide OriginOf;
    forall j | 1 <= j < l ensures Full(t, lim, j) {
      assert Full(s, lim, j);
      forall n | n in t.layers[j] ensures n in t.g.mlmi && |t.g.mlmi[n].inputs| == lim.lin && |t.g.mlmi[n].outputs| == lim.lout {
        assert n in s.layers[j];
      }
    }
  }

  lemma EnoughOutputs(st: St, lim: Limits, prev: set<nat>, x: nat)
    requires Within(st, lim) && x in st.g.nodes && x in st.g.mlmi && |st.g.mlmi[x].outputs| >= lim.lin && ToSet(st.g.mlmi[x].outputs) <= prev
    ensures |prev| >= lim.lin
  {
    assert NodeWithin(st.g.mlmi[x], lim);
    DistinctSizes(st.g.mlmi[x].outputs);
    SetSize(ToSet(st.g.mlmi[x].outputs), prev);
  }

  lemma {:induction false} DistinctSizes(s: seq<nat>)
    requires NoRepeat(s)
    ensures |ToSet(s)| == |s|
    decreases |s|
  {
    if s != [] {
      var k := |s| - 1;
      DistinctSizes(s[..k]);
      assert ToSet(s) == ToSet(s[..k]) + {s[k]};
      assert s[k] !in s[..k];
    }
  }

  ghost predicate InputsFull(st: St, lim: Limits, layer: seq<nat>, i: nat) {
    i <= |layer| && forall j :: 0 <= j < i ==> layer[j] in st.g.mlmi && |st.g.mlmi[layer[j]].inputs| == lim.lin
  }

  ghost predicate OutputsFull(st: St, lim: Limits, layer: seq<nat>, i: nat) {
    i <= |layer| && forall j :: 0 <= j < i ==> layer[j] in st.g.mlmi && |st.g.mlmi[layer[j]].outputs| == lim.lout
  }

  lemma InputsFullNext(s: St, t: St, lim: Limits, layer: seq<nat>, i: nat)
    requires i < |layer| && InputsFull(s, lim, layer, i) && layer[i] in t.g.mlmi && |t.g.mlmi[layer[i]].inputs| == lim.lin
    requires forall y :: y in s.g.mlmi && y != layer[i] ==> y in t.g.mlmi && t.g.mlmi[y] == s.g.mlmi[y]
    ensures InputsFull(t, lim, layer, i + 1)
  {
  }

  lemma OutputsFullNext(s: St, t: St, lim: Limits, layer: seq<nat>, i: nat)
    requires i < |layer| && OutputsFull(s, lim, layer, i) && InputsFull(s, lim, layer, |layer|)
    requires layer[i] in s.g.mlmi && layer[i] in t.g.mlmi && |t.g.mlmi[layer[i]].outputs| == lim.lout && t.g.mlmi[layer[i]].inputs == s.g.mlmi[layer[i]].inputs
    requires forall y :: y in s.g.mlmi && y != layer[i] ==> y in t.g.mlmi && t.g.mlmi[y] == s.g.mlmi[y]
    ensures OutputsFull(t, lim, layer, i + 1) && InputsFull(t, lim, layer, |layer|)
  {
    forall j | 0 <= j < |layer| ensures layer[j] in t.g.mlmi && |t.g.mlmi[layer[j]].inputs| == lim.lin {
      if layer[j] != layer[i] { assert layer[j] in s.g.mlmi; }
    }
  }

  lemma BothFull(st: St, lim: Limits, l: nat)
    requires l < |st.layers| && InputsFull(st, lim, st.layers[l], |st.layers[l]|) && OutputsFull(st, lim, st.layers[l], |st.layers[l]|)
    ensures Full(st, lim, l)
  {
  }

  lemma NothingFull(st: St, lim: Limits, layer: seq<nat>)
    ensures InputsFull(st, lim, layer, 0) && OutputsFull(st, lim, layer, 0)
  {
  }

  /** The body of the loop of `match_layers_inputs_outputs` for layer `l`. */
  method MatchLayer(u: Universal, ghost g0: Graph, ghost first: nat, l: nat, prev: set<nat>)
    requires Keeps(u, g0, first) && NodesOk(u.st.g) && BackOk(u.st.g) && l < |u.st.layers| && PrevOk(u.st, prev, l) && (u.st.layers[l] != [] ==> |prev| >= u.lim.lin)
    modifies u
    ensures Keeps(u, g0, first) && OnlyLayer(old(u.st), u.st, old(u.rho), u.rho, l) && u.st.layers == old(u.st.layers) && Full(u.st, u.lim, l)
  {
    hide *;
    ghost var s0, r0 := u.st, u.rho;
    var layer := u.st.layers[l];
    OnlyLayerSelf(s0, r0, l);
    NothingFull(u.st, u.lim, layer);
    for i := 0 to |layer|
      invariant Keeps(u, g0, first) && NodesOk(u.st.g) && BackOk(u.st.g) && OnlyLayer(s0, u.st, r0, u.rho, l) && u.st.layers == s0.layers && PrevOk(u.st, prev, l)
      invariant InputsFull(u.st, u.lim, layer, i) && u.rho == r0
    {
      ghost var s := u.st;
      KeepsParts(u, g0, first);
      u.ValidParts(g0, first);
      LayerNodesKnown(g0, first, u.st, u.rho, l);
      PadInputs(u, g0, first, layer[i], prev);
      OnlyLayerTrans(s0, s, u.st, r0, r0, r0, l);
      InputsFullNext(s, u.st, u.lim, layer, i);
    }
    NothingFull(u.st, u.lim, layer);
    for i := 0 to |layer|
      invariant Keeps(u, g0, first) && OnlyLayer(s0, u.st, r0, u.rho, l) && u.st.layers == s0.layers
      invariant InputsFull(u.st, u.lim, layer, |layer|) && OutputsFull(u.st, u.lim, layer, i)
    {
      ghost var s, r := u.st, u.rho;
      KeepsParts(u, g0, first);
      u.ValidParts(g0, first);
      LayerNodesKnown(g0, first, u.st, u.rho, l);
      PadOutputs(u, g0, first, layer[i]);
      OnlyLayerTrans(s0, s, u.st, r0, r, u.rho, l);
      OutputsFullNext(s, u.st, u.lim, layer, i);
    }
    BothFull(u.st, u.lim, l);
  }

  /** Layers that are not the first or last are all empty or all non-empty. */
  ghost predicate Even(st: St) {
    forall j :: 1 < j < |st.layers| - 1 && st.layers[j] != [] ==> st.layers[j - 1] != []
  }

  /** `match_layers_inputs_outputs`: every node between the first and the last layer ends with exactly `l_in` inputs and
      `l_out` outputs, within the limits, and the meaning is kept. */
  method MatchLayers(u: Universal, ghost g0: Graph, ghost first: nat, x: nat)
    requires Keeps(u, g0, first) && u.lim.lin <= u.lim.lout && |u.st.layers| >= 1 && Even(u.st)
    requires x in u.st.nl && u.st.nl[x] == 0 && x in u.st.g.nodes && x in u.st.g.mlmi && |u.st.g.mlmi[x].outputs| >= u.lim.lin
    modifies u
    ensures Keeps(u, g0, first) && u.st.layers == old(u.st.layers) && FullTo(u.st, u.lim, |old(u.st.layers)| - 1) && u.st.g.progInputs == old(u.st.g.progInputs) && Wider(old(u.st), u.st)
    ensures |u.st.layers| >= 2 ==> KeptAt(old(u.st), u.st, 0) && KeptAt(old(u.st), u.st, |u.st.layers| - 1)
  {
    hide *;
    ghost var s0 := u.st;
    var count := |u.st.layers|;
    StartEnds(s0);
    StartFull(u.st, u.lim);
    WiderSame(s0, s0);
    KeepsParts(u, g0, first);
    u.ValidParts(g0, first);
    if count >= 2 {
      var prev := LayerOutputs(u.st, 0, g0, first, u.rho);
      InFirstLayer(u.st, x);
      EnoughOutputs(u.st, u.lim, prev, x);
      for l := 1 to count - 1
        invariant EndsKept(s0, u.st)
        invariant Keeps(u, g0, first) && u.st.layers == s0.layers && FullTo(u.st, u.lim, l) && u.st.g.progInputs == s0.g.progInputs && Wider(s0, u.st)
        invariant NodesOk(u.st.g) && BackOk(u.st.g) && PrevOk(u.st, prev, l) && (u.st.layers[l - 1] != [] || l == 1 ==> |prev| >= u.lim.lin)
      {
        ghost var s, r := u.st, u.rho;
        KeepsParts(u, g0, first);
        u.ValidParts(g0, first);
        EvenAt(s0, l);
        MatchLayer(u, g0, first, l, prev);
        EndsStay(g0, first, s0, s, u.st, r, u.rho, l);
        OnlyLayerIs(s, u.st, r, u.rho, l);
        WiderTrans(s0, s, u.st);
        FullStays(s, u.st, r, u.rho, u.lim, l);
        FullMore(u.st, u.lim, l);
        KeepsParts(u, g0, first);
        u.ValidParts(g0, first);
        prev := LayerOutputs(u.st, l, g0, first, u.rho);
        if u.st.layers[l] != [] {
          FirstOfLayer(g0, first, u.st, u.rho, u.lim, l);
          EnoughOutputs(u.st, u.lim, prev, u.st.layers[l][0]);
        }
      }
    }
    EndsAre(s0, u.st);
  }

  lemma StartFull(st: St, lim: Limits)
    ensures FullTo(st, lim, 1) && (|st.layers| < 2 ==> FullTo(st, lim, if |st.layers| == 0 then 0 else |st.layers| - 1))
  {
  }

  lemma FullMore(st: St, lim: Limits, l: nat)
    requires FullTo(st, lim, l) && Full(st, lim, l)
    ensures FullTo(st, lim, l + 1)
  {
    hide Full;
  }

  lemma InFirstLayer(st: St, x: nat)
    requires InLayers(st.nl, st.layers) && x in st.nl && st.nl[x] == 0 && |st.layers| >= 1
    ensures x in st.layers[0]
  {
  }

  lemma EvenAt(st: St, l: nat)
    requires Even(st) && 1 <= l < |st.layers| - 1
    ensures l > 1 && st.layers[l] != [] ==> st.layers[l - 1] != []
  {
  }

  lemma FirstOfLayer(g0: Graph, first: nat, st: St, rho: Origins, lim: Limits, l: nat)
    requires Sound(g0, first, st, rho) && l < |st.layers| && st.layers[l] != [] && Full(st, lim, l)
    ensures var n := st.layers[l][0]; n in st.layers[l] && n in st.g.nodes && n in st.g.mlmi && |st.g.mlmi[n].outputs| == lim.lout
  {
    hide *;
    LayerNodesKnown(g0, first, st, rho, l);
    FullAt(st, lim, l, st.layers[l][0]);
  }

  lemma FullAt(st: St, lim: Limits, l: nat, n: nat)
    requires Full(st, lim, l) && l < |st.layers| && n in st.layers[l]
    ensures n in st.g.mlmi && |st.g.mlmi[n].outputs| == lim.lout
  {
  }

  // ----- equal widths -----

  /** The width of the middle layers: the largest of them, or the requested width when that is larger. */
  method MaxWidth(layers: seq<seq<nat>>, requested: nat) returns (width: nat)
    ensures width >= requested && forall j :: 1 <= j < |layers| - 1 ==> |layers[j]| <= width
    ensures requested == 0 && (forall j :: 1 <= j < |layers| - 1 ==> layers[j] == []) ==> width == 0
  {
    width := 0;
    for j := 1 to if |layers| >= 2 then |layers| - 1 else 1
      invariant (forall i :: 1 <= i < j ==> |layers[i]| <= width) && ((forall i :: 1 <= i < |layers| - 1 ==> layers[i] == []) ==> width == 0)
    {
      if |layers[j]| > width { width := |layers[j]|; }
    }
    if requested > width { width := requested; }
  }

  /** Empty nodes until layer `l` has the width. */
  method Widen(u: Universal, ghost g0: Graph, ghost first: nat, l: nat, width: nat)
    requires Keeps(u, g0, first) && l < |u.st.layers| && |u.st.layers[l]| <= width
    modifies u
    ensures Keeps(u, g0, first) && OnlyLayer(old(u.st), u.st, old(u.rho), u.rho, l) && |u.st.layers| == |old(u.st.layers)| && |u.st.layers[l]| == width
  {
    hide *;
    ghost var s0, r0 := u.st, u.rho;
    OnlyLayerSelf(s0, r0, l);
    while |u.st.layers[l]| < width
      invariant Keeps(u, g0, first) && OnlyLayer(s0, u.st, r0, u.rho, l) && |u.st.layers| == |s0.layers| && |u.st.layers[l]| <= width && u.rho == r0
      decreases width - |u.st.layers[l]|
    {
      ghost var s := u.st;
      KeepsParts(u, g0, first);
      u.ValidParts(g0, first);
      AllBelow(g0, first, s, r0);
      OutputsBelowK(g0, first, s, r0);
      var x := u.Create(g0, first, l);
      OnlyLayerIs(s, u.st, r0, r0, l);
      OnlyLayerTrans(s0, s, u.st, r0, r0, r0, l);
      TightNew(s, u.st, r0, x, l);
      FromStays(s, u.st, r0, r0, l, |s.layers| - 1);
      MakeKeeps(u, g0, first);
    }
  }

  /** `equalize_layers`: all layers between the first and the last have the same width. */
  method EqualizeLayers(u: Universal, ghost g0: Graph, ghost first: nat, requested: nat) returns (width: nat)
    requires Keeps(u, g0, first)
    modifies u
    ensures Keeps(u, g0, first) && |u.st.layers| == |old(u.st.layers)| && Wider(old(u.st), u.st) && Even(u.st) && u.st.g.progInputs == old(u.st.g.progInputs)
    ensures width >= requested && forall j :: 1 <= j < |u.st.layers| - 1 ==> |u.st.layers[j]| == width && |old(u.st.layers)[j]| <= width
    ensures requested == 0 && (forall j :: 1 <= j < |u.st.layers| - 1 ==> old(u.st.layers)[j] == []) ==> width == 0
    ensures |u.st.layers| >= 2 ==> KeptAt(old(u.st), u.st, 0) && KeptAt(old(u.st), u.st, |u.st.layers| - 1)
  {
    hide *;
    ghost var s0 := u.st;
    WiderSame(s0, s0);
    StartEnds(s0);
    width := MaxWidth(u.st.layers, requested);
    var count := |u.st.layers|;
    for l := 1 to if count >= 2 then count - 1 else 1
      invariant Keeps(u, g0, first) && |u.st.layers| == count && Wider(s0, u.st) && u.st.g.progInputs == s0.g.progInputs
      invariant (forall j :: 1 <= j < l ==> |u.st.layers[j]| == width) && (forall j :: l <= j < count ==> u.st.layers[j] == s0.layers[j])
      invariant EndsKept(s0, u.st)
    {
      ghost var s, r := u.st, u.rho;
      KeepsParts(u, g0, first);
      u.ValidParts(g0, first);
      Widen(u, g0, first, l, width);
      EndsStay(g0, first, s0, s, u.st, r, u.rho, l);
      OnlyLayerIs(s, u.st, r, u.rho, l);
      WiderTrans(s0, s, u.st);
    }
    EvenWidths(u.st, width);
    EndsAre(s0, u.st);
  }

  /** The first and the last layer keep their nodes and their sizes. */
  ghost predicate EndsKept(s: St, t: St) {
    |t.layers| == |s.layers| && (|s.layers| >= 2 ==> KeptAt(s, t, 0) && KeptAt(s, t, |s.layers| - 1))
  }

  lemma StartEnds(st: St)
    ensures EndsKept(st, st)
  {
    if |st.layers| >= 2 {
      KeptSame(st, st, 0);
      KeptSame(st, st, |st.layers| - 1);
    }
  }

  lemma EndsAre(s: St, t: St)
    requires EndsKept(s, t)
    ensures |t.layers| == |s.layers| && (|s.layers| >= 2 ==> KeptAt(s, t, 0) && KeptAt(s, t, |s.layers| - 1))
  {
    hide KeptAt;
  }

  lemma EndsStay(g0: Graph, first: nat, s0: St, s: St, t: St, rho: Origins, rho2: Origins, l: nat)
    requires EndsKept(s0, s) && Sound(g0, first, s, rho) && OnlyLayer(s, t, rho, rho2, l) && 1 <= l < |s.layers| - 1
    ensures EndsKept(s0, t)
  {
    hide *;
    OnlyLayerIs(s, t, rho, rho2, l);
    EndsAre(s0, s);
    OtherKept(g0, first, s, t, rho, rho2, l, 0);
    OtherKept(g0, first, s, t, rho, rho2, l, |s.layers| - 1);
    KeptTrans(s0, s, t, 0);
    KeptTrans(s0, s, t, |s.layers| - 1);
    MakeEnds(s0, t);
  }

  lemma MakeEnds(s: St, t: St)
    requires |t.layers| == |s.layers| && KeptAt(s, t, 0) && KeptAt(s, t, |s.layers| - 1)
    ensures EndsKept(s, t)
  {
    hide KeptAt;
  }

  lemma EvenWidths(st: St, width: nat)
    requires forall j :: 1 <= j < |st.layers| - 1 ==> |st.layers[j]| == width
    ensures Even(st)
  {
  }
}
