/** The end of `add_permutation` of compiler/src/universalization/universalizer.py: the nodes of the next layer read the
    wires of the network instead of the cells of the previous layer, for every pair of adjacent layers. */
module PermuteLayers {
  import opened Graphs
  import opened Dfg
  import opened DfgSchedule
  import opened DfgMerge
  import opened Copies
  import opened Tracking
  import opened Layerize
  import opened LayeredGraph
  import opened Rectangularize
  import opened UniversalOps
  import opened Universalizer
  import opened Propagation
  import opened Topology
  import opened Drawing
  import opened Permuting
  import Permutations
  import Rows
  import Bdb
  import Bits
  import BigEndian
  import BenesMulti
  import opened Shapes

  // ----- the edges of a rewired node -----

  ghost predicate DefinedBy(g: Graph, m: nat, a: nat) {
    m !in g.progInputs && m in g.back && g.back[m] == a
  }

  ghost predicate SomeDefinedBy(g: Graph, ms: seq<nat>, j: nat, a: nat) {
    j <= |ms| && exists i :: 0 <= i < j && DefinedBy(g, ms[i], a)
  }

  /** The edges into `n` from the definitions of its old inputs are dropped. */
  function DropEdges(g: Graph, fwd: Edges, n: nat, ms: seq<nat>, j: nat): Edges
    requires j <= |ms|
  {
    if j == 0 then fwd else
      var f := DropEdges(g, fwd, n, ms, j - 1);
      var m := ms[j - 1];
      if m in g.progInputs || m !in g.back then f else f[g.back[m] := Succ(f, g.back[m]) - {n}]
  }

  /** Edges into `n` from the definitions of its new inputs. */
  function AddEdges(g: Graph, fwd: Edges, n: nat, ms: seq<nat>, j: nat): Edges
    requires j <= |ms|
  {
    if j == 0 then fwd else EdgeFor(AddEdges(g, fwd, n, ms, j - 1), g.back, g.progInputs, ms[j - 1], n)
  }

  lemma {:induction false} DropSucc(g: Graph, fwd: Edges, n: nat, ms: seq<nat>, j: nat, a: nat)
    requires j <= |ms|
    ensures Succ(DropEdges(g, fwd, n, ms, j), a) == if SomeDefinedBy(g, ms, j, a) then Succ(fwd, a) - {n} else Succ(fwd, a)
    ensures a in DropEdges(g, fwd, n, ms, j) ==> a in fwd || SomeDefinedBy(g, ms, j, a)
    decreases j
  {
    if j > 0 {
      DropSucc(g, fwd, n, ms, j - 1, a);
      SomeNext(g, ms, j, a);
    }
  }

  lemma {:induction false} AddSucc(g: Graph, fwd: Edges, n: nat, ms: seq<nat>, j: nat, a: nat)
    requires j <= |ms|
    ensures Succ(AddEdges(g, fwd, n, ms, j), a) == if SomeDefinedBy(g, ms, j, a) then Succ(fwd, a) + {n} else Succ(fwd, a)
    ensures a in AddEdges(g, fwd, n, ms, j) ==> a in fwd || SomeDefinedBy(g, ms, j, a)
    decreases j
  {
    if j > 0 {
      AddSucc(g, fwd, n, ms, j - 1, a);
      SomeNext(g, ms, j, a);
    }
  }

  lemma SomeNext(g: Graph, ms: seq<nat>, j: nat, a: nat)
    requires 0 < j <= |ms|
    ensures SomeDefinedBy(g, ms, j, a) <==> SomeDefinedBy(g, ms, j - 1, a) || DefinedBy(g, ms[j - 1], a)
  {
  }

  function NewEdges(g: Graph, n: nat, olds: seq<nat>, news: seq<nat>): Edges {
    AddEdges(g, DropEdges(g, g.fwd, n, olds, |olds|), n, news, |news|)
  }

  lemma NewSucc(g: Graph, n: nat, olds: seq<nat>, news: seq<nat>, a: nat)
    ensures var base := if SomeDefinedBy(g, olds, |olds|, a) then Succ(g.fwd, a) - {n} else Succ(g.fwd, a);
      Succ(NewEdges(g, n, olds, news), a) == if SomeDefinedBy(g, news, |news|, a) then base + {n} else base
    ensures a in NewEdges(g, n, olds, news) ==> a in g.fwd || SomeDefinedBy(g, olds, |olds|, a) || SomeDefinedBy(g, news, |news|, a)
  {
    hide SomeDefinedBy; hide Succ;
    DropSucc(g, g.fwd, n, olds, |olds|, a);
    AddSucc(g, DropEdges(g, g.fwd, n, olds, |olds|), n, news, |news|, a);
  }

  /** Available cells of earlier layers are defined by other nodes. */
  lemma DefinedElsewhere(st: St, n: nat, ms: seq<nat>, a: nat)
    requires NodesOk(st.g) && BackOk(st.g) && st.nl.Keys == st.g.nodes && n in st.g.nodes && (forall m :: m in ms ==> Available(st.g, m) && Level(st, m) < st.nl[n])
    ensures SomeDefinedBy(st.g, ms, |ms|, a) ==> a in st.g.nodes && a != n
    ensures a in st.g.nodes ==> (SomeDefinedBy(st.g, ms, |ms|, a) <==> exists v :: v in ms && v in st.g.mlmi[a].outputs)
  {
    hide NodeOk; hide Assigns;
    if SomeDefinedBy(st.g, ms, |ms|, a) {
      var i :| 0 <= i < |ms| && DefinedBy(st.g, ms[i], a);
      assert ms[i] in ms;
    }
    if v :| a in st.g.nodes && v in ms && v in st.g.mlmi[a].outputs {
      OutputAssigned(st.g, a, v);
      var i :| 0 <= i < |ms| && ms[i] == v;
      assert DefinedBy(st.g, ms[i], a);
    }
  }

  lemma SharesIs(a: Mlmi, b: Mlmi)
    ensures Shares(a, b) <==> exists v :: v in b.inputs && v in a.outputs
  {
  }

  lemma NewEdge(st: St, n: nat, mi: Mlmi, a: nat)
    requires Integral(st.g) && st.nl.Keys == st.g.nodes && n in st.g.nodes && a in st.g.nodes && a != n
    requires (forall m :: m in st.g.mlmi[n].inputs ==> Available(st.g, m) && Level(st, m) < st.nl[n]) && (forall m :: m in mi.inputs ==> Available(st.g, m) && Level(st, m) < st.nl[n])
    ensures n in Succ(NewEdges(st.g, n, st.g.mlmi[n].inputs, mi.inputs), a) <==> Shares(st.g.mlmi[a], mi)
    ensures forall b :: b != n ==> (b in Succ(NewEdges(st.g, n, st.g.mlmi[n].inputs, mi.inputs), a) <==> b in Succ(st.g.fwd, a))
  {
    IntegralParts(st.g);
    hide *;
    KnownNodes(st.g, a, n);
    EdgesIn(st.g, a, n);
    NewSucc(st.g, n, st.g.mlmi[n].inputs, mi.inputs, a);
    DefinedElsewhere(st, n, st.g.mlmi[n].inputs, a);
    DefinedElsewhere(st, n, mi.inputs, a);
    SharesIs(st.g.mlmi[a], mi);
    SharesIs(st.g.mlmi[a], st.g.mlmi[n]);
  }

  lemma NewEdgesFollow(st: St, n: nat, mi: Mlmi, h: Graph)
    requires Integral(st.g) && st.nl.Keys == st.g.nodes && n in st.g.nodes && n in st.g.mlmi && h.fwd == NewEdges(st.g, n, st.g.mlmi[n].inputs, mi.inputs)
    requires (forall m :: m in st.g.mlmi[n].inputs ==> Available(st.g, m) && Level(st, m) < st.nl[n]) && (forall m :: m in mi.inputs ==> Available(st.g, m) && Level(st, m) < st.nl[n])
    ensures EdgesFollow(st.g, h, n, mi)
  {
    IntegralParts(st.g);
    hide *;
    var g := st.g;
    NodesKnown(g);
    forall a, b | a in g.nodes && a != n && b != n ensures b in Succ(h.fwd, a) <==> b in Succ(g.fwd, a) { NewEdge(st, n, mi, a); }
    forall a | a in g.nodes && a != n ensures a in g.mlmi && (n in Succ(h.fwd, a) <==> Shares(g.mlmi[a], mi)) { NewEdge(st, n, mi, a); }
    NewSucc(g, n, g.mlmi[n].inputs, mi.inputs, n);
    DefinedElsewhere(st, n, g.mlmi[n].inputs, n);
    DefinedElsewhere(st, n, mi.inputs, n);
    forall a | a in h.fwd ensures a in g.nodes {
      NewSucc(g, n, g.mlmi[n].inputs, mi.inputs, a);
      DefinedElsewhere(st, n, g.mlmi[n].inputs, a);
      DefinedElsewhere(st, n, mi.inputs, a);
      FwdKeys(g, a);
    }
    MakeEdgesFollow(g, h, n, mi);
  }

  lemma FwdKeys(g: Graph, a: nat)
    requires NodesOk(g) && FwdOk(g)
    ensures a in g.fwd ==> a in g.nodes
  {
    hide NodeOk; hide Shares;
  }

  // ----- a node reads new inputs -----

  function ReadAll(st: St, n: nat, news: seq<nat>, sigma: map<nat, nat>): St
    requires n in st.g.mlmi
  {
    st.(g := Graph(st.g.nodes, st.g.mlmi[n := Rewired(st.g.mlmi[n], news, sigma)], NewEdges(st.g, n, st.g.mlmi[n].inputs, news), st.g.back, st.g.progInputs, st.g.progOutputs))
  }

  /** The new inputs: available in earlier layers, and `sigma` sends every old input to one of the same origin. */
  ghost predicate CanReadAll(st: St, rho: Origins, n: nat, news: seq<nat>, sigma: map<nat, nat>)
    requires NodesOk(st.g) && BackOk(st.g) && st.nl.Keys == st.g.nodes
  {
    && n in st.g.nodes && |news| == |st.g.mlmi[n].inputs| && (forall m :: m in news ==> Available(st.g, m) && Level(st, m) < st.nl[n])
    && (forall m :: m in sigma <==> m in st.g.mlmi[n].inputs) && (forall m :: m in sigma ==> sigma[m] in news && OriginOf(rho, sigma[m]) == OriginOf(rho, m))
  }

  lemma ReadAllIs(st: St, n: nat, news: seq<nat>, sigma: map<nat, nat>)
    requires n in st.g.mlmi
    ensures var t := ReadAll(st, n, news, sigma);
      && n in t.g.mlmi && t.g.mlmi[n] == Rewired(st.g.mlmi[n], news, sigma) && t.g.mlmi[n].inputs == news && t.g.mlmi[n].outputs == st.g.mlmi[n].outputs
      && |t.g.mlmi[n].instrs| == |st.g.mlmi[n].instrs| && t.g.mlmi == st.g.mlmi[n := t.g.mlmi[n]]
      && t.g == WithRewired(st.g, n, news, sigma, t.g.fwd) && t.g.fwd == NewEdges(st.g, n, st.g.mlmi[n].inputs, news)
      && t.k == st.k && t.nl == st.nl && t.layers == st.layers && t.nextId == st.nextId && t.g.back == st.g.back && t.g.progInputs == st.g.progInputs
      && t.g.nodes == st.g.nodes && t.g.progOutputs == st.g.progOutputs
  {
    hide NewEdges; hide RenamedInstr;
  }

  lemma CanReadAllParts(st: St, rho: Origins, n: nat, news: seq<nat>, sigma: map<nat, nat>)
    requires NodesOk(st.g) && BackOk(st.g) && st.nl.Keys == st.g.nodes && CanReadAll(st, rho, n, news, sigma)
    ensures n in st.g.nodes && n in st.g.mlmi && |news| == |st.g.mlmi[n].inputs| && (forall m :: m in news ==> Available(st.g, m) && Level(st, m) < st.nl[n])
    ensures (forall m :: m in sigma <==> m in st.g.mlmi[n].inputs) && (forall m :: m in sigma ==> sigma[m] in news && OriginOf(rho, sigma[m]) == OriginOf(rho, m))
    ensures forall m :: m in st.g.mlmi[n].inputs ==> Renamed(sigma, m) in news
  {
    hide NodeOk; hide Available; hide Level; hide BackOk; hide OriginOf;
  }

  /** Reading copies of all inputs from earlier layers keeps everything. */
  lemma ReadAllSound(g0: Graph, first: nat, st: St, rho: Origins, n: nat, news: seq<nat>, sigma: map<nat, nat>)
    requires Sound(g0, first, st, rho) && BackOk(st.g) && CanReadAll(st, rho, n, news, sigma)
    ensures n in st.g.mlmi && Sound(g0, first, ReadAll(st, n, news, sigma), rho) && (forall x: nat :: Level(ReadAll(st, n, news, sigma), x) == Level(st, x))
    ensures BackOk(ReadAll(st, n, news, sigma).g) && forall x: nat :: Available(st.g, x) ==> Available(ReadAll(st, n, news, sigma).g, x)
  {
    hide *;
    SoundParts(g0, first, st, rho);
    CanReadAllParts(st, rho, n, news, sigma);
    var t := ReadAll(st, n, news, sigma);
    ReadAllIs(st, n, news, sigma);
    var mi := t.g.mlmi[n];
    forall x | x in st.g.mlmi[n].inputs ensures Available(st.g, x) && Level(st, x) < st.nl[n] { InputKnown(g0, first, st, rho, n, x); }
    NewEdgesFollow(st, n, mi, t.g);
    forall x | x in news ensures !Assigns(st.g.mlmi[n].instrs, x) && x < st.k {
      EarlierUnassigned(st, n, x);
      AvailableBelow(st.g, st.k, x);
    }
    RewireGood(st.g, n, news, sigma, t.g.fwd);
    ChangeIntegral(st.g, t.g, n, mi, {});
    TracksRewire(g0, first, st.g, rho, st.k, n, news, sigma, t.g.fwd);
    TracksParts(g0, first, t.g, rho, t.k);
    forall x: nat ensures Level(t, x) == Level(st, x) { LevelSame(st, t, x); }
    forall x: nat | Available(st.g, x) ensures Available(t.g, x) { ChangedAvailable(st.g, t.g, n, mi, {}, x); }
    OrderedNode(st, t, n);
    NumberedSame(st, t, n);
    MakeSound(g0, first, t, rho);
  }

  // ----- one node behind the network -----

  /** The wires `off..` stand for the inputs `olds`: cells of the same origin, defined before layer `at`. */
  ghost predicate Stands(st: St, rho: Origins, ws: seq<Wire>, off: nat, olds: seq<nat>, at: nat)
    requires NodesOk(st.g) && BackOk(st.g)
  {
    off + |olds| <= |ws| && forall i :: 0 <= i < |olds| ==> StandsFor(st, rho, ws[off + i], olds[i], at)
  }

  ghost predicate StandsFor(st: St, rho: Origins, w: Wire, m: nat, at: nat)
    requires NodesOk(st.g) && BackOk(st.g)
  {
    w.Cell? && WireOk(st, w, at) && OriginOf(rho, w.m) == OriginOf(rho, m)
  }

  lemma StandsAt(st: St, rho: Origins, ws: seq<Wire>, off: nat, olds: seq<nat>, at: nat, i: nat)
    requires NodesOk(st.g) && BackOk(st.g) && Stands(st, rho, ws, off, olds, at) && i < |olds|
    ensures off + i < |ws| && ws[off + i].Cell? && WireOk(st, ws[off + i], at) && OriginOf(rho, ws[off + i].m) == OriginOf(rho, olds[i])
  {
    hide NodeOk; hide BackOk; hide OriginOf; hide WireOk;
    assert StandsFor(st, rho, ws[off + i], olds[i], at);
  }

  /** `old_to_new` so far: the old inputs and their stand-ins among the new ones. */
  ghost predicate PairsUp(rho: Origins, olds: seq<nat>, news: seq<nat>, sigma: map<nat, nat>, i: nat) {
    && i == |news| <= |olds| && (forall m :: m in sigma <==> m in olds[..i])
    && (forall m :: m in sigma ==> sigma[m] in news && OriginOf(rho, sigma[m]) == OriginOf(rho, m))
  }

  lemma PairsNext(rho: Origins, olds: seq<nat>, news: seq<nat>, sigma: map<nat, nat>, i: nat, c: nat)
    requires PairsUp(rho, olds, news, sigma, i) && i < |olds| && OriginOf(rho, c) == OriginOf(rho, olds[i])
    ensures PairsUp(rho, olds, news + [c], sigma[olds[i] := c], i + 1)
  {
    hide OriginOf;
    assert olds[..i + 1] == olds[..i] + [olds[i]];
  }

  /** The node reads the wires, in the order of its inputs. */
  method ReadWires(u: Universal, ghost g0: Graph, ghost first: nat, n: nat, ws: seq<Wire>, off: nat, ghost at: nat)
    requires u.Valid(g0, first) && NodesOk(u.st.g) && BackOk(u.st.g) && n in u.st.g.nodes && n in u.st.g.mlmi && n in u.st.nl && u.st.nl[n] == at
    requires Stands(u.st, u.rho, ws, off, u.st.g.mlmi[n].inputs, at) && off + |u.st.g.mlmi[n].inputs| <= |ws|
    modifies u`st
    ensures u.Valid(g0, first) && NodesOk(u.st.g) && BackOk(u.st.g) && u.st.nl == old(u.st.nl) && u.st.layers == old(u.st.layers) && u.st.k == old(u.st.k)
    ensures n in old(u.st.g.mlmi) && n in u.st.g.mlmi && u.st.g.mlmi[n].outputs == old(u.st.g.mlmi[n].outputs) && |u.st.g.mlmi[n].inputs| == |old(u.st.g.mlmi[n].inputs)|
    ensures (forall y :: y in old(u.st.g.mlmi) && y != n ==> y in u.st.g.mlmi && u.st.g.mlmi[y] == old(u.st.g.mlmi[y])) && u.st.g.nodes == old(u.st.g.nodes)
    ensures u.st.g.progInputs == old(u.st.g.progInputs) && u.st.g.progOutputs == old(u.st.g.progOutputs) && (forall z: nat :: Level(u.st, z) == Level(old(u.st), z))
    ensures NodesOk(old(u.st.g)) && BackOk(old(u.st.g)) && forall z: nat :: Available(old(u.st.g), z) ==> Available(u.st.g, z)
    ensures ReadsWires(ws, off, u.st.g.mlmi[n].inputs)
  {
    hide *;
    ghost var s := u.st;
    u.ValidParts(g0, first);
    var olds := u.st.g.mlmi[n].inputs;
    var news: seq<nat>, sigma: map<nat, nat> := [], map[];
    NoPairs(u.rho, olds);
    NothingRead(ws, off);
    for i := 0 to |olds|
      invariant PairsUp(u.rho, olds, news, sigma, i) && |news| == i && (forall m :: m in news ==> Available(s.g, m) && Level(s, m) < at) && u.st == s
      invariant ReadsWires(ws, off, news)
    {
      StandsAt(s, u.rho, ws, off, olds, at, i);
      WireIs(s, ws[off + i].m, at);
      PairsNext(u.rho, olds, news, sigma, i, ws[off + i].m);
      OneMoreRead(ws, off, news, ws[off + i].m);
      sigma := sigma[olds[i] := ws[off + i].m];
      news := news + [ws[off + i].m];
    }
    PairsDone(s, u.rho, n, olds, news, sigma);
    ReadAllSound(g0, first, s, u.rho, n, news, sigma);
    ReadAllIs(s, n, news, sigma);
    ReadAllWithin(s, n, news, sigma, u.lim);
    u.st := ReadAll(u.st, n, news, sigma);
    SoundParts(g0, first, u.st, u.rho);
    u.MakeValid(g0, first);
  }

  /** The inputs are the wires from `off` on. */
  ghost predicate ReadsWires(ws: seq<Wire>, off: nat, ins: seq<nat>) {
    off + |ins| <= |ws| && forall i :: 0 <= i < |ins| ==> ws[off + i] == Cell(ins[i])
  }

  lemma NothingRead(ws: seq<Wire>, off: nat)
    requires off <= |ws|
    ensures ReadsWires(ws, off, [])
  {
  }

  lemma OneMoreRead(ws: seq<Wire>, off: nat, ins: seq<nat>, m: nat)
    requires ReadsWires(ws, off, ins) && off + |ins| < |ws| && ws[off + |ins|] == Cell(m)
    ensures ReadsWires(ws, off, ins + [m])
  {
  }

  lemma NoPairs(rho: Origins, olds: seq<nat>)
    ensures PairsUp(rho, olds, [], map[], 0)
  {
  }

  lemma PairsDone(st: St, rho: Origins, n: nat, olds: seq<nat>, news: seq<nat>, sigma: map<nat, nat>)
    requires NodesOk(st.g) && BackOk(st.g) && st.nl.Keys == st.g.nodes && n in st.g.nodes && olds == st.g.mlmi[n].inputs && PairsUp(rho, olds, news, sigma, |olds|)
    requires forall m :: m in news ==> Available(st.g, m) && Level(st, m) < st.nl[n]
    ensures CanReadAll(st, rho, n, news, sigma)
  {
    hide NodeOk; hide Available; hide Level; hide BackOk; hide OriginOf;
    assert olds[..|olds|] == olds;
  }

  lemma ReadAllWithin(st: St, n: nat, news: seq<nat>, sigma: map<nat, nat>, lim: Limits)
    requires Within(st, lim) && n in st.g.mlmi && n in st.g.nodes && |news| == |st.g.mlmi[n].inputs|
    ensures Within(ReadAll(st, n, news, sigma), lim)
  {
    hide NewEdges; hide RenamedInstr;
    assert NodeWithin(st.g.mlmi[n], lim);
    var t := ReadAll(st, n, news, sigma);
    forall y | y in t.g.nodes && y in t.g.mlmi ensures NodeWithin(t.g.mlmi[y], lim) {
      if y != n { assert NodeWithin(st.g.mlmi[y], lim); }
    }
  }

  // ----- flattened lists -----

  lemma {:induction false} FlatIn(st: St, layer: seq<nat>, outputs: bool, m: nat)
    requires Known(st, layer)
    ensures m in Flat(st, layer, outputs) <==> exists i :: 0 <= i < |layer| && m in if outputs then st.g.mlmi[layer[i]].outputs else st.g.mlmi[layer[i]].inputs
    decreases |layer|
  {
    if layer != [] {
      var k := |layer| - 1;
      FlatIn(st, layer[..k], outputs, m);
      if m in Flat(st, layer[..k], outputs) {
        var i :| 0 <= i < k && m in if outputs then st.g.mlmi[layer[..k][i]].outputs else st.g.mlmi[layer[..k][i]].inputs;
        assert layer[i] == layer[..k][i];
      }
      if i :| 0 <= i < |layer| && m in if outputs then st.g.mlmi[layer[i]].outputs else st.g.mlmi[layer[i]].inputs {
        if i < k { assert layer[..k][i] == layer[i]; }
      }
    }
  }

  /** The inputs of the `i`-th node stand in the flattened list after those of the nodes before it. */
  lemma {:induction false} FlatAt(st: St, layer: seq<nat>, i: nat)
    requires Known(st, layer) && i < |layer|
    ensures Known(st, layer[..i]) && Known(st, layer[..i + 1])
    ensures var off := |Flat(st, layer[..i], false)|; var ins := st.g.mlmi[layer[i]].inputs;
      off + |ins| <= |Flat(st, layer, false)| && Flat(st, layer, false)[off..off + |ins|] == ins && |Flat(st, layer[..i + 1], false)| == off + |ins|
    decreases |layer|
  {
    hide Flat;
    var k := |layer| - 1;
    FlatLast(st, layer);
    var a, b := Flat(st, layer[..k], false), st.g.mlmi[layer[k]].inputs;
    if i < k {
      FlatAt(st, layer[..k], i);
      assert layer[..k][..i] == layer[..i] && layer[..k][..i + 1] == layer[..i + 1] && layer[..k][i] == layer[i];
      Slices(a, b, |Flat(st, layer[..i], false)|, |st.g.mlmi[layer[i]].inputs|);
    } else {
      assert layer[..i + 1] == layer;
      Slices(a, b, 0, 0);
    }
  }

  lemma FlatLast(st: St, layer: seq<nat>)
    requires Known(st, layer) && layer != []
    ensures Known(st, layer[..|layer| - 1]) && Flat(st, layer, false) == Flat(st, layer[..|layer| - 1], false) + st.g.mlmi[layer[|layer| - 1]].inputs
  {
  }

  lemma Slices(a: seq<nat>, b: seq<nat>, off: nat, n: nat)
    requires off + n <= |a|
    ensures (a + b)[off..off + n] == a[off..off + n] && (a + b)[|a|..|a| + |b|] == b
  {
  }

  /** The loop that flattens a layer. */
  method Flatten(st: St, layer: seq<nat>, outputs: bool) returns (r: seq<nat>)
    requires Known(st, layer)
    ensures r == Flat(st, layer, outputs)
  {
    r := [];
    for i := 0 to |layer|
      invariant r == Flat(st, layer[..i], outputs)
    {
      assert layer[..i + 1][..i] == layer[..i];
      r := r + if outputs then st.g.mlmi[layer[i]].outputs else st.g.mlmi[layer[i]].inputs;
    }
    assert layer[..|layer|] == layer;
  }

  /** `inputs_pos` and `perm_outputs`: for each cell to deliver, a position where it enters; zero past the end. */
  method Positions(ins: seq<nat>, outs: seq<nat>, size: nat) returns (f: seq<nat>)
    requires (forall m :: m in outs ==> m in ins) && |outs| <= size && |ins| <= size && size >= 1
    ensures |f| == size && Permutations.InRange(f, size) && forall j :: 0 <= j < |outs| ==> f[j] < |ins| && ins[f[j]] == outs[j]
  {
    var pos: map<nat, nat> := map[];
    for i := 0 to |ins|
      invariant (forall m :: m in pos <==> m in ins[..i]) && forall m :: m in pos ==> pos[m] < i && ins[pos[m]] == m
    {
      assert ins[..i + 1] == ins[..i] + [ins[i]];
      pos := pos[ins[i] := i];
    }
    assert ins[..|ins|] == ins;
    f := [];
    for j := 0 to size
      invariant |f| == j && (forall i :: 0 <= i < j ==> f[i] < size) && forall i :: 0 <= i < j && i < |outs| ==> f[i] < |ins| && ins[f[i]] == outs[i]
    {
      if j < |outs| {
        assert outs[j] in outs;
        f := f + [pos[outs[j]]];
      } else {
        f := f + [0];
      }
    }
  }

  // ----- one pair of layers -----

  ghost predicate LayerAt(st: St, layer: seq<nat>, l: nat) {
    NoRepeat(layer) && forall i :: 0 <= i < |layer| ==> layer[i] in st.g.nodes && layer[i] in st.g.mlmi && layer[i] in st.nl && st.nl[layer[i]] == l
  }

  lemma LayerKnown(st: St, layer: seq<nat>, l: nat)
    requires LayerAt(st, layer, l)
    ensures Known(st, layer) && forall i :: 0 <= i < |layer| ==> layer[i] in st.g.nodes && layer[i] in st.g.mlmi && layer[i] in st.nl && st.nl[layer[i]] == l
  {
  }

  /** Everything the nodes of `after` read is an output of a node of `before`. */
  ghost predicate Feeds(st: St, before: seq<nat>, after: seq<nat>)
    requires Known(st, before) && Known(st, after)
  {
    forall m :: m in Flat(st, after, false) ==> m in Flat(st, before, true)
  }

  /** `d` layers were inserted at `at`, and only the inputs of the nodes of `after` were changed. */
  ghost predicate Permuted(s: St, t: St, at: nat, d: nat, after: seq<nat>) {
    && s.k <= t.k && |t.layers| == |s.layers| + d && s.g.nodes <= t.g.nodes && t.g.progInputs == s.g.progInputs && t.g.progOutputs == s.g.progOutputs
    && (forall y :: y in s.nl ==> y in t.nl && t.nl[y] == Moved(s.nl[y], at, d))
    && (forall y :: y in s.g.mlmi ==> y in t.g.mlmi && t.g.mlmi[y].outputs == s.g.mlmi[y].outputs && |t.g.mlmi[y].inputs| == |s.g.mlmi[y].inputs| && (y !in after ==> t.g.mlmi[y] == s.g.mlmi[y]))
    && (forall x: nat :: x < s.k ==> Level(t, x) == Moved(Level(s, x), at, d))
  }

  lemma InsertedIsPermuted(s: St, t: St, rho: Origins, rho2: Origins, at: nat, d: nat, after: seq<nat>)
    requires Inserted(s, t, rho, rho2, at, d)
    ensures Permuted(s, t, at, d, after)
  {
    hide Level; hide OriginOf;
  }

  lemma PermutedNext(s0: St, s: St, t: St, at: nat, d: nat, after: seq<nat>, n: nat)
    requires Permuted(s0, s, at, d, after) && n in after && t.nl == s.nl && t.layers == s.layers && t.k == s.k && t.g.nodes == s.g.nodes
    requires t.g.progInputs == s.g.progInputs && t.g.progOutputs == s.g.progOutputs && forall z: nat :: Level(t, z) == Level(s, z)
    requires n in s.g.mlmi && n in t.g.mlmi && t.g.mlmi[n].outputs == s.g.mlmi[n].outputs && |t.g.mlmi[n].inputs| == |s.g.mlmi[n].inputs|
    requires forall y :: y in s.g.mlmi && y != n ==> y in t.g.mlmi && t.g.mlmi[y] == s.g.mlmi[y]
    ensures Permuted(s0, t, at, d, after)
  {
    hide Level;
  }

  lemma StartWires(g0: Graph, first: nat, st: St, rho: Origins, before: seq<nat>, at: nat, ins: seq<nat>, ws: seq<Wire>)
    requires at >= 1 && Sound(g0, first, st, rho) && BackOk(st.g) && NodesOk(st.g) && LayerAt(st, before, at - 1) && Known(st, before) && ins == Flat(st, before, true)
    requires |ins| <= |ws| && forall j :: 0 <= j < |ws| ==> ws[j] == if j < |ins| then Cell(ins[j]) else Null
    ensures WiresOk(st, ws, at)
  {
    SoundParts(g0, first, st, rho);
    hide Sound; hide Tracks; hide NodeOk; hide BackOk; hide FwdOk; hide AvailableOk; hide Ordered; hide OriginsOk; hide InLayers; hide Below; hide Assigns; hide Flat;
    forall j | 0 <= j < |ws| ensures WireOk(st, ws[j], at) {
      if j < |ins| {
        FlatIn(st, before, true, ins[j]);
        assert ins[j] in ins;
        var i :| 0 <= i < |before| && ins[j] in st.g.mlmi[before[i]].outputs;
        OutputAssigned(st.g, before[i], ins[j]);
        AvailableBelow(st.g, st.k, ins[j]);
      }
    }
  }

  /** After the network, wire `j` stands for the `j`-th cell to deliver. */
  lemma NetworkDelivers(s: St, t: St, rho: Origins, rho2: Origins, ins: seq<nat>, outs: seq<nat>, ws0: seq<Wire>, ws: seq<Wire>, f: seq<nat>, at: nat, d: nat)
    requires NodesOk(t.g) && BackOk(t.g) && Routed(rho, ws0, rho2, ws, f) && WiresOk(t, ws, at + d) && Inserted(s, t, rho, rho2, at, d)
    requires |ins| <= |ws0| && (forall j :: 0 <= j < |ws0| ==> ws0[j] == if j < |ins| then Cell(ins[j]) else Null) && |outs| <= |ws0|
    requires |f| == |ws0| && (forall j :: 0 <= j < |outs| ==> f[j] < |ins| && ins[f[j]] == outs[j]) && forall m :: m in outs ==> m < s.k
    ensures Stands(t, rho2, ws, 0, outs, at + d)
  {
    hide NodeOk; hide BackOk; hide OriginOf; hide Level; hide WireOk;
    forall j | 0 <= j < |outs| ensures StandsFor(t, rho2, ws[0 + j], outs[j], at + d) {
      assert outs[j] in outs;
      assert ws0[f[j]] == Cell(outs[j]);
      assert WireOrigins(rho2, ws)[j] == WireOrigins(rho, ws0)[f[j]];
    }
  }

  lemma StandsSlice(st: St, rho: Origins, ws: seq<Wire>, outs: seq<nat>, off: nat, ins: seq<nat>, at: nat)
    requires NodesOk(st.g) && BackOk(st.g) && Stands(st, rho, ws, 0, outs, at) && off + |ins| <= |outs| && outs[off..off + |ins|] == ins
    ensures Stands(st, rho, ws, off, ins, at) && off + |ins| <= |ws|
  {
    hide NodeOk; hide BackOk; hide StandsFor;
    forall i | 0 <= i < |ins| ensures StandsFor(st, rho, ws[off + i], ins[i], at) {
      assert ins[i] == outs[off + i];
      assert StandsFor(st, rho, ws[0 + (off + i)], outs[off + i], at);
    }
  }

  lemma StandsStays(s: St, t: St, rho: Origins, ws: seq<Wire>, outs: seq<nat>, at: nat)
    requires NodesOk(s.g) && BackOk(s.g) && NodesOk(t.g) && BackOk(t.g) && Stands(s, rho, ws, 0, outs, at) && t.k == s.k
    requires (forall z: nat :: Level(t, z) == Level(s, z)) && forall z: nat :: Available(s.g, z) ==> Available(t.g, z)
    ensures Stands(t, rho, ws, 0, outs, at)
  {
    hide NodeOk; hide BackOk; hide Available; hide Level; hide OriginOf;
    forall i | 0 <= i < |outs| ensures StandsFor(t, rho, ws[0 + i], outs[i], at) { assert StandsFor(s, rho, ws[0 + i], outs[i], at); }
  }

  /** The nodes of `after` from index `j` on are as they were. */
  ghost predicate SameFrom(s: St, t: St, after: seq<nat>, j: nat) {
    forall i :: j <= i < |after| ==> after[i] in s.g.mlmi && after[i] in t.g.mlmi && t.g.mlmi[after[i]] == s.g.mlmi[after[i]]
  }

  /** The nodes of `after` before index `j` read the wires, one after the other; the sizes of all are as given. */
  ghost predicate AllRead(st: St, after: seq<nat>, sizes: seq<Size>, ws: seq<Wire>, j: nat) {
    && j <= |after| == |sizes| && (forall i :: 0 <= i < |after| ==> after[i] in st.g.mlmi && SizeOf(st, after[i]) == sizes[i])
    && forall i :: 0 <= i < j ==> after[i] in st.g.mlmi && ReadsWires(ws, TotalIns(sizes[..i]), st.g.mlmi[after[i]].inputs)
  }

  /** Only nodes of the given layer have changed. */
  ghost predicate OnlyNodes(s: St, t: St, after: seq<nat>) {
    t.layers == s.layers && t.g.progInputs == s.g.progInputs && forall y :: y !in after ==> SameNode(s, t, y)
  }

  lemma NoneRead(st: St, after: seq<nat>, ws: seq<Wire>)
    requires Known(st, after)
    ensures AllRead(st, after, LayerSizes(st, after), ws, 0) && OnlyNodes(st, st, after)
  {
  }

  lemma NextRead(s: St, t: St, after: seq<nat>, sizes: seq<Size>, ws: seq<Wire>, j: nat, off: nat)
    requires AllRead(s, after, sizes, ws, j) && j < |after| && off == TotalIns(sizes[..j]) && (forall i, k :: 0 <= i < k < |after| ==> after[i] != after[k])
    requires after[j] in t.g.mlmi && ReadsWires(ws, off, t.g.mlmi[after[j]].inputs) && SizeOf(t, after[j]) == SizeOf(s, after[j])
    requires forall y :: y in s.g.mlmi && y != after[j] ==> y in t.g.mlmi && t.g.mlmi[y] == s.g.mlmi[y]
    ensures AllRead(t, after, sizes, ws, j + 1)
  {
    hide ReadsWires; hide TotalIns;
  }

  lemma OnlyNodesNext(t0: St, s: St, t: St, after: seq<nat>, n: nat)
    requires OnlyNodes(t0, s, after) && n in after && t.layers == s.layers && t.g.progInputs == s.g.progInputs
    requires forall y :: y in s.g.mlmi && y != n ==> y in t.g.mlmi && t.g.mlmi[y] == s.g.mlmi[y]
    ensures OnlyNodes(t0, t, after)
  {
  }

  lemma SizeAt(st: St, after: seq<nat>, j: nat)
    requires Known(st, after) && j < |after|
    ensures TotalIns(LayerSizes(st, after)[..j + 1]) == TotalIns(LayerSizes(st, after)[..j]) + |st.g.mlmi[after[j]].inputs|
  {
    var sizes := LayerSizes(st, after);
    assert sizes[..j + 1][..j] == sizes[..j];
  }

  lemma SizeSame(s: St, t: St, n: nat)
    requires n in s.g.mlmi && n in t.g.mlmi && |t.g.mlmi[n].inputs| == |s.g.mlmi[n].inputs| && t.g.mlmi[n].outputs == s.g.mlmi[n].outputs
    ensures SizeOf(t, n) == SizeOf(s, n)
  {
  }

  /** The last loop: the nodes of the next layer read the wires. */
  method ReadNetwork(u: Universal, ghost g0: Graph, ghost first: nat, after: seq<nat>, ws: seq<Wire>, ghost outs: seq<nat>, ghost s0: St, ghost at: nat, ghost d: nat)
    requires u.Valid(g0, first) && NodesOk(u.st.g) && BackOk(u.st.g) && LayerAt(u.st, after, at + d) && Known(u.st, after) && outs == Flat(u.st, after, false)
    requires Stands(u.st, u.rho, ws, 0, outs, at + d) && Permuted(s0, u.st, at, d, after)
    modifies u`st
    ensures u.Valid(g0, first) && NodesOk(u.st.g) && BackOk(u.st.g) && Permuted(s0, u.st, at, d, after)
    ensures AllRead(u.st, after, LayerSizes(old(u.st), after), ws, |after|) && OnlyNodes(old(u.st), u.st, after)
  {
    hide *;
    ghost var t0 := u.st;
    ghost var sizes := LayerSizes(t0, after);
    LayerKnown(t0, after, at + d);
    DistinctNodes(t0, after, at + d);
    SameAll(t0, after);
    NoneRead(t0, after, ws);
    var off := 0;
    KnownPrefix(t0, after, 0);
    NoIns(sizes);
    for j := 0 to |after|
      invariant u.Valid(g0, first) && NodesOk(u.st.g) && BackOk(u.st.g) && Permuted(s0, u.st, at, d, after) && Stands(u.st, u.rho, ws, 0, outs, at + d)
      invariant SameFrom(t0, u.st, after, j) && u.st.nl == t0.nl && u.st.g.nodes == t0.g.nodes && Known(t0, after[..j]) && off == |Flat(t0, after[..j], false)|
      invariant AllRead(u.st, after, sizes, ws, j) && OnlyNodes(t0, u.st, after) && off == TotalIns(sizes[..j])
    {
      ghost var s := u.st;
      var n := after[j];
      FlatAt(t0, after, j);
      SizeAt(t0, after, j);
      SameAt(t0, s, after, j);
      StandsSlice(s, u.rho, ws, outs, off, s.g.mlmi[n].inputs, at + d);
      var q := |u.st.g.mlmi[n].inputs|;
      ReadWires(u, g0, first, n, ws, off, at + d);
      StandsStays(s, u.st, u.rho, ws, outs, at + d);
      assert n in after;
      PermutedNext(s0, s, u.st, at, d, after, n);
      SameNext(t0, s, u.st, after, j);
      SizeSame(s, u.st, n);
      NextRead(s, u.st, after, sizes, ws, j, off);
      OnlyNodesNext(t0, s, u.st, after, n);
      off := off + q;
    }
  }

  lemma NoIns(sizes: seq<Size>)
    ensures TotalIns(sizes[..0]) == 0
  {
  }

  // ----- the layer behind the network is drawn -----

  lemma OnlyFront(g0: Graph, first: nat, s: St, t: St, rho: Origins, after: seq<nat>, l: nat)
    requires Sound(g0, first, s, rho) && InLayers(s.nl, s.layers) && OnlyNodes(s, t, after) && LayerAt(s, after, l) && l <= |s.layers|
    ensures SameFront(s, t, l)
  {
    hide Sound; hide SameNode;
    forall j, i | 0 <= j < l && 0 <= i < |s.layers[j]| ensures SameNode(s, t, s.layers[j][i]) {
      assert s.layers[j][i] in s.layers[j];
    }
  }

  lemma {:induction false} BehindAt(sizes: seq<Size>, lines: seq<Source>, i: nat)
    requires i < |sizes|
    ensures Behind(sizes, lines)[i] == Wiring(Window(lines, Span(TotalIns(sizes[..i]), sizes[i].ins)), sizes[i].outs)
    decreases |sizes|
  {
    hide Window;
    var k := |sizes| - 1;
    if i < k {
      BehindAt(sizes[..k], lines, i);
      assert sizes[..k][..i] == sizes[..i];
    }
  }

  lemma ReadNode(st: St, n: nat, ws: seq<Wire>, lines: seq<Source>, off: nat, l: nat)
    requires n in st.g.mlmi && ReadsWires(ws, off, st.g.mlmi[n].inputs) && Lined(st, ws, lines, l)
    ensures NodeDrawn(st, n, Wiring(Window(lines, Span(off, |st.g.mlmi[n].inputs|)), |st.g.mlmi[n].outputs|), l)
  {
    hide IsSource;
    var ins := st.g.mlmi[n].inputs;
    var w := Window(lines, Span(off, |ins|));
    forall i | 0 <= i < |ins| ensures InFront(w[i], l) && IsSource(st, ins[i], w[i]) { assert IsLine(st, ws[off + i], lines[off + i], l); }
  }

  lemma BehindDrawn(st: St, after: seq<nat>, sizes: seq<Size>, ws: seq<Wire>, lines: seq<Source>, l: nat)
    requires AllRead(st, after, sizes, ws, |after|) && Lined(st, ws, lines, l) && l < |st.layers| && st.layers[l] == after
    ensures LayerDrawn(st, l, Behind(sizes, lines))
  {
    hide Lined; hide ReadsWires; hide TotalIns; hide Behind; hide NodeDrawn;
    forall i | 0 <= i < |sizes| ensures NodeDrawn(st, after[i], Behind(sizes, lines)[i], l) {
      assert SizeOf(st, after[i]) == sizes[i];
      ReadNode(st, after[i], ws, lines, TotalIns(sizes[..i]), l);
      BehindAt(sizes, lines, i);
    }
  }

  lemma LinesStay(s: St, t: St, ws: seq<Wire>, lines: seq<Source>, at: nat)
    requires SameFront(s, t, at) && Lined(s, ws, lines, at)
    ensures Lined(t, ws, lines, at)
  {
    hide SameFront; hide IsLine;
    forall j | 0 <= j < |ws| ensures IsLine(t, ws[j], lines[j], at) { LineMoves(s, t, at, ws[j], lines[j]); }
  }

  /** The network and the layer behind it are drawn. */
  lemma NetworkDrawn(g0: Graph, first: nat, s: St, t: St, rho: Origins, topo: seq<seq<Wiring>>, net: Net, ws: seq<Wire>, after: seq<nat>, l: nat)
    requires Laid(s, topo, net, ws) && l == |topo| + |net.layers| && Sound(g0, first, s, rho) && InLayers(s.nl, s.layers) && LayerAt(s, after, l)
    requires OnlyNodes(s, t, after) && AllRead(t, after, LayerSizes(s, after), ws, |after|) && l < |s.layers| && s.layers[l] == after
    ensures Drawn(t, topo + net.layers + [Behind(LayerSizes(s, after), net.lines)]) && t.layers == s.layers
  {
    hide *;
    LaidParts(s, topo, net, ws);
    OnlyFront(g0, first, s, t, rho, after, l);
    SameLayers(s, t, after);
    DrawnKept(s, t, topo + net.layers);
    LinesStay(s, t, ws, net.lines, l);
    BehindDrawn(t, after, LayerSizes(s, after), ws, net.lines, l);
    DrawnMore(t, topo + net.layers, Behind(LayerSizes(s, after), net.lines));
  }

  lemma SameLayers(s: St, t: St, after: seq<nat>)
    requires OnlyNodes(s, t, after)
    ensures t.layers == s.layers
  {
  }

  /** Before the network, the wires are the outputs of the layer before. */
  lemma EnteringLaid(st: St, topo: seq<seq<Wiring>>, before: seq<nat>, ins: seq<nat>, size: nat, ws: seq<Wire>)
    requires Drawn(st, topo) && |topo| >= 1 && st.layers[|topo| - 1] == before && Known(st, before) && ins == Flat(st, before, true)
    requires |ws| == size && forall j :: 0 <= j < |ws| ==> ws[j] == if j < |ins| then Cell(ins[j]) else Null
    ensures Laid(st, topo, Net([], Entering(|topo| - 1, |ins|, size)), ws)
  {
    assert |topo| <= |st.layers|;
    hide Drawn; hide Flat;
    assert topo + [] == topo;
    var lines := Entering(|topo| - 1, |ins|, size);
    forall j | 0 <= j < |ws| ensures IsLine(st, ws[j], lines[j], |topo|) { }
  }

  lemma DistinctNodes(st: St, layer: seq<nat>, l: nat)
    requires LayerAt(st, layer, l)
    ensures forall i, j :: 0 <= i < j < |layer| ==> layer[i] != layer[j]
  {
  }

  lemma SameAll(st: St, after: seq<nat>)
    requires Known(st, after)
    ensures SameFrom(st, st, after, 0)
  {
  }

  lemma SameAt(s: St, t: St, after: seq<nat>, j: nat)
    requires SameFrom(s, t, after, j) && j < |after|
    ensures after[j] in s.g.mlmi && after[j] in t.g.mlmi && t.g.mlmi[after[j]] == s.g.mlmi[after[j]]
  {
  }

  lemma SameNext(t0: St, s: St, t: St, after: seq<nat>, j: nat)
    requires SameFrom(t0, s, after, j) && j < |after| && (forall i, k :: 0 <= i < k < |after| ==> after[i] != after[k])
    requires forall y :: y in s.g.mlmi && y != after[j] ==> y in t.g.mlmi && t.g.mlmi[y] == s.g.mlmi[y]
    ensures SameFrom(t0, t, after, j + 1)
  {
  }

  lemma KnownPrefix(st: St, layer: seq<nat>, i: nat)
    requires Known(st, layer) && i <= |layer|
    ensures Known(st, layer[..i]) && (i == 0 ==> Flat(st, layer[..i], false) == [])
  {
  }

  lemma MovedLayer(s: St, t: St, rho: Origins, rho2: Origins, at: nat, d: nat, layer: seq<nat>, outs: seq<nat>)
    requires Inserted(s, t, rho, rho2, at, d) && LayerAt(s, layer, at) && Known(s, layer) && outs == Flat(s, layer, false)
    ensures LayerAt(t, layer, at + d) && Known(t, layer) && outs == Flat(t, layer, false)
  {
    hide Level; hide OriginOf;
    FlatSame(s, t, layer);
  }

  lemma {:induction false} FlatSame(s: St, t: St, layer: seq<nat>)
    requires Known(s, layer) && Known(t, layer) && forall i :: 0 <= i < |layer| ==> t.g.mlmi[layer[i]] == s.g.mlmi[layer[i]]
    ensures Flat(t, layer, false) == Flat(s, layer, false) && Flat(t, layer, true) == Flat(s, layer, true)
    decreases |layer|
  {
    if layer != [] { FlatSame(s, t, layer[..|layer| - 1]); }
  }

  lemma {:induction false} FlatOutputs(s: St, t: St, layer: seq<nat>)
    requires Known(s, layer) && Known(t, layer) && forall i :: 0 <= i < |layer| ==> t.g.mlmi[layer[i]].outputs == s.g.mlmi[layer[i]].outputs
    ensures Flat(t, layer, true) == Flat(s, layer, true)
    decreases |layer|
  {
    if layer != [] { FlatOutputs(s, t, layer[..|layer| - 1]); }
  }

  lemma FlatBelow(g0: Graph, first: nat, st: St, rho: Origins, layer: seq<nat>, l: nat)
    requires Sound(g0, first, st, rho) && BackOk(st.g) && LayerAt(st, layer, l) && Known(st, layer)
    ensures forall m :: m in Flat(st, layer, false) ==> m < st.k
  {
    hide *;
    LayerKnown(st, layer, l);
    forall m | m in Flat(st, layer, false) ensures m < st.k {
      FlatIn(st, layer, false, m);
      var i :| 0 <= i < |layer| && m in st.g.mlmi[layer[i]].inputs;
      InputsBelow(g0, first, st, rho, layer[i]);
    }
  }

  /** The network between two adjacent layers: compiled, inserted, and read by the layer behind it. Which nodes are inserted
      and what they read depends on the numbers of outputs and inputs alone. Without any position the code raises. */
  method PermuteBetween(u: Universal, ghost g0: Graph, ghost first: nat, before: seq<nat>, after: seq<nat>, at: nat, le: nat, ghost topo: seq<seq<Wiring>>) returns (ok: bool, d: nat)
    requires u.Valid(g0, first) && NodesOk(u.st.g) && BackOk(u.st.g) && at >= 1 && at <= |u.st.layers| && LayerAt(u.st, before, at - 1) && LayerAt(u.st, after, at)
    requires Known(u.st, before) && Known(u.st, after) && Feeds(u.st, before, after)
    requires le >= 1 && u.lim.lin == u.lim.lout == Bits.Pow2(le)
    requires Drawn(u.st, topo) && |topo| == at && at < |u.st.layers| && u.st.layers[at - 1] == before && u.st.layers[at] == after
    modifies u
    ensures Known(old(u.st), before) && Known(old(u.st), after) && (ok <==> Flat(old(u.st), before, true) != [] || Flat(old(u.st), after, false) != [])
    ensures ok ==> u.Valid(g0, first) && NodesOk(u.st.g) && BackOk(u.st.g) && Permuted(old(u.st), u.st, at, d, after)
    ensures ok ==> Continued(old(u.st), u.st, topo, Network(le, at - 1, |Flat(old(u.st), before, true)|, |Flat(old(u.st), after, false)|), LayerSizes(old(u.st), after), d)
  {
    hide *;
    ghost var s0, r0 := u.st, u.rho;
    u.ValidParts(g0, first);
    var ins := Flatten(u.st, before, true);
    var outs := Flatten(u.st, after, false);
    var need := if |ins| >= |outs| then |ins| else |outs|;
    if need < 1 { return false, 0; }
    ok := true;
    var m := BigEndian.CeilLog2(need);
    var size := Bits.Pow2(m);
    NetworkBits(need);
    FeedsIs(u.st, before, after);
    var f := Positions(ins, outs, size);
    var rows := Bdb.CompileOptimized(m, le, f);
    MakeRowsFit(size, rows, Bits.Pow2(le));
    var ws0: seq<Wire> := seq(size, j requires 0 <= j < size => if j < |ins| then Cell(ins[j]) else Null);
    StartWires(g0, first, s0, r0, before, at, ins, ws0);
    EnteringLaid(s0, topo, before, ins, size, ws0);
    FlatBelow(g0, first, s0, r0, after, at);
    NetworkIs(le, at - 1, |ins|, |outs|);
    var ws;
    ws, d := AddRows(u, g0, first, at, ws0, rows, topo, Entering(at - 1, |ins|, size));
    ghost var s1, r1 := u.st, u.rho;
    u.ValidParts(g0, first);
    InsertedIsPermuted(s0, u.st, r0, u.rho, at, d, after);
    MovedLayer(s0, u.st, r0, u.rho, at, d, after, outs);
    MovedSizes(s0, s1, r0, r1, at, d, after);
    NetworkDelivers(s0, u.st, r0, u.rho, ins, outs, ws0, ws, f, at, d);
    BehindAfter(s0, s1, after, at, d);
    ReadNetwork(u, g0, first, after, ws, outs, s0, at, d);
    NetworkDrawn(g0, first, s1, u.st, r1, topo, Network(le, at - 1, |ins|, |outs|), ws, after, at + d);
    MakeContinued(s0, u.st, topo, Network(le, at - 1, |ins|, |outs|), LayerSizes(s0, after), d);
  }

  /** The topology goes on with the network and the layer behind it; the layers after that have moved. */
  ghost predicate Continued(s: St, t: St, topo: seq<seq<Wiring>>, net: Net, sizes: seq<Size>, d: nat) {
    && d == |net.layers| && Drawn(t, topo + net.layers + [Behind(sizes, net.lines)])
    && |topo| <= |s.layers| && |topo| + d <= |t.layers| && t.layers[|topo| + d..] == s.layers[|topo|..]
  }

  lemma MakeContinued(s: St, t: St, topo: seq<seq<Wiring>>, net: Net, sizes: seq<Size>, d: nat)
    requires d == |net.layers| && Drawn(t, topo + net.layers + [Behind(sizes, net.lines)])
    requires |topo| <= |s.layers| && |topo| + d <= |t.layers| && t.layers[|topo| + d..] == s.layers[|topo|..]
    ensures Continued(s, t, topo, net, sizes, d)
  {
    hide Drawn; hide Behind;
  }

  lemma BehindAfter(s: St, t: St, after: seq<nat>, at: nat, d: nat)
    requires at < |s.layers| && s.layers[at] == after && at + d <= |t.layers| && t.layers[at + d..] == s.layers[at..]
    ensures at + d < |t.layers| && t.layers[at + d] == after
  {
    assert s.layers[at..][0] == after && t.layers[at + d..][0] == after;
  }

  lemma MovedSizes(s: St, t: St, rho: Origins, rho2: Origins, at: nat, d: nat, layer: seq<nat>)
    requires Inserted(s, t, rho, rho2, at, d) && Known(s, layer)
    ensures LayerSizes(t, layer) == LayerSizes(s, layer)
  {
    hide Level; hide OriginOf;
  }

  lemma NetworkBits(need: nat)
    requires need >= 1
    ensures need <= Bits.Pow2(BigEndian.CeilLog2(need))
  {
    assert Bits.Pow2(0) == 1;
  }

  lemma FeedsIs(st: St, before: seq<nat>, after: seq<nat>)
    requires Known(st, before) && Known(st, after) && Feeds(st, before, after)
    ensures forall m :: m in Flat(st, after, false) ==> m in Flat(st, before, true)
  {
    hide Flat;
  }

  lemma MakeRowsFit(n: nat, r: seq<Rows.Row>, size: nat)
    requires Rows.Fits(n, r) && BenesMulti.WindowsBelow(r, size)
    ensures RowsFit(n, r, size)
  {
    hide Rows.Fits; hide BenesMulti.WindowsBelow;
  }

  // ----- all pairs of layers -----

  /** The layers from `i` on follow each other without gap, the first of them just before `at`. */
  ghost predicate InRow(st: St, layers: seq<seq<nat>>, i: nat, at: nat)
    requires at >= 1
  {
    |st.layers| + i + 1 == at + |layers| && forall j :: i <= j < |layers| ==> LayerAt(st, layers[j], at - 1 + (j - i))
  }

  ghost predicate FeedsAll(st: St, layers: seq<seq<nat>>, i: nat) {
    forall j :: i <= j < |layers| - 1 ==> FeedsPair(st, layers[j], layers[j + 1])
  }

  ghost predicate FeedsPair(st: St, before: seq<nat>, after: seq<nat>) {
    Known(st, before) && Known(st, after) && Feeds(st, before, after)
  }

  lemma RowMoves(s: St, t: St, layers: seq<seq<nat>>, i: nat, at: nat, d: nat)
    requires at >= 1 && i + 1 < |layers| && InRow(s, layers, i, at) && Permuted(s, t, at, d, layers[i + 1])
    ensures InRow(t, layers, i + 1, at + d + 1)
  {
    hide Level;
    forall j | i + 1 <= j < |layers| ensures LayerAt(t, layers[j], at + d + 1 - 1 + (j - (i + 1))) {
      assert LayerAt(s, layers[j], at - 1 + (j - i));
      LayerMoves(s, t, layers[j], at - 1 + (j - i), at, d, layers[i + 1]);
    }
  }

  lemma LayerMoves(s: St, t: St, layer: seq<nat>, l: nat, at: nat, d: nat, after: seq<nat>)
    requires LayerAt(s, layer, l) && Permuted(s, t, at, d, after) && l >= at
    ensures LayerAt(t, layer, l + d)
  {
    hide Level;
  }

  lemma FeedsMove(s: St, t: St, layers: seq<seq<nat>>, i: nat, at: nat, d: nat)
    requires at >= 1 && i + 1 < |layers| && InRow(s, layers, i, at) && FeedsAll(s, layers, i) && Permuted(s, t, at, d, layers[i + 1])
    ensures FeedsAll(t, layers, i + 1)
  {
    hide Level; hide Feeds;
    forall j | i + 1 <= j < |layers| - 1 ensures FeedsPair(t, layers[j], layers[j + 1]) {
      assert FeedsPair(s, layers[j], layers[j + 1]);
      assert LayerAt(s, layers[i + 1], at - 1 + 1) && LayerAt(s, layers[j], at - 1 + (j - i)) && LayerAt(s, layers[j + 1], at - 1 + (j + 1 - i));
      FeedsMoves(s, t, layers[j], layers[j + 1], layers[i + 1], at, at - 1 + (j + 1 - i), d);
    }
  }

  lemma FeedsMoves(s: St, t: St, before: seq<nat>, after: seq<nat>, changed: seq<nat>, at: nat, l: nat, d: nat)
    requires FeedsPair(s, before, after) && Permuted(s, t, at, d, changed) && LayerAt(s, changed, at) && LayerAt(s, after, l) && l != at
    ensures FeedsPair(t, before, after)
  {
    hide Level; hide Flat;
    forall k | 0 <= k < |after| ensures t.g.mlmi[after[k]] == s.g.mlmi[after[k]] {
      assert after[k] !in changed;
    }
    FlatSame(s, t, after);
    FlatOutputs(s, t, before);
  }

  lemma OutputsMove(s: St, t: St, at: nat, d: nat, after: seq<nat>)
    requires Permuted(s, t, at, d, after) && OutputsFrom(s, |s.layers| - 1) && at < |s.layers| && forall o :: o in s.g.progOutputs ==> o < s.k
    ensures OutputsFrom(t, |t.layers| - 1)
  {
    hide Level;
  }

  lemma PairAt(st: St, layers: seq<seq<nat>>, i: nat, at: nat)
    requires at >= 1 && InRow(st, layers, i, at) && FeedsAll(st, layers, i) && i + 1 < |layers|
    ensures LayerAt(st, layers[i], at - 1) && LayerAt(st, layers[i + 1], at) && FeedsPair(st, layers[i], layers[i + 1]) && at < |st.layers|
    ensures Known(st, layers[i]) && Known(st, layers[i + 1]) && Feeds(st, layers[i], layers[i + 1])
  {
    hide Feeds;
    assert LayerAt(st, layers[i + 1], at - 1 + (i + 1 - i));
  }

  /** Each network has a position. */
  ghost predicate WideEnough(st: St, layers: seq<seq<nat>>, i: nat) {
    forall j :: i <= j < |layers| - 1 ==> Known(st, layers[j]) && |Flat(st, layers[j], true)| >= 1
  }

  lemma WideMoves(s: St, t: St, layers: seq<seq<nat>>, i: nat, at: nat, d: nat, after: seq<nat>)
    requires WideEnough(s, layers, i) && Permuted(s, t, at, d, after)
    ensures WideEnough(t, layers, i + 1)
  {
    hide Level;
    forall j | i + 1 <= j < |layers| - 1 ensures Known(t, layers[j]) && |Flat(t, layers[j], true)| >= 1 { FlatOutputs(s, t, layers[j]); }
  }

  /** Layers as the passes before leave them: tight, in a row, and feeding each other. */
  lemma StartRow(g0: Graph, first: nat, st: St, rho: Origins)
    requires Sound(g0, first, st, rho) && BackOk(st.g) && AllTight(st)
    ensures InRow(st, st.layers, 0, 1) && FeedsAll(st, st.layers, 0)
  {
    SoundParts(g0, first, st, rho);
    hide Sound; hide Tracks; hide NodeOk; hide BackOk; hide FwdOk; hide Ordered; hide OriginsOk; hide Below; hide Feeds; hide Level; hide Available; hide AvailableOk;
    forall j | 0 <= j < |st.layers| ensures LayerAt(st, st.layers[j], 1 - 1 + (j - 0)) {
      forall i | 0 <= i < |st.layers[j]| ensures st.layers[j][i] in st.nl && st.nl[st.layers[j][i]] == j { assert st.layers[j][i] in st.layers[j]; }
    }
    forall j | 0 <= j < |st.layers| - 1 ensures FeedsPair(st, st.layers[j], st.layers[j + 1]) {
      assert LayerAt(st, st.layers[j], 1 - 1 + (j - 0)) && LayerAt(st, st.layers[j + 1], 1 - 1 + (j + 1 - 0));
      LayerKnown(st, st.layers[j], j);
      LayerKnown(st, st.layers[j + 1], j + 1);
      TightFeeds(g0, first, st, rho, j);
    }
  }

  lemma TightFeeds(g0: Graph, first: nat, st: St, rho: Origins, j: nat)
    requires Sound(g0, first, st, rho) && BackOk(st.g) && AllTight(st) && j + 1 < |st.layers| && Known(st, st.layers[j]) && Known(st, st.layers[j + 1])
    ensures Feeds(st, st.layers[j], st.layers[j + 1])
  {
    SoundParts(g0, first, st, rho);
    hide Sound; hide Tracks; hide NodeOk; hide FwdOk; hide Ordered; hide OriginsOk; hide Below; hide Flat; hide Assigns;
    var a, b := st.layers[j], st.layers[j + 1];
    forall m | m in Flat(st, b, false) ensures m in Flat(st, a, true) {
      FlatIn(st, b, false, m);
      var i :| 0 <= i < |b| && m in st.g.mlmi[b[i]].inputs;
      assert b[i] in b;
      assert NodeTight(st, b[i]) && Available(st.g, m);
      var n := st.g.back[m];
      assert n in a;
      var q :| 0 <= q < |a| && a[q] == n;
      FlatIn(st, a, true, m);
    }
  }

  // ----- sizes and positions of the layers -----

  /** Nodes keep their numbers of inputs and outputs. */
  ghost predicate SameSizes(s: St, t: St) {
    forall y :: y in s.g.mlmi ==> y in t.g.mlmi && SizeOf(t, y) == SizeOf(s, y)
  }

  lemma PermutedSizes(s0: St, s: St, t: St, at: nat, d: nat, after: seq<nat>)
    requires SameSizes(s0, s) && Permuted(s, t, at, d, after)
    ensures SameSizes(s0, t)
  {
    hide Level;
  }

  lemma SizesStay(s0: St, s: St, layers: seq<seq<nat>>, j: nat)
    requires SameSizes(s0, s) && j < |layers| && Known(s0, layers[j])
    ensures Known(s, layers[j]) && LayerSizes(s, layers[j]) == SizesOf(s0, layers)[j]
  {
  }

  /** The layers not yet reached follow the drawn ones. */
  ghost predicate Waiting(st: St, layers: seq<seq<nat>>, i: nat, at: nat) {
    1 <= at <= |st.layers| && i <= |layers| && st.layers[at - 1..] == layers[i..]
  }

  lemma WaitingAt(st: St, layers: seq<seq<nat>>, i: nat, at: nat)
    requires Waiting(st, layers, i, at) && i + 1 < |layers|
    ensures at < |st.layers| && st.layers[at - 1] == layers[i] && st.layers[at] == layers[i + 1]
  {
    assert st.layers[at - 1..][0] == layers[i..][0] && st.layers[at - 1..][1] == layers[i..][1];
  }

  lemma WaitingNext(s: St, t: St, layers: seq<seq<nat>>, i: nat, at: nat, topo: seq<seq<Wiring>>, net: Net, sizes: seq<Size>, d: nat)
    requires Waiting(s, layers, i, at) && i + 1 < |layers| && |topo| == at && Continued(s, t, topo, net, sizes, d)
    ensures Waiting(t, layers, i + 1, at + d + 1) && Drawn(t, topo + net.layers + [Behind(sizes, net.lines)]) && |topo + net.layers + [Behind(sizes, net.lines)]| == at + d + 1
  {
    hide Drawn; hide Behind;
    assert t.layers[at + d..] == s.layers[at - 1..][1..] == layers[i..][1..] == layers[i + 1..];
  }

  lemma WaitingDone(st: St, layers: seq<seq<nat>>, at: nat)
    requires |layers| >= 1 && Waiting(st, layers, |layers| - 1, at)
    ensures |st.layers| == at
  {
    assert |st.layers[at - 1..]| == |layers[|layers| - 1..]|;
  }

  lemma LayoutNext(le: nat, sizes: seq<seq<Size>>, i: nat, at: nat)
    requires le >= 1 && i + 1 < |sizes| && |Layout(le, sizes[..i + 1])| == at >= 1
    ensures var net := Network(le, at - 1, TotalOuts(sizes[i]), TotalIns(sizes[i + 1]));
      Layout(le, sizes[..i + 2]) == Layout(le, sizes[..i + 1]) + net.layers + [Behind(sizes[i + 1], net.lines)]
  {
    hide Network; hide TotalOuts; hide TotalIns; hide Behind;
    assert sizes[..i + 2][..i + 1] == sizes[..i + 1];
  }

  lemma LayoutOne(le: nat, sizes: seq<seq<Size>>)
    requires le >= 1 && |sizes| >= 1
    ensures Layout(le, sizes[..1]) == [FirstLayer(sizes[0])]
  {
  }

  /** The first layer reads program inputs. */
  lemma FirstDrawn(g0: Graph, first: nat, st: St, rho: Origins, le: nat)
    requires Sound(g0, first, st, rho) && NodesOk(st.g) && BackOk(st.g) && AvailableOk(st.g) && st.nl.Keys == st.g.nodes && InLayers(st.nl, st.layers) && AllTight(st) && |st.layers| >= 1 && le >= 1
    ensures Drawn(st, Layout(le, SizesOf(st, st.layers)[..1])) && |Layout(le, SizesOf(st, st.layers)[..1])| == 1
  {
    hide *;
    var sizes := SizesOf(st, st.layers);
    SizesAre(st, st.layers);
    LayoutOne(le, sizes);
    forall i | 0 <= i < |st.layers[0]| ensures NodeDrawn(st, st.layers[0][i], FirstLayer(sizes[0])[i], 0) { FirstNode(g0, first, st, rho, i); }
    FirstSize(st);
    MakeLayerDrawn(st, 0, FirstLayer(sizes[0]));
    OneLayerDrawn(st, FirstLayer(sizes[0]));
  }

  lemma OneLayerDrawn(st: St, ws: seq<Wiring>)
    requires LayerDrawn(st, 0, ws)
    ensures Drawn(st, [ws])
  {
    assert 0 < |st.layers|;
    hide LayerDrawn;
  }

  lemma SizesAre(st: St, layers: seq<seq<nat>>)
    ensures |SizesOf(st, layers)| == |layers| && forall l :: 0 <= l < |layers| ==> SizesOf(st, layers)[l] == LayerSizes(st, layers[l])
  {
    hide LayerSizes;
  }

  lemma FirstSize(st: St)
    requires |st.layers| >= 1
    ensures |FirstLayer(LayerSizes(st, st.layers[0]))| == |st.layers[0]|
  {
  }

  lemma FirstNode(g0: Graph, first: nat, st: St, rho: Origins, i: nat)
    requires Sound(g0, first, st, rho) && NodesOk(st.g) && BackOk(st.g) && AvailableOk(st.g) && st.nl.Keys == st.g.nodes && InLayers(st.nl, st.layers) && AllTight(st)
    requires |st.layers| >= 1 && i < |st.layers[0]|
    ensures i < |FirstLayer(LayerSizes(st, st.layers[0]))| && NodeDrawn(st, st.layers[0][i], FirstLayer(LayerSizes(st, st.layers[0]))[i], 0)
  {
    SoundParts(g0, first, st, rho);
    hide Sound; hide Tracks; hide NodeOk; hide BackOk; hide FwdOk; hide Ordered; hide OriginsOk; hide Below; hide Level; hide Available;
    var n := st.layers[0][i];
    assert n in st.layers[0];
    assert n in st.g.nodes && st.nl[n] == 0 && n in st.g.mlmi;
    assert NodeTight(st, n);
    forall q | 0 <= q < |st.g.mlmi[n].inputs| ensures st.g.mlmi[n].inputs[q] in st.g.progInputs {
      var m := st.g.mlmi[n].inputs[q];
      assert m in st.g.mlmi[n].inputs;
      InputKnown(g0, first, st, rho, n, m);
      Masking.LevelOfInput(st, m);
    }
  }

  /** `add_permutation`: a network between every two adjacent layers. The graph keeps its meaning and its limits, the program
      outputs stay in the last layer, and the layers, nodes and edges that result are a function of the sizes of the nodes
      before: nothing else about the program can be seen in them. */
  method AddPermutation(u: Universal, ghost g0: Graph, ghost first: nat, le: nat) returns (ok: bool)
    requires u.Valid(g0, first) && AllTight(u.st) && OutputsFrom(u.st, |u.st.layers| - 1) && |u.st.layers| >= 1 && le >= 1 && u.lim.lin == u.lim.lout == Bits.Pow2(le)
    modifies u
    ensures ok ==> u.Valid(g0, first) && OutputsFrom(u.st, |u.st.layers| - 1) && u.st.g.progInputs == old(u.st.g.progInputs)
    ensures ok ==> LaidOut(u.st, Layout(le, SizesOf(old(u.st), old(u.st.layers))))
    ensures (ok ==> |u.st.layers| >= |old(u.st.layers)|) && (WideEnough(old(u.st), old(u.st.layers), 0) ==> ok)
    ensures ok ==> forall j :: 0 <= j < |old(u.st.layers)| - 1 ==> old(u.st.layers)[j] != [] || old(u.st.layers)[j + 1] != []
  {
    hide *;
    ghost var s0 := u.st;
    var layers := u.st.layers;
    ghost var sizes := SizesOf(s0, layers);
    u.ValidParts(g0, first);
    StartRow(g0, first, u.st, u.rho);
    FirstDrawn(g0, first, u.st, u.rho, le);
    StartWaiting(s0);
    StartKnown(g0, first, s0, u.rho);
    SizesAre(s0, layers);
    var at := 1;
    for i := 0 to |layers| - 1
      invariant at >= 1 && u.Valid(g0, first) && InRow(u.st, layers, i, at) && FeedsAll(u.st, layers, i) && OutputsFrom(u.st, |u.st.layers| - 1) && u.st.g.progInputs == s0.g.progInputs
      invariant (WideEnough(s0, layers, 0) ==> WideEnough(u.st, layers, i)) && |u.st.layers| >= |s0.layers|
      invariant forall j :: 0 <= j < i ==> layers[j] != [] || layers[j + 1] != []
      invariant Waiting(u.st, layers, i, at) && SameSizes(s0, u.st) && Drawn(u.st, Layout(le, sizes[..i + 1])) && |Layout(le, sizes[..i + 1])| == at
    {
      ghost var s, topo := u.st, Layout(le, sizes[..i + 1]);
      u.ValidParts(g0, first);
      PairAt(u.st, layers, i, at);
      WaitingAt(u.st, layers, i, at);
      OutputsBelowK(g0, first, u.st, u.rho);
      KnownAt(s0, layers, i);
      KnownAt(s0, layers, i + 1);
      SizesStay(s0, s, layers, i);
      SizesStay(s0, s, layers, i + 1);
      FlatSizes(s, layers[i]);
      FlatSizes(s, layers[i + 1]);
      LayoutNext(le, sizes, i, at);
      var done, d := PermuteBetween(u, g0, first, layers[i], layers[i + 1], at, le, topo);
      if WideEnough(s, layers, i) { WideAt(s, layers, i); }
      if !done { return false; }
      FlatNonempty(s, layers[i], true);
      FlatNonempty(s, layers[i + 1], false);
      RowMoves(s, u.st, layers, i, at, d);
      FeedsMove(s, u.st, layers, i, at, d);
      OutputsMove(s, u.st, at, d, layers[i + 1]);
      if WideEnough(s, layers, i) { WideMoves(s, u.st, layers, i, at, d, layers[i + 1]); }
      PermutedInputs(s, u.st, at, d, layers[i + 1]);
      PermutedSizes(s0, s, u.st, at, d, layers[i + 1]);
      WaitingNext(s, u.st, layers, i, at, topo, Network(le, at - 1, |Flat(s, layers[i], true)|, |Flat(s, layers[i + 1], false)|), LayerSizes(s, layers[i + 1]), d);
      at := at + d + 1;
    }
    WaitingDone(u.st, layers, at);
    assert sizes[..|sizes|] == sizes;
    MakeLaidOut(u.st, Layout(le, sizes));
    return true;
  }

  ghost predicate AllKnown(st: St, layers: seq<seq<nat>>) {
    forall j :: 0 <= j < |layers| ==> Known(st, layers[j])
  }

  lemma KnownAt(st: St, layers: seq<seq<nat>>, j: nat)
    requires AllKnown(st, layers) && j < |layers|
    ensures Known(st, layers[j])
  {
    hide Known;
  }

  lemma StartKnown(g0: Graph, first: nat, st: St, rho: Origins)
    requires Sound(g0, first, st, rho)
    ensures AllKnown(st, st.layers)
  {
    hide *;
    forall j | 0 <= j < |st.layers| ensures Known(st, st.layers[j]) {
      SoundParts(g0, first, st, rho);
      LayerNodesKnown(g0, first, st, rho, j);
      MakeKnown(st, st.layers[j]);
    }
    MakeAllKnown(st, st.layers);
  }

  lemma MakeAllKnown(st: St, layers: seq<seq<nat>>)
    requires forall j :: 0 <= j < |layers| ==> Known(st, layers[j])
    ensures AllKnown(st, layers)
  {
    hide Known;
  }

  lemma MakeKnown(st: St, layer: seq<nat>)
    requires forall y :: y in layer ==> y in st.g.mlmi
    ensures Known(st, layer)
  {
  }

  lemma StartWaiting(st: St)
    requires |st.layers| >= 1
    ensures Waiting(st, st.layers, 0, 1) && SameSizes(st, st)
  {
  }

  lemma MakeLaidOut(st: St, topo: seq<seq<Wiring>>)
    requires Drawn(st, topo) && |topo| == |st.layers|
    ensures LaidOut(st, topo)
  {
    hide Drawn;
  }

  lemma FlatNonempty(st: St, layer: seq<nat>, outputs: bool)
    requires Known(st, layer)
    ensures Flat(st, layer, outputs) == [] || layer != []
  {
  }

  lemma {:induction false} FlatLong(st: St, layer: seq<nat>, n: nat)
    requires Known(st, layer) && n in layer
    ensures n in st.g.mlmi && |Flat(st, layer, true)| >= |st.g.mlmi[n].outputs|
    decreases |layer|
  {
    var k := |layer| - 1;
    if n != layer[k] { FlatLong(st, layer[..k], n); }
  }

  lemma WideAt(st: St, layers: seq<seq<nat>>, i: nat)
    requires WideEnough(st, layers, i) && i + 1 < |layers|
    ensures Known(st, layers[i]) && |Flat(st, layers[i], true)| >= 1
  {
  }

  lemma PermutedInputs(s: St, t: St, at: nat, d: nat, after: seq<nat>)
    requires Permuted(s, t, at, d, after)
    ensures t.g.progInputs == s.g.progInputs && |t.layers| == |s.layers| + d
  {
    hide Level;
  }
}
