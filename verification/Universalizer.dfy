/** The passes of compiler/src/universalization/universalizer.py on layered graphs: the input masking layer, the
    propagation of outputs to the last layer, and padding. */
module Universalizer {
  import opened Dfg
  import opened DfgSchedule
  import opened Copies
  import opened Tracking
  import opened Layerize
  import opened LayeredGraph
  import opened Rectangularize
  import opened UniversalOps

  // ----- what a step changes -----

  /** Only nodes of layer `l` change or are new; cells keep their layers and origins. */
  ghost predicate OnlyLayer(s: St, t: St, rho: Origins, rho2: Origins, l: nat) {
    && s.k <= t.k && |t.layers| == |s.layers| && (forall j :: 0 <= j < |s.layers| && j != l ==> t.layers[j] == s.layers[j])
    && (forall y :: y in s.nl ==> y in t.nl && t.nl[y] == s.nl[y]) && (forall y :: y in t.nl && y !in s.nl ==> t.nl[y] == l)
    && (forall y :: y in s.g.mlmi ==> y in t.g.mlmi) && (forall y :: y in s.g.mlmi && y in s.nl && s.nl[y] != l ==> t.g.mlmi[y] == s.g.mlmi[y])
    && (forall x: nat :: x < s.k ==> Level(t, x) == Level(s, x) && OriginOf(rho2, x) == OriginOf(rho, x))
    && t.g.progInputs == s.g.progInputs && t.g.progOutputs == s.g.progOutputs && Wider(s, t)
  }

  /** Nodes keep their layers and have at least as many outputs. */
  ghost predicate Wider(s: St, t: St) {
    forall y :: y in s.nl && y in s.g.mlmi ==> y in t.nl && t.nl[y] == s.nl[y] && y in t.g.mlmi && |t.g.mlmi[y].outputs| >= |s.g.mlmi[y].outputs|
  }

  lemma WiderTrans(s: St, t: St, u: St)
    requires Wider(s, t) && Wider(t, u)
    ensures Wider(s, u)
  {
  }

  lemma OnlyLayerTrans(s: St, t: St, u: St, rho: Origins, rho2: Origins, rho3: Origins, l: nat)
    requires OnlyLayer(s, t, rho, rho2, l) && OnlyLayer(t, u, rho2, rho3, l)
    ensures OnlyLayer(s, u, rho, rho3, l)
  {
    hide Level; hide OriginOf;
  }

  lemma OnlyLayerSelf(s: St, rho: Origins, l: nat)
    ensures OnlyLayer(s, s, rho, rho, l)
  {
    hide Level; hide OriginOf;
  }

  lemma OneNodeOnly(s: St, t: St, rho: Origins, rho2: Origins, x: nat, l: nat)
    requires x in s.g.mlmi && x in s.nl && s.nl[x] == l && s.k <= t.k && t.layers == s.layers && t.nl == s.nl && x in t.g.mlmi && t.g.mlmi == s.g.mlmi[x := t.g.mlmi[x]]
    requires forall z: nat :: z < s.k ==> Level(t, z) == Level(s, z) && OriginOf(rho2, z) == OriginOf(rho, z)
    requires t.g.progInputs == s.g.progInputs && t.g.progOutputs == s.g.progOutputs && |t.g.mlmi[x].outputs| >= |s.g.mlmi[x].outputs|
    ensures OnlyLayer(s, t, rho, rho2, l)
  {
    hide Level; hide OriginOf;
  }

  lemma NewNodeOnly(s: St, rho: Origins, l: nat)
    requires l < |s.layers| && s.nextId !in s.g.mlmi && s.nextId !in s.nl && forall z: nat :: Level(NewNode(s, l), z) == Level(s, z)
    ensures OnlyLayer(s, NewNode(s, l), rho, rho, l)
  {
    hide Level; hide OriginOf;
  }

  /** Every node reads only the layer just before it. */
  ghost predicate AllTight(st: St) {
    forall n :: n in st.g.nodes && n in st.g.mlmi && n in st.nl ==> NodeTight(st, n)
  }

  // ----- the working graph -----

  class Universal {
    var st: St
    const lim: Limits
    ghost var rho: Origins

    constructor (st: St, lim: Limits, ghost rho: Origins)
      ensures this.st == st && this.lim == lim && this.rho == rho
    {
      this.st, this.lim, this.rho := st, lim, rho;
    }

    ghost predicate Valid(g0: Graph, first: nat)
      reads this
    {
      && Sound(g0, first, st, rho) && BackOk(st.g) && Within(st, lim)
      && lim.lin >= 1 && lim.lout >= 1 && lim.s >= lim.lin && lim.s >= lim.lout
    }

    lemma ValidParts(g0: Graph, first: nat)
      requires Valid(g0, first)
      ensures Sound(g0, first, st, rho) && NodesOk(st.g) && BackOk(st.g) && AvailableOk(st.g) && Within(st, lim) && Below(st.g, st.k) && Numbered(st)
      ensures lim.lin >= 1 && lim.lout >= 1 && lim.s >= lim.lin && lim.s >= lim.lout
      ensures st.nl.Keys == st.g.nodes && st.nextId !in st.g.mlmi && st.nextId !in st.nl && InLayers(st.nl, st.layers)
      ensures forall n :: n in st.g.nodes ==> n in st.g.mlmi
    {
      hide Within; hide Sound; hide BackOk; hide AvailableOk; hide InLayers; hide NodesOk; hide Below; hide Numbered;
      SoundParts(g0, first, st, rho);
      NodesKnown(st.g);
    }

    lemma MakeValid(g0: Graph, first: nat)
      requires Sound(g0, first, st, rho) && NodesOk(st.g) && BackOk(st.g) && Within(st, lim)
      requires lim.lin >= 1 && lim.lout >= 1 && lim.s >= lim.lin && lim.s >= lim.lout
      ensures Valid(g0, first)
    {
      hide Sound; hide NodesOk; hide BackOk; hide Within;
    }

    /** An empty node in layer `l`. */
    method Create(ghost g0: Graph, ghost first: nat, l: nat) returns (x: nat)
      requires Valid(g0, first) && l < |st.layers|
      modifies this`st
      ensures Valid(g0, first) && OnlyLayer(old(st), st, rho, rho, l) && x !in old(st.nl) && x !in old(st.g.mlmi) && old(st.g.nodes) <= st.g.nodes && x in st.g.nodes && x in st.g.mlmi && x in st.nl && st.nl[x] == l
      ensures st.g.mlmi[x] == Mlmi([], [], []) && st.k == old(st.k) && st.nl.Keys == old(st.nl.Keys) + {x} && (forall y :: y in old(st.g.mlmi) ==> y in st.g.mlmi && st.g.mlmi[y] == old(st.g.mlmi[y]))
      ensures NodesOk(old(st.g)) && BackOk(old(st.g)) && NodesOk(st.g) && BackOk(st.g) && forall z: nat :: Available(old(st.g), z) ==> Available(st.g, z)
      ensures st.layers[l] == old(st.layers)[l] + [x]
    {
      hide *;
      ghost var s := st;
      ValidParts(g0, first);
      x := st.nextId;
      NewNodeSound(g0, first, s, rho, l);
      NewNodeOnly(s, rho, l);
      NewNodeWithin(s, l, lim, 0);
      NewNodeIs(s, l);
      st := NewNode(st, l);
      SoundParts(g0, first, st, rho);
      forall y: nat | Available(s.g, y) ensures Available(st.g, y) { NewNodeAvailable(g0, first, s, rho, l, y); }
      MakeValid(g0, first);
    }

    /** One more copy in node `n`, or one more zero. */
    method Copy(ghost g0: Graph, ghost first: nat, n: nat, m: nat, zero: bool) returns (c: nat)
      requires Valid(g0, first) && n in st.g.nodes && n in st.g.mlmi && n in st.nl && NodesOk(st.g) && BackOk(st.g)
      requires zero || (Available(st.g, m) && Level(st, m) < st.nl[n] && |st.g.mlmi[n].inputs| < lim.lin)
      requires |st.g.mlmi[n].outputs| < lim.lout && |st.g.mlmi[n].instrs| < lim.s
      modifies this
      ensures Valid(g0, first) && n in old(st.nl) && OnlyLayer(old(st), st, old(rho), rho, old(st.nl)[n]) && c == old(st.k) && st.k == c + 1 && st.nl == old(st.nl)
      ensures NodesOk(old(st.g)) && BackOk(old(st.g)) && NodesOk(st.g) && BackOk(st.g) && Available(st.g, c) && Level(st, c) == st.nl[n]
      ensures (forall z: nat :: Available(old(st.g), z) && z < old(st.k) ==> Available(st.g, z)) && st.layers == old(st.layers) && st.g.nodes == old(st.g.nodes)
      ensures zero || OriginOf(rho, c) == OriginOf(old(rho), m)
      ensures n in old(st.g.mlmi) && st.g.mlmi == old(st.g.mlmi)[n := CopiedNode(old(st.g.mlmi[n]), c, m, zero)]
      ensures forall y :: !Reads(old(st), y, c)
    {
      hide *;
      ghost var s := st;
      ghost var r0 := rho;
      ValidParts(g0, first);
      MakeCanCopyAny(s, n, m, zero);
      CopySound(g0, first, s, rho, n, m, zero, false, true);
      CopyIs(s, n, m, zero, false, true);
      CopiedIs(s, n, m, zero);
      CopiedSizes(s.g.mlmi[n], s.k, m, zero);
      CopyManyWithin(s, n, m, zero, lim);
      c := st.k;
      NotYetRead(s);
      ghost var o := if zero then Zero else OriginOf(rho, m);
      st := CopyInto(st, n, m, zero, false, true);
      rho := rho[c := o];
      SoundParts(g0, first, st, rho);
      OriginsGrow(r0, c, o, m);
      OneNodeOnly(s, st, r0, rho, n, s.nl[n]);
      MakeValid(g0, first);
    }

    /** Node `n` reads `alt` instead of `m`. */
    method Read(ghost g0: Graph, ghost first: nat, n: nat, m: nat, alt: nat)
      requires Valid(g0, first) && n in st.g.nodes && n in st.g.mlmi && n in st.nl && NodesOk(st.g) && BackOk(st.g) && m in st.g.mlmi[n].inputs
      requires Available(st.g, alt) && Level(st, alt) < st.nl[n] && alt != m && OriginOf(rho, alt) == OriginOf(rho, m)
      modifies this`st
      ensures Valid(g0, first) && Local(old(st), st, n, 0) && st.k == old(st.k) && st.nl == old(st.nl) && st.layers == old(st.layers) && st.g.nodes == old(st.g.nodes)
      ensures NodesOk(old(st.g)) && BackOk(old(st.g)) && NodesOk(st.g) && BackOk(st.g) && forall z: nat :: Available(old(st.g), z) ==> Available(st.g, z)
      ensures n in old(st.g.mlmi) && n in st.g.mlmi && st.g.mlmi[n].inputs == Replaced(old(st.g.mlmi[n].inputs), m, alt) && st.g.mlmi[n].outputs == old(st.g.mlmi[n].outputs)
      ensures (forall y :: y in old(st.g.mlmi) && y != n ==> y in st.g.mlmi && st.g.mlmi[y] == old(st.g.mlmi[y])) && (forall z: nat :: Level(st, z) == Level(old(st), z))
      ensures st.g.progInputs == old(st.g.progInputs) && st.g.progOutputs == old(st.g.progOutputs)
    {
      hide *;
      ghost var s := st;
      ValidParts(g0, first);
      InputKnown(g0, first, s, rho, n, m);
      MakeCanRead(s, rho, n, m, alt);
      ReadSound(g0, first, s, rho, n, m, alt);
      ReadLocal(g0, first, s, rho, n, m, alt, 0);
      ReadWithin(s, n, m, alt, lim);
      ReadIs(s, n, m, alt);
      WithRewiredParts(s.g, n, Replaced(s.g.mlmi[n].inputs, m, alt), map[m := alt], ReadCopy(s, n, m, alt).g.fwd);
      st := ReadCopy(st, n, m, alt);
      SoundParts(g0, first, st, rho);
      MakeValid(g0, first);
    }

    /** `dfg.prog_outputs = [ new.get(m, m) for m in dfg.prog_outputs ]` */
    method RenameOutputs(ghost g0: Graph, ghost first: nat, sigma: map<nat, nat>)
      requires Valid(g0, first) && NodesOk(st.g) && BackOk(st.g)
      requires forall m :: m in sigma && m in st.g.progOutputs ==> Available(st.g, sigma[m]) && OriginOf(rho, sigma[m]) == OriginOf(rho, m)
      modifies this`st
      ensures Valid(g0, first) && st == SetOutputs(old(st), RenamedOutputs(sigma, old(st.g.progOutputs)))
      ensures NodesOk(old(st.g)) && BackOk(old(st.g)) && NodesOk(st.g) && BackOk(st.g) && forall z: nat :: Available(old(st.g), z) ==> Available(st.g, z)
      ensures forall z: nat :: Level(st, z) == Level(old(st), z)
    {
      hide *;
      ghost var s := st;
      ValidParts(g0, first);
      var outs := RenamedOutputs(sigma, st.g.progOutputs);
      RenamedOutputsOk(g0, first, st, rho, sigma);
      SetOutputsSound(g0, first, s, rho, outs);
      SetOutputsIs(s, outs);
      SetOutputsWithin(s, outs, lim);
      st := SetOutputs(st, outs);
      SoundParts(g0, first, st, rho);
      MakeValid(g0, first);
    }
  }

  function RenamedOutputs(sigma: map<nat, nat>, outs: seq<nat>): (r: seq<nat>)
    ensures |r| == |outs| && forall i :: 0 <= i < |outs| ==> r[i] == Renamed(sigma, outs[i])
  {
    seq(|outs|, i requires 0 <= i < |outs| => Renamed(sigma, outs[i]))
  }

  lemma RenamedOutputsOk(g0: Graph, first: nat, st: St, rho: Origins, sigma: map<nat, nat>)
    requires Sound(g0, first, st, rho) && BackOk(st.g) && NodesOk(st.g)
    requires forall m :: m in sigma && m in st.g.progOutputs ==> Available(st.g, sigma[m]) && OriginOf(rho, sigma[m]) == OriginOf(rho, m)
    ensures SameOrigins(rho, RenamedOutputs(sigma, st.g.progOutputs), st.g.progOutputs) && SameRepeats(st.g.progOutputs, RenamedOutputs(sigma, st.g.progOutputs))
    ensures forall o :: o in RenamedOutputs(sigma, st.g.progOutputs) ==> Available(st.g, o)
  {
    SoundParts(g0, first, st, rho);
    hide Sound; hide Tracks; hide NodeOk; hide Available; hide OriginOf; hide BackOk; hide FwdOk; hide Below; hide InLayers; hide Ordered;
    var outs := RenamedOutputs(sigma, st.g.progOutputs);
    forall i | 0 <= i < |outs| ensures OriginOf(rho, outs[i]) == OriginOf(rho, st.g.progOutputs[i]) && Available(st.g, outs[i]) {
      assert st.g.progOutputs[i] in st.g.progOutputs;
    }
  }

  lemma SetOutputsWithin(st: St, outs: seq<nat>, lim: Limits)
    requires Within(st, lim)
    ensures Within(SetOutputs(st, outs), lim)
  {
    hide NodeWithin;
  }

  /** Node `y` reads cell `m`. */
  ghost predicate Reads(st: St, y: nat, m: nat) {
    y in st.g.nodes && y in st.g.mlmi && m in st.g.mlmi[y].inputs
  }

  lemma NotYetRead(st: St)
    requires NodesOk(st.g) && Below(st.g, st.k)
    ensures forall y :: !Reads(st, y, st.k)
  {
    hide NodeOk;
    forall y ensures !Reads(st, y, st.k) {
      if y in st.g.nodes { assert NodeBelow(st.g.mlmi[y], st.k); }
    }
  }

  function CopiedNode(n: Mlmi, c: nat, m: nat, zero: bool): Mlmi {
    Extended(n, if zero then n.inputs else n.inputs + [m], if zero then MoveZero(c) else Move(c, m), false)
  }

  lemma CopiedSizes(n: Mlmi, c: nat, m: nat, zero: bool)
    ensures |CopiedNode(n, c, m, zero).outputs| == |n.outputs| + 1
  {
  }

  lemma CopiedBoth(n: Mlmi, c: nat, m: nat)
    ensures var e := CopiedNode(n, c, m, false); |e.inputs| == |n.inputs| + 1 && |e.outputs| == |n.outputs| + 1 && |e.instrs| == |n.instrs| + 1
    ensures var e := CopiedNode(n, c, m, true); e.inputs == n.inputs && |e.outputs| == |n.outputs| + 1 && |e.instrs| == |n.instrs| + 1
  {
  }

  lemma CopiedIs(s: St, n: nat, m: nat, zero: bool)
    requires n in s.g.mlmi
    ensures CopyInto(s, n, m, zero, false, true).g.mlmi == s.g.mlmi[n := CopiedNode(s.g.mlmi[n], s.k, m, zero)]
    ensures var t := CopyInto(s, n, m, zero, false, true); t.g.nodes == s.g.nodes && t.g.progInputs == s.g.progInputs && t.g.progOutputs == s.g.progOutputs
  {
    hide EdgeFor;
  }

  lemma OriginsGrow(rho: Origins, c: nat, o: Origin, m: nat)
    ensures OriginOf(rho[c := o], c) == o && forall z: nat :: z != c ==> OriginOf(rho[c := o], z) == OriginOf(rho, z)
  {
  }

  lemma MakeCanCopyAny(st: St, n: nat, m: nat, zero: bool)
    requires NodesOk(st.g) && BackOk(st.g) && st.nl.Keys == st.g.nodes && n in st.g.nodes && (zero || (Available(st.g, m) && Level(st, m) < st.nl[n]))
    ensures CanCopy(st, n, m, zero)
  {
    hide NodeOk; hide Available; hide Level; hide BackOk;
  }

  lemma CopiedWithin(n: Mlmi, c: nat, m: nat, zero: bool, lim: Limits)
    requires NodeWithin(n, lim) && |n.outputs| < lim.lout && |n.instrs| < lim.s && (zero || |n.inputs| < lim.lin) && c !in n.outputs
    ensures NodeWithin(CopiedNode(n, c, m, zero), lim)
  {
  }

  lemma CopyManyWithin(s: St, n: nat, m: nat, zero: bool, lim: Limits)
    requires Within(s, lim) && n in s.g.nodes && n in s.g.mlmi && NodesOk(s.g) && Below(s.g, s.k)
    requires |s.g.mlmi[n].outputs| < lim.lout && |s.g.mlmi[n].instrs| < lim.s && (zero || |s.g.mlmi[n].inputs| < lim.lin)
    ensures Within(CopyInto(s, n, m, zero, false, true), lim)
  {
    assert NodeBelow(s.g.mlmi[n], s.k);
    CopiedIs(s, n, m, zero);
    hide NodeWithin; hide CopiedNode; hide EdgeFor; hide NodeOk; hide CopyInto;
    CopiedWithin(s.g.mlmi[n], s.k, m, zero, lim);
  }

  lemma NewNodeIs(s: St, l: nat)
    requires l < |s.layers| && s.nextId !in s.g.mlmi
    ensures var t, x := NewNode(s, l), s.nextId;
      && x in t.g.nodes && s.g.nodes <= t.g.nodes && x in t.g.mlmi && x in t.nl && t.nl[x] == l && t.g.mlmi[x] == Mlmi([], [], []) && t.k == s.k && t.nl.Keys == s.nl.Keys + {x}
      && (forall y :: y in s.g.mlmi ==> y in t.g.mlmi && t.g.mlmi[y] == s.g.mlmi[y]) && t.layers[l] == s.layers[l] + [x]
  {
  }
}
