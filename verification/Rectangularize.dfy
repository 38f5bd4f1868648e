/** `segregate_layers` of compiler/src/universalization/rectangularize.py: walking the layers from last to first, every
    edge that skips layers is routed through a copy in the layer just before. */
module Rectangularize {
  import opened Options
  import opened Graphs
  import opened Dfg
  import opened DfgSchedule
  import opened Copies
  import opened Tracking
  import opened Layerize
  import opened LayeredGraph

  /** `alternative_defs`: for a cell and a layer, the copy of the cell in that layer. */
  type Alternatives = map<(nat, nat), nat>

  ghost predicate AltsOk(st: St, rho: Origins, alts: Alternatives)
    requires NodesOk(st.g) && BackOk(st.g)
  {
    forall p :: p in alts ==> AltOk(st, rho, p, alts[p])
  }

  ghost predicate AltOk(st: St, rho: Origins, p: (nat, nat), alt: nat)
    requires NodesOk(st.g) && BackOk(st.g)
  {
    alt < st.k && p.0 < st.k && Available(st.g, alt) && Level(st, alt) == p.1 && OriginOf(rho, alt) == OriginOf(rho, p.0)
  }

  /** Everything a node reads is defined in the layer just before. */
  ghost predicate NodeTight(st: St, n: nat)
    requires n in st.g.mlmi && n in st.nl
  {
    forall m :: m in st.g.mlmi[n].inputs ==> Level(st, m) + 1 == st.nl[n]
  }

  ghost predicate TightFrom(st: St, c: nat) {
    forall n :: n in st.g.nodes && n in st.g.mlmi && n in st.nl && st.nl[n] >= c ==> NodeTight(st, n)
  }

  // ----- what one break changes -----

  /** Cells keep their layers, and only node `n` and nodes of layer `mid` change. */
  ghost predicate Local(s: St, t: St, n: nat, mid: nat) {
    && s.k <= t.k && |t.layers| == |s.layers| && (forall j :: 0 <= j < |s.layers| && j != mid ==> t.layers[j] == s.layers[j])
    && (forall y :: y in s.nl ==> y in t.nl && t.nl[y] == s.nl[y]) && (forall y :: y in t.nl && y !in s.nl ==> t.nl[y] == mid)
    && (forall y :: y in s.g.mlmi ==> y in t.g.mlmi) && (forall y :: y in s.g.mlmi && y in s.nl && y != n && s.nl[y] != mid ==> t.g.mlmi[y] == s.g.mlmi[y])
    && (forall x: nat :: x < s.k ==> Level(t, x) == Level(s, x))
  }

  lemma LocalTrans(s: St, t: St, u: St, n: nat, mid: nat)
    requires Local(s, t, n, mid) && Local(t, u, n, mid)
    ensures Local(s, u, n, mid)
  {
    hide Level;
  }

  lemma LocalSelf(s: St, n: nat, mid: nat)
    ensures Local(s, s, n, mid)
  {
  }

  lemma NewNodeLocal(g0: Graph, first: nat, s: St, rho: Origins, mid: nat, n: nat)
    requires Sound(g0, first, s, rho) && mid < |s.layers|
    ensures Local(s, NewNode(s, mid), n, mid) && s.nextId !in s.nl
  {
    SoundParts(g0, first, s, rho);
    NewNodeSound(g0, first, s, rho, mid);
    hide Sound; hide Tracks; hide Integral; hide NodeOk; hide BackOk; hide FwdOk; hide AvailableOk; hide Below; hide InLayers; hide Ordered; hide Level; hide OriginsOk;
  }

  lemma CopyLocal(g0: Graph, first: nat, s: St, rho: Origins, x: nat, m: nat, front: bool, always: bool, mid: nat, n: nat)
    requires Sound(g0, first, s, rho) && BackOk(s.g) && CanCopy(s, x, m, false) && s.nl[x] == mid
    ensures Local(s, CopyInto(s, x, m, false, front, always), n, mid)
  {
    hide *;
    SoundParts(g0, first, s, rho);
    CanCopyParts(s, x, m, false);
    CopySound(g0, first, s, rho, x, m, false, front, always);
    CopyIs(s, x, m, false, front, always);
    WithExtendedParts(s.g, x, WithInput(s.g.mlmi[x].inputs, m, always), Move(s.k, m), front, CopyInto(s, x, m, false, front, always).g.fwd);
    OneNodeLocal(s, CopyInto(s, x, m, false, front, always), x, mid, n);
  }

  /** A change of one node, either `n` or one of layer `mid`. */
  lemma OneNodeLocal(s: St, t: St, x: nat, mid: nat, n: nat)
    requires x in s.g.mlmi && x in s.nl && (x == n || s.nl[x] == mid) && s.k <= t.k && t.layers == s.layers && t.nl == s.nl
    requires x in t.g.mlmi && t.g.mlmi == s.g.mlmi[x := t.g.mlmi[x]] && forall z: nat :: z < s.k ==> Level(t, z) == Level(s, z)
    ensures Local(s, t, n, mid)
  {
    hide Level;
  }

  lemma ReadLocal(g0: Graph, first: nat, s: St, rho: Origins, n: nat, m: nat, alt: nat, mid: nat)
    requires Sound(g0, first, s, rho) && BackOk(s.g) && CanRead(s, rho, n, m, alt)
    ensures (m in s.g.back ==> s.g.back[m] in s.g.mlmi) && Local(s, ReadCopy(s, n, m, alt), n, mid)
  {
    hide *;
    SoundParts(g0, first, s, rho);
    CanReadParts(s, rho, n, m, alt);
    ReadSound(g0, first, s, rho, n, m, alt);
    ReadIs(s, n, m, alt);
    WithRewiredParts(s.g, n, Replaced(s.g.mlmi[n].inputs, m, alt), map[m := alt], ReadCopy(s, n, m, alt).g.fwd);
    OneNodeLocal(s, ReadCopy(s, n, m, alt), n, mid, n);
  }

  // ----- the search for a node with room -----

  /** A node with room for one more copy of `m`. */
  predicate HasRoom(n: Mlmi, lim: Limits, m: nat) {
    |n.outputs| < lim.lout && |n.instrs| < lim.s && (m in n.inputs || |n.inputs| < lim.lin)
  }

  /** The candidate of `break_edge`: a node that reads `m` already is preferred. */
  method FindCandidate(st: St, lim: Limits, mid: nat, m: nat) returns (r: Option<nat>)
    requires mid < |st.layers| && forall y :: y in st.layers[mid] ==> y in st.g.mlmi
    ensures r.Some? ==> r.value in st.layers[mid] && HasRoom(st.g.mlmi[r.value], lim, m)
  {
    r := None;
    var layer := st.layers[mid];
    for i := 0 to |layer|
      invariant r.Some? ==> r.value in layer && HasRoom(st.g.mlmi[r.value], lim, m)
    {
      var node := layer[i];
      var mi := st.g.mlmi[node];
      if |mi.outputs| < lim.lout && |mi.instrs| < lim.s {
        if m in mi.inputs {
          return Some(node);
        } else if |mi.inputs| < lim.lin {
          r := Some(node);
        }
      }
    }
  }

  lemma ExtendedWithin(n: Mlmi, m: nat, k: nat, lim: Limits)
    requires NodeWithin(n, lim) && HasRoom(n, lim, m) && k !in n.outputs
    ensures NodeWithin(Extended(n, WithInput(n.inputs, m, false), Move(k, m), true), lim)
  {
  }

  lemma CopyWithin(s: St, x: nat, m: nat, lim: Limits)
    requires Within(s, lim) && x in s.g.nodes && x in s.g.mlmi && HasRoom(s.g.mlmi[x], lim, m) && NodesOk(s.g) && Below(s.g, s.k)
    ensures Within(CopyInto(s, x, m, false, true, false), lim)
  {
    assert NodeBelow(s.g.mlmi[x], s.k);
    hide NodeWithin; hide HasRoom; hide Extended; hide EdgeFor; hide NodeOk;
    ExtendedWithin(s.g.mlmi[x], m, s.k, lim);
  }

  lemma ReadWithin(s: St, n: nat, m: nat, alt: nat, lim: Limits)
    requires Within(s, lim) && n in s.g.mlmi && (m in s.g.back ==> s.g.back[m] in s.g.mlmi)
    ensures Within(ReadCopy(s, n, m, alt), lim)
  {
    hide RewireEdges;
    var t := ReadCopy(s, n, m, alt);
    forall y | y in t.g.nodes && y in t.g.mlmi ensures NodeWithin(t.g.mlmi[y], lim) {
      if y == n && y in s.g.nodes { assert NodeWithin(s.g.mlmi[n], lim); }
    }
  }

  lemma NewNodeWithin(s: St, mid: nat, lim: Limits, m: nat)
    requires Within(s, lim) && mid < |s.layers| && lim.lin >= 1 && lim.lout >= 1 && lim.s >= 1
    ensures Within(NewNode(s, mid), lim)
    ensures var t := NewNode(s, mid); s.nextId in t.g.mlmi && s.nextId in t.g.nodes && HasRoom(t.g.mlmi[s.nextId], lim, m) && t.nl[s.nextId] == mid
  {
  }

  lemma AltsStay(s: St, t: St, rho: Origins, rho2: Origins, alts: Alternatives)
    requires NodesOk(s.g) && BackOk(s.g) && NodesOk(t.g) && BackOk(t.g) && AltsOk(s, rho, alts) && s.k <= t.k
    requires (forall x: nat :: x < s.k ==> Level(t, x) == Level(s, x) && OriginOf(rho2, x) == OriginOf(rho, x))
    requires forall x: nat :: x < s.k && Available(s.g, x) ==> Available(t.g, x)
    ensures AltsOk(t, rho2, alts)
  {
    hide NodeOk; hide BackOk; hide Available; hide Level; hide OriginOf;
  }

  // ----- breaking one edge -----

  lemma LayerNodesKnown(g0: Graph, first: nat, st: St, rho: Origins, l: nat)
    requires Sound(g0, first, st, rho) && l < |st.layers|
    ensures forall y :: y in st.layers[l] ==> y in st.g.mlmi && y in st.g.nodes && y in st.nl && st.nl[y] == l
  {
    hide Tracks; hide Ordered; hide NodeOk;
  }

  lemma InputKnown(g0: Graph, first: nat, st: St, rho: Origins, n: nat, m: nat)
    requires Sound(g0, first, st, rho) && BackOk(st.g) && n in st.g.nodes && n in st.g.mlmi && m in st.g.mlmi[n].inputs
    ensures Available(st.g, m) && m < st.k && n in st.nl && Level(st, m) < st.nl[n]
  {
    SoundParts(g0, first, st, rho);
    hide Sound; hide Tracks; hide Below; hide NodeOk; hide Available; hide Level; hide InLayers; hide FwdOk; hide BackOk; hide OriginsOk;
    assert Available(st.g, m);
    AvailableBelow(st.g, st.k, m);
  }

  lemma MakeCanCopy(st: St, x: nat, m: nat)
    requires NodesOk(st.g) && BackOk(st.g) && st.nl.Keys == st.g.nodes && x in st.g.nodes && Available(st.g, m) && Level(st, m) < st.nl[x]
    ensures CanCopy(st, x, m, false)
  {
    hide NodeOk; hide Available; hide Level; hide BackOk;
  }

  lemma MakeCanRead(st: St, rho: Origins, n: nat, m: nat, alt: nat)
    requires NodesOk(st.g) && BackOk(st.g) && st.nl.Keys == st.g.nodes && n in st.g.nodes && n in st.g.mlmi && m in st.g.mlmi[n].inputs
    requires Available(st.g, alt) && Level(st, alt) < st.nl[n] && alt != m && OriginOf(rho, alt) == OriginOf(rho, m) && Level(st, m) < st.nl[n] && Available(st.g, m)
    ensures CanRead(st, rho, n, m, alt)
  {
    hide NodeOk; hide Available; hide Level; hide BackOk; hide OriginOf;
  }

  lemma AltAt(st: St, rho: Origins, alts: Alternatives, p: (nat, nat))
    requires NodesOk(st.g) && BackOk(st.g) && AltsOk(st, rho, alts) && p in alts
    ensures alts[p] < st.k && Available(st.g, alts[p]) && Level(st, alts[p]) == p.1 && OriginOf(rho, alts[p]) == OriginOf(rho, p.0)
  {
    hide NodeOk; hide BackOk; hide Available; hide Level; hide OriginOf;
    assert AltOk(st, rho, p, alts[p]);
  }

  lemma AltsMore(st: St, rho: Origins, alts: Alternatives, p: (nat, nat), alt: nat)
    requires NodesOk(st.g) && BackOk(st.g) && AltsOk(st, rho, alts)
    requires alt < st.k && p.0 < st.k && Available(st.g, alt) && Level(st, alt) == p.1 && OriginOf(rho, alt) == OriginOf(rho, p.0)
    ensures AltsOk(st, rho, alts[p := alt])
  {
    hide NodeOk; hide BackOk; hide Available; hide Level; hide OriginOf;
  }

  lemma NewNodeAvailable(g0: Graph, first: nat, s: St, rho: Origins, mid: nat, x: nat)
    requires Sound(g0, first, s, rho) && mid < |s.layers| && BackOk(s.g) && Available(s.g, x)
    requires NodesOk(NewNode(s, mid).g) && BackOk(NewNode(s, mid).g)
    ensures Available(NewNode(s, mid).g, x)
  {
    SoundParts(g0, first, s, rho);
    hide Sound; hide Tracks; hide Below; hide NodeOk; hide Level; hide InLayers; hide FwdOk; hide OriginsOk; hide Assigns; hide AvailableOk; hide Ordered;
  }

  lemma NewNodeOther(s: St, mid: nat, n: nat)
    requires mid < |s.layers| && n in s.g.mlmi && n != s.nextId
    ensures var t := NewNode(s, mid); n in t.g.mlmi && t.g.mlmi[n] == s.g.mlmi[n] && t.k == s.k && (n in s.g.nodes ==> n in t.g.nodes)
  {
  }

  lemma CopyOther(s: St, x: nat, m: nat, n: nat)
    requires x in s.g.mlmi && n in s.g.mlmi && n != x
    ensures var t := CopyInto(s, x, m, false, true, false); n in t.g.mlmi && t.g.mlmi[n] == s.g.mlmi[n] && (n in s.g.nodes ==> n in t.g.nodes)
  {
    hide Extended; hide EdgeFor;
  }

  class Layering {
    var st: St
    var alts: Alternatives
    const lim: Limits
    ghost var rho: Origins

    constructor (st: St, lim: Limits, ghost rho: Origins)
      ensures this.st == st && alts == map[] && this.lim == lim && this.rho == rho
    {
      this.st, alts, this.lim, this.rho := st, map[], lim, rho;
    }

    /** Sound layers, correct alternatives, and every node within the limits. */
    ghost predicate Valid(g0: Graph, first: nat)
      reads this
    {
      && Sound(g0, first, st, rho) && BackOk(st.g) && AltsOk(st, rho, alts) && Within(st, lim)
      && lim.lin >= 1 && lim.lout >= 1 && lim.s >= 1
    }

    lemma ValidParts(g0: Graph, first: nat)
      requires Valid(g0, first)
      ensures Sound(g0, first, st, rho) && NodesOk(st.g) && BackOk(st.g) && AvailableOk(st.g) && AltsOk(st, rho, alts) && Within(st, lim)
      ensures lim.lin >= 1 && lim.lout >= 1 && lim.s >= 1 && st.nl.Keys == st.g.nodes && st.nextId !in st.g.mlmi && InLayers(st.nl, st.layers)
    {
      hide AltsOk; hide Within; hide Sound; hide BackOk; hide AvailableOk; hide InLayers; hide NodesOk;
      SoundParts(g0, first, st, rho);
    }

    lemma MakeValid(g0: Graph, first: nat)
      requires Sound(g0, first, st, rho) && NodesOk(st.g) && BackOk(st.g) && AltsOk(st, rho, alts) && Within(st, lim)
      requires lim.lin >= 1 && lim.lout >= 1 && lim.s >= 1
      ensures Valid(g0, first)
    {
      hide Sound; hide NodesOk; hide BackOk; hide AltsOk; hide Within;
    }

    /** A node of the layer before with room for a copy, created when there is none. */
    method RoomFor(ghost g0: Graph, ghost first: nat, n: nat, mid: nat, m: nat) returns (x: nat)
      requires Valid(g0, first) && n in st.g.nodes && n in st.g.mlmi && n in st.nl && st.nl[n] == mid + 1 && m in st.g.mlmi[n].inputs && Level(st, m) < mid
      modifies this`st
      ensures Valid(g0, first) && Local(old(st), st, n, mid) && x in st.g.nodes && x in st.g.mlmi && x in st.nl && st.nl[x] == mid && x != n
      ensures HasRoom(st.g.mlmi[x], lim, m) && n in st.g.nodes && n in st.g.mlmi && n in old(st.g.mlmi) && st.g.mlmi[n] == old(st.g.mlmi[n]) && st.k == old(st.k)
    {
      hide *;
      ValidParts(g0, first);
      LayerBound(st, n);
      LayerNodesKnown(g0, first, st, rho, mid);
      InputKnown(g0, first, st, rho, n, m);
      var candidate := FindCandidate(st, lim, mid, m);
      if candidate.Some? {
        LocalSelf(st, n, mid);
        return candidate.value;
      }
      x := st.nextId;
      ghost var s := st;
      NewNodeSound(g0, first, s, rho, mid);
      NewNodeLocal(g0, first, s, rho, mid, n);
      NewNodeWithin(s, mid, lim, m);
      NewNodeOther(s, mid, n);
      st := NewNode(st, mid);
      SoundParts(g0, first, st, rho);
      forall y: nat | Available(s.g, y) ensures Available(st.g, y) { NewNodeAvailable(g0, first, s, rho, mid, y); }
      AltsStay(s, st, rho, rho, alts);
      MakeValid(g0, first);
    }

    /** `make_alternative`: a copy of `m` in layer `mid`. */
    method MakeAlternative(ghost g0: Graph, ghost first: nat, n: nat, mid: nat, m: nat) returns (alt: nat)
      requires Valid(g0, first) && n in st.g.nodes && n in st.g.mlmi && n in st.nl && st.nl[n] == mid + 1 && m in st.g.mlmi[n].inputs && Level(st, m) < mid
      modifies this
      ensures Valid(g0, first) && Local(old(st), st, n, mid) && n in st.g.nodes && n in st.g.mlmi && n in old(st.g.mlmi) && st.g.mlmi[n] == old(st.g.mlmi[n])
      ensures NodesOk(st.g) && BackOk(st.g) && Available(st.g, alt) && Level(st, alt) == mid && alt != m && OriginOf(rho, alt) == OriginOf(rho, m) && alt < st.k
    {
      hide *;
      ghost var s0 := st;
      var x := RoomFor(g0, first, n, mid, m);
      ValidParts(g0, first);
      ghost var s := st;
      InputKnown(g0, first, s, rho, n, m);
      LevelKept(s0, s, n, mid, m);
      MakeCanCopy(s, x, m);
      CopySound(g0, first, s, rho, x, m, false, true, false);
      CopyLocal(g0, first, s, rho, x, m, true, false, mid, n);
      SoundParts(g0, first, s, rho);
      CopyWithin(s, x, m, lim);
      CopyOther(s, x, m, n);
      CopyIs(s, x, m, false, true, false);
      LocalTrans(s0, s, CopyInto(s, x, m, false, true, false), n, mid);
      alt := st.k;
      ghost var rho2 := rho[alt := OriginOf(rho, m)];
      NewOrigin(rho, alt, m);
      st := CopyInto(st, x, m, false, true, false);
      SoundParts(g0, first, st, rho2);
      forall y: nat | y < s.k ensures OriginOf(rho2, y) == OriginOf(rho, y) { OriginsStay(rho, alt, OriginOf(rho, m), y); }
      AltsStay(s, st, rho, rho2, alts);
      rho := rho2;
      AltsMore(st, rho, alts, (m, mid), alt);
      alts := alts[(m, mid) := alt];
      MakeValid(g0, first);
    }

    /** `break_edge`: node `n` reads, instead of `m`, a copy of it in the layer just before. */
    method BreakEdge(ghost g0: Graph, ghost first: nat, n: nat, mid: nat, m: nat) returns (ghost alt: nat)
      requires Valid(g0, first) && n in st.g.nodes && n in st.g.mlmi && n in st.nl && st.nl[n] == mid + 1 && m in st.g.mlmi[n].inputs && Level(st, m) < mid
      modifies this
      ensures Valid(g0, first) && Local(old(st), st, n, mid) && Level(st, alt) == mid && n in st.g.nodes && n in st.g.mlmi && n in old(st.g.mlmi)
      ensures st.g.mlmi[n].inputs == Replaced(old(st.g.mlmi[n].inputs), m, alt)
    {
      hide *;
      ghost var s0 := st;
      var copy;
      ValidParts(g0, first);
      InputKnown(g0, first, st, rho, n, m);
      if (m, mid) in alts {
        copy := alts[(m, mid)];
        AltAt(st, rho, alts, (m, mid));
        LocalSelf(st, n, mid);
      } else {
        copy := MakeAlternative(g0, first, n, mid, m);
        ValidParts(g0, first);
        LevelKept(s0, st, n, mid, m);
        InputKnown(g0, first, st, rho, n, m);
      }
      ghost var s := st;
      MakeCanRead(s, rho, n, m, copy);
      ReadSound(g0, first, s, rho, n, m, copy);
      ReadLocal(g0, first, s, rho, n, m, copy, mid);
      ReadWithin(s, n, m, copy, lim);
      ReadIs(s, n, m, copy);
      LocalTrans(s0, s, ReadCopy(s, n, m, copy), n, mid);
      st := ReadCopy(st, n, m, copy);
      SoundParts(g0, first, st, rho);
      AltsStay(s, st, rho, rho, alts);
      MakeValid(g0, first);
      alt := copy;
    }

    /** The inner loops for one node: afterwards everything it reads is defined in the layer just before. */
    method SegregateNode(ghost g0: Graph, ghost first: nat, n: nat, c: nat)
      requires Valid(g0, first) && c >= 1 && n in st.g.nodes && n in st.g.mlmi && n in st.nl && st.nl[n] == c
      modifies this
      ensures Valid(g0, first) && Local(old(st), st, n, c - 1) && n in st.g.nodes && n in st.g.mlmi && n in st.nl && NodeTight(st, n)
    {
      hide *;
      ghost var s0 := st;
      var inputs := st.g.mlmi[n].inputs;
      LocalSelf(st, n, c - 1);
      AllPending(st, inputs, n);
      for i := 0 to |inputs|
        invariant Valid(g0, first) && Local(s0, st, n, c - 1) && n in st.g.nodes && n in st.g.mlmi && n in st.nl && st.nl[n] == c
        invariant Pending(st, n, inputs[i..])
      {
        var m := inputs[i];
        ghost var s := st;
        var level := Level(st, m);
        if level != c - 1 && m in st.g.mlmi[n].inputs {
          ValidParts(g0, first);
          InputKnown(g0, first, st, rho, n, m);
          InputsBelow(g0, first, st, rho, n);
          ghost var alt := BreakEdge(g0, first, n, c - 1, m);
          LevelKept(s, st, n, c - 1, m);
          LocalTrans(s0, s, st, n, c - 1);
          PendingBroken(s, st, n, c - 1, m, alt, inputs, i);
        } else {
          PendingSkip(st, n, inputs, i);
        }
      }
      PendingDone(st, n, inputs[|inputs|..]);
    }

    /** `segregate_layers`: the layers from last to first. */
    method SegregateLayers(ghost g0: Graph, ghost first: nat)
      requires Valid(g0, first) && |st.layers| >= 1
      modifies this
      ensures Valid(g0, first) && TightFrom(st, 1) && |st.layers| == |old(st.layers)| && old(st.nl).Keys <= st.nl.Keys && (|st.layers| == 1 ==> st == old(st))
    {
      hide *;
      NothingAbove(g0, first);
      ghost var s0 := st;
      var count := |st.layers|;
      for c := count downto 1
        invariant Valid(g0, first) && |st.layers| == count && TightFrom(st, c) && s0.nl.Keys <= st.nl.Keys && (c == count ==> st == s0)
      {
        var layer := st.layers[c];
        NoneTight(st, layer);
        for j := 0 to |layer|
          invariant Valid(g0, first) && |st.layers| == count && st.layers[c] == layer && TightFrom(st, c + 1) && FirstTight(st, layer, j) && s0.nl.Keys <= st.nl.Keys
        {
          ghost var s := st;
          ValidParts(g0, first);
          LayerNodesKnown(g0, first, st, rho, c);
          AllBelow(g0, first, st, rho);
          NodesKnown(st.g);
          SegregateNode(g0, first, layer[j], c);
          LocalLayers(s, st, layer[j], c);
          LocalTight(s, st, layer, j, c);
        }
        ValidParts(g0, first);
        LayerDone(st, layer, c);
      }
    }

    lemma NothingAbove(g0: Graph, first: nat)
      requires Valid(g0, first)
      ensures TightFrom(st, |st.layers|)
    {
      hide AltsOk; hide Within; hide BackOk; hide NodeTight; hide Tracks; hide Ordered; hide NodesOk;
    }
  }

  // ----- what remains to be done -----

  /** Inputs that are not yet defined in the layer just before are among `rest`. */
  ghost predicate Pending(st: St, n: nat, rest: seq<nat>)
    requires n in st.g.mlmi && n in st.nl
  {
    forall x :: x in st.g.mlmi[n].inputs ==> Level(st, x) + 1 == st.nl[n] || x in rest
  }

  lemma AllPending(st: St, inputs: seq<nat>, n: nat)
    requires n in st.g.mlmi && n in st.nl && inputs == st.g.mlmi[n].inputs
    ensures Pending(st, n, inputs[0..])
  {
    assert inputs[0..] == inputs;
  }

  lemma PendingSkip(st: St, n: nat, inputs: seq<nat>, i: nat)
    requires n in st.g.mlmi && n in st.nl && i < |inputs| && Pending(st, n, inputs[i..])
    requires Level(st, inputs[i]) + 1 == st.nl[n] || inputs[i] !in st.g.mlmi[n].inputs
    ensures Pending(st, n, inputs[i + 1..])
  {
    hide Level;
    assert inputs[i..] == [inputs[i]] + inputs[i + 1..];
  }

  lemma PendingBroken(s: St, t: St, n: nat, mid: nat, m: nat, alt: nat, inputs: seq<nat>, i: nat)
    requires n in s.g.mlmi && n in s.nl && n in t.g.mlmi && n in t.nl && i < |inputs| && inputs[i] == m && Pending(s, n, inputs[i..])
    requires Local(s, t, n, mid) && (forall x :: x in s.g.mlmi[n].inputs ==> x < s.k)
    requires t.g.mlmi[n].inputs == Replaced(s.g.mlmi[n].inputs, m, alt) && Level(t, alt) + 1 == t.nl[n]
    ensures Pending(t, n, inputs[i + 1..])
  {
    hide Level;
    assert inputs[i..] == [inputs[i]] + inputs[i + 1..];
    forall x | x in t.g.mlmi[n].inputs ensures Level(t, x) + 1 == t.nl[n] || x in inputs[i + 1..] {
      ReplacedIn(s.g.mlmi[n].inputs, m, alt, x);
    }
  }

  lemma PendingDone(st: St, n: nat, rest: seq<nat>)
    requires n in st.g.mlmi && n in st.nl && Pending(st, n, rest) && rest == []
    ensures NodeTight(st, n)
  {
    hide Level;
  }

  lemma InputsBelow(g0: Graph, first: nat, st: St, rho: Origins, n: nat)
    requires Sound(g0, first, st, rho) && BackOk(st.g) && n in st.g.nodes && n in st.g.mlmi
    ensures forall x :: x in st.g.mlmi[n].inputs ==> x < st.k
  {
    hide *;
    forall x | x in st.g.mlmi[n].inputs ensures x < st.k { InputKnown(g0, first, st, rho, n, x); }
  }

  lemma AllBelow(g0: Graph, first: nat, st: St, rho: Origins)
    requires Sound(g0, first, st, rho) && BackOk(st.g)
    ensures forall n, x :: n in st.g.nodes && n in st.g.mlmi && x in st.g.mlmi[n].inputs ==> x < st.k
  {
    hide *;
    forall n, x | n in st.g.nodes && n in st.g.mlmi && x in st.g.mlmi[n].inputs ensures x < st.k { InputsBelow(g0, first, st, rho, n); }
  }

  ghost predicate FirstTight(st: St, layer: seq<nat>, j: nat) {
    j <= |layer| && forall i :: 0 <= i < j ==> layer[i] in st.g.mlmi && layer[i] in st.nl && NodeTight(st, layer[i])
  }

  lemma NoneTight(st: St, layer: seq<nat>)
    ensures FirstTight(st, layer, 0)
  {
  }

  lemma LocalLayers(s: St, t: St, n: nat, c: nat)
    requires c >= 1 && Local(s, t, n, c - 1) && c < |s.layers|
    ensures |t.layers| == |s.layers| && t.layers[c] == s.layers[c] && s.nl.Keys <= t.nl.Keys
  {
    hide Level;
  }

  /** A node that did not change is as tight as before. */
  lemma SameTight(s: St, t: St, n: nat, mid: nat, y: nat)
    requires Local(s, t, n, mid) && y in s.g.mlmi && y in s.nl && y != n && s.nl[y] != mid && NodeTight(s, y) && forall x :: x in s.g.mlmi[y].inputs ==> x < s.k
    ensures y in t.g.mlmi && y in t.nl && NodeTight(t, y)
  {
    hide Level;
  }

  lemma LocalTight(s: St, t: St, layer: seq<nat>, j: nat, c: nat)
    requires c >= 1 && j < |layer| && Local(s, t, layer[j], c - 1) && TightFrom(s, c + 1) && FirstTight(s, layer, j)
    requires (forall y :: y in layer ==> y in s.g.nodes && y in s.g.mlmi && y in s.nl && s.nl[y] == c)
    requires forall n, x :: n in s.g.nodes && n in s.g.mlmi && x in s.g.mlmi[n].inputs ==> x < s.k
    requires s.nl.Keys == s.g.nodes && layer[j] in t.g.mlmi && layer[j] in t.nl && NodeTight(t, layer[j])
    requires forall y :: y in s.nl ==> y in s.g.mlmi
    ensures TightFrom(t, c + 1) && FirstTight(t, layer, j + 1)
  {
    hide Level; hide NodeTight;
    LocalIs(s, t, layer[j], c - 1);
    hide Local;
    forall y | y in t.g.nodes && y in t.g.mlmi && y in t.nl && t.nl[y] >= c + 1 ensures NodeTight(t, y) {
      assert y in s.nl;
      if y != layer[j] { SameTight(s, t, layer[j], c - 1, y); }
    }
    forall i | 0 <= i < j + 1 ensures layer[i] in t.g.mlmi && layer[i] in t.nl && NodeTight(t, layer[i]) {
      if layer[i] != layer[j] { assert layer[i] in layer; SameTight(s, t, layer[j], c - 1, layer[i]); }
    }
  }

  lemma LocalIs(s: St, t: St, n: nat, mid: nat)
    requires Local(s, t, n, mid)
    ensures (forall y :: y in s.nl ==> y in t.nl && t.nl[y] == s.nl[y]) && (forall y :: y in t.nl && y !in s.nl ==> t.nl[y] == mid)
  {
    hide Level;
  }

  lemma LayerDone(st: St, layer: seq<nat>, c: nat)
    requires InLayers(st.nl, st.layers) && c < |st.layers| && st.layers[c] == layer && TightFrom(st, c + 1) && FirstTight(st, layer, |layer|)
    ensures TightFrom(st, c)
  {
    hide NodeTight;
    forall n | n in st.g.nodes && n in st.g.mlmi && n in st.nl && st.nl[n] >= c ensures NodeTight(st, n) {
      if st.nl[n] == c {
        assert n in layer;
        var i :| 0 <= i < |layer| && layer[i] == n;
      }
    }
  }

  // ----- rectangularize -----

  /** The state at the start. */
  lemma StartSound(g: Graph, nl: map<nat, nat>, layers: seq<seq<nat>>, k: nat, nextId: nat)
    requires Integral(g) && NodesOk(g) && Below(g, k) && nl.Keys == g.nodes && Partial(g, nl) && InLayers(nl, layers) && forall n :: n in g.mlmi ==> n < nextId
    ensures Sound(g, k, St(g, layers, nl, k, nextId), map[])
  {
    var st := St(g, layers, nl, k, nextId);
    TracksStart(g, k);
    IntegralParts(g);
    hide Tracks; hide Integral; hide NodeOk; hide BackOk; hide FwdOk; hide AvailableOk; hide Below; hide InLayers;
    forall n, m | n in g.nodes && m in g.mlmi[n].inputs ensures Level(st, m) < nl[n] {
      if m in g.back { assert IsPrev(g, n, g.back[m]); }
    }
  }

  lemma NoAlternatives(st: St, rho: Origins)
    requires NodesOk(st.g) && BackOk(st.g)
    ensures AltsOk(st, rho, map[])
  {
  }

  /** In tight layers, layer 0 reads program inputs only, and a later layer reads only the layer just before. */
  ghost predicate Rectangular(st: St)
    requires NodesOk(st.g) && BackOk(st.g) && st.nl.Keys == st.g.nodes
  {
    forall n, m :: n in st.g.nodes && m in st.g.mlmi[n].inputs ==> ReadsBefore(st, n, m)
  }

  /** A node of the first layer reads a program input, any other an output of the layer before. */
  ghost predicate ReadsBefore(st: St, n: nat, m: nat)
    requires NodesOk(st.g) && BackOk(st.g) && st.nl.Keys == st.g.nodes && n in st.g.nodes
  {
    if st.nl[n] == 0 then m in st.g.progInputs
    else m in st.g.back && m !in st.g.progInputs && st.nl[st.g.back[m]] == st.nl[n] - 1 && m in st.g.mlmi[st.g.back[m]].outputs
  }

  lemma TightReads(g0: Graph, first: nat, st: St, rho: Origins, n: nat, m: nat)
    requires Sound(g0, first, st, rho) && NodesOk(st.g) && BackOk(st.g) && st.nl.Keys == st.g.nodes && TightFrom(st, 1) && n in st.g.nodes && m in st.g.mlmi[n].inputs
    ensures ReadsBefore(st, n, m)
  {
    SoundParts(g0, first, st, rho);
    hide Sound; hide Tracks; hide NodeOk; hide Below; hide InLayers; hide FwdOk; hide OriginsOk; hide Assigns;
    assert Available(st.g, m) && Level(st, m) < st.nl[n];
    if st.nl[n] >= 1 { assert NodeTight(st, n); }
  }

  lemma TightIsRectangular(g0: Graph, first: nat, st: St, rho: Origins)
    requires Sound(g0, first, st, rho) && NodesOk(st.g) && BackOk(st.g) && st.nl.Keys == st.g.nodes && TightFrom(st, 1)
    ensures Rectangular(st)
  {
    hide Sound; hide NodeOk; hide TightFrom; hide ReadsBefore;
    forall n, m | n in st.g.nodes && m in st.g.mlmi[n].inputs ensures ReadsBefore(st, n, m) { TightReads(g0, first, st, rho, n, m); }
  }

  /** `rectangularize`: whatever the iteration orders, on every acyclic graph within the limits the result is rectangular,
      within the limits, and every model of the old graph carries over: copies have the value of what they copy, and the
      program outputs are the same cells. */
  method Rectangularize(g: Graph, k: nat, nextId: nat, lim: Limits) returns (st: St, ghost rho: Origins)
    requires Integral(g) && NodesOk(g) && Acyclic(g.fwd) && Below(g, k) && (forall n :: n in g.mlmi ==> n < nextId)
    requires lim.lin >= 1 && lim.lout >= 1 && lim.s >= 1 && forall n :: n in g.nodes ==> NodeWithin(g.mlmi[n], lim)
    ensures Sound(g, k, st, rho) && NodesOk(st.g) && BackOk(st.g) && st.nl.Keys == st.g.nodes && Rectangular(st) && Within(st, lim)
    ensures g.nodes <= st.g.nodes && |st.layers| >= 1 && (g.nodes == {} ==> st.layers == [[]] && st.g.nodes == {})
  {
    hide *;
    var nl, layers := LayerNodes(g);
    StartSound(g, nl, layers, k, nextId);
    st := St(g, layers, nl, k, nextId);
    IntegralParts(g);
    NoAlternatives(st, map[]);
    StartWithin(st, lim);
    var work := new Layering(st, lim, map[]);
    work.MakeValid(g, k);
    work.SegregateLayers(g, k);
    work.ValidParts(g, k);
    TightIsRectangular(g, k, work.st, work.rho);
    return work.st, work.rho;
  }

  lemma StartWithin(st: St, lim: Limits)
    requires forall n :: n in st.g.nodes && n in st.g.mlmi ==> NodeWithin(st.g.mlmi[n], lim)
    ensures Within(st, lim)
  {
    hide NodeWithin;
  }

  lemma LayerBound(st: St, n: nat)
    requires InLayers(st.nl, st.layers) && n in st.nl
    ensures st.nl[n] < |st.layers|
  {
  }

  lemma LevelKept(s: St, t: St, n: nat, mid: nat, m: nat)
    requires Local(s, t, n, mid) && m < s.k
    ensures Level(t, m) == Level(s, m)
    ensures n in s.nl ==> n in t.nl && t.nl[n] == s.nl[n]
  {
    hide Level;
  }

  lemma NewOrigin(rho: Origins, alt: nat, m: nat)
    requires alt != m
    ensures OriginOf(rho[alt := OriginOf(rho, m)], alt) == OriginOf(rho[alt := OriginOf(rho, m)], m)
  {
  }
}
