/** The meaning of a graph that is changed by copying only: with the recorded origins, every model of the old graph
    is a model of the new one, and the program outputs are copies of the old outputs. */
module Tracking {
  import opened IR
  import opened Graphs
  import opened Dfg
  import opened Copies

  /** `g` came from `g0`, whose cells are below `first`, by copying; `k` is the first unused cell. */
  ghost predicate Tracks(g0: Graph, first: nat, g: Graph, rho: Origins, k: nat) {
    && NodesOk(g0) && Integral(g) && first <= k && OriginsOk(rho, first, k) && Below(g, k)
    && g.progInputs == g0.progInputs && (forall m :: m in g0.progInputs ==> m < first)
    && |g.progOutputs| == |g0.progOutputs| && (forall i :: 0 <= i < |g.progOutputs| ==> OriginOf(rho, g.progOutputs[i]) == Of(g0.progOutputs[i]))
    && Carries(g0, g, rho) && (Returning(g0) ==> Returning(g)) && SameRepeats(g0.progOutputs, g.progOutputs)
  }

  /** Entries that are equal in the first list are equal in the second. */
  ghost predicate SameRepeats(a: seq<nat>, b: seq<nat>) {
    |a| == |b| && forall i, j :: 0 <= i < j < |a| && a[i] == a[j] ==> b[i] == b[j]
  }

  lemma RepeatsTrans(a: seq<nat>, b: seq<nat>, c: seq<nat>)
    requires SameRepeats(a, b) && SameRepeats(b, c)
    ensures SameRepeats(a, c)
  {
  }

  /** With as many repetitions both ways, the lists have as many distinct entries. */
  lemma {:induction false} SameDistinct(a: seq<nat>, b: seq<nat>)
    requires SameRepeats(a, b) && SameRepeats(b, a)
    ensures |ToSet(a)| == |ToSet(b)|
    decreases |a|
  {
    hide ToSet;
    if a == [] {
      assert b == [];
    } else {
      var k := |a| - 1;
      RepeatsPrefix(a, b);
      RepeatsPrefix(b, a);
      SameDistinct(a[..k], b[..k]);
      DistinctSnoc(a);
      DistinctSnoc(b);
    }
  }

  lemma RepeatsPrefix(a: seq<nat>, b: seq<nat>)
    requires SameRepeats(a, b) && a != []
    ensures var k := |a| - 1; SameRepeats(a[..k], b[..k]) && (a[k] in a[..k] ==> b[k] in b[..k])
  {
    var k := |a| - 1;
    if a[k] in a[..k] {
      var i :| 0 <= i < k && a[i] == a[k];
      assert b[..k][i] == b[k];
    }
  }

  lemma DistinctSnoc(a: seq<nat>)
    requires a != []
    ensures var k := |a| - 1; |ToSet(a)| == |ToSet(a[..k])| + if a[k] in a[..k] then 0 else 1
  {
    var k := |a| - 1;
    assert a == a[..k] + [a[k]];
    assert ToSet(a) == ToSet(a[..k]) + {a[k]};
  }

  /** The graph has as many distinct program outputs as the one it came from. */
  lemma DistinctOutputs(g0: Graph, first: nat, g: Graph, rho: Origins, k: nat)
    requires Tracks(g0, first, g, rho, k)
    ensures |ToSet(g.progOutputs)| == |ToSet(g0.progOutputs)|
  {
    hide *;
    TracksParts(g0, first, g, rho, k);
    var a, b := g0.progOutputs, g.progOutputs;
    forall i, j | 0 <= i < j < |b| && b[i] == b[j] ensures a[i] == a[j] { assert Of(a[i]) == Of(a[j]); }
    MakeRepeats(b, a);
    SameDistinct(a, b);
  }

  lemma MakeRepeats(a: seq<nat>, b: seq<nat>)
    requires |a| == |b| && forall i, j :: 0 <= i < j < |a| && a[i] == a[j] ==> b[i] == b[j]
    ensures SameRepeats(a, b)
  {
  }

  ghost predicate Carries(g0: Graph, g: Graph, rho: Origins)
    requires NodesOk(g0) && NodesOk(g)
  {
    forall ops: Ops, val: Env :: Models(ops, g0, val) ==> Models(ops, g, Pull(val, rho))
  }

  lemma TracksStart(g: Graph, k: nat)
    requires Integral(g) && Below(g, k)
    ensures Tracks(g, k, g, map[], k)
  {
    hide NodeOk; hide BackOk; hide FwdOk; hide AvailableOk; hide Models; hide Below; hide Returning;
    BelowParts(g, k);
    forall ops: Ops, val: Env | Models(ops, g, val) ensures Models(ops, g, Pull(val, map[])) { SameEverywhere(ops, g, val, Pull(val, map[])); }
  }

  lemma BelowParts(g: Graph, k: nat)
    requires NodesOk(g) && Below(g, k)
    ensures forall m :: m in g.progInputs ==> m < k
  {
    hide NodeOk; hide NodeBelow;
  }

  lemma SameEverywhere(ops: Ops, g: Graph, val: Env, other: Env)
    requires NodesOk(g) && Models(ops, g, val) && forall x :: val(x) == other(x)
    ensures Models(ops, g, other)
  {
    hide Compute; hide NodeOk;
    forall n, i | n in g.nodes && 0 <= i < |g.mlmi[n].instrs| ensures other(g.mlmi[n].instrs[i].dst) == Compute(ops, g.mlmi[n].instrs[i], other) {
      ComputeReads(ops, g.mlmi[n].instrs[i], val, other);
    }
  }

  // ----- the same values in the changed node -----

  /** A valuation that agrees on the old cells, and satisfies the new instructions, is a model. */
  lemma ChangedModel(ops: Ops, g: Graph, h: Graph, n: nat, mi: Mlmi, added: set<nat>, val: Env, other: Env, k: nat)
    requires Good(g, h, n, mi, added) && NodesOk(h) && Below(g, k) && Models(ops, g, val)
    requires (forall x: nat :: x < k ==> val(x) == other(x)) && Computes(ops, mi.instrs, other)
    ensures Models(ops, h, other)
  {
    hide Compute; hide NodeOk; hide Assigns; hide BackOk; hide FwdOk; hide AvailableOk; hide EdgesFollow; hide OutputsGrow; hide Unused; hide Available;
    forall y, i | y in h.nodes && 0 <= i < |h.mlmi[y].instrs| ensures other(h.mlmi[y].instrs[i].dst) == Compute(ops, h.mlmi[y].instrs[i], other) {
      if y != n { OldInstr(ops, g, y, i, val, other, k); }
    }
  }

  lemma OldInstr(ops: Ops, g: Graph, y: nat, i: nat, val: Env, other: Env, k: nat)
    requires NodesOk(g) && Below(g, k) && Models(ops, g, val) && y in g.nodes && i < |g.mlmi[y].instrs|
    requires forall x: nat :: x < k ==> val(x) == other(x)
    ensures other(g.mlmi[y].instrs[i].dst) == Compute(ops, g.mlmi[y].instrs[i], other)
  {
    hide Compute; hide NodeOk;
    var s := g.mlmi[y].instrs[i];
    assert InstrBelow(s, k);
    ComputeReads(ops, s, val, other);
  }

  lemma PullBelow(val: Env, rho: Origins, x: nat, o: Origin, y: nat)
    requires y != x
    ensures Pull(val, rho[x := o])(y) == Pull(val, rho)(y)
    ensures Pull(val, rho[x := o])(x) == ValueOf(val, o)
  {
  }

  // ----- adding a copy or a zero -----

  lemma MakerComputes(ops: Ops, rho: Origins, k: nat, src: nat, zero: bool, val: Env)
    requires zero || src < k
    ensures var o := if zero then Zero else OriginOf(rho, src);
      var i := if zero then MoveZero(k) else Move(k, src);
      Pull(val, rho[k := o])(k) == Compute(ops, i, Pull(val, rho[k := o]))
  {
  }

  lemma ExtendComputes(ops: Ops, g: Graph, n: nat, inputs: seq<nat>, i: Instr, front: bool, val: Env, other: Env, k: nat)
    requires NodesOk(g) && Below(g, k) && Models(ops, g, val) && n in g.nodes
    requires (forall x: nat :: x < k ==> val(x) == other(x)) && other(i.dst) == Compute(ops, i, other)
    ensures Computes(ops, Extended(g.mlmi[n], inputs, i, front).instrs, other)
  {
    hide Compute; hide NodeOk; hide Below; hide Models;
    var s := g.mlmi[n].instrs;
    forall j | 0 <= j < |s| ensures other(s[j].dst) == Compute(ops, s[j], other) { OldInstr(ops, g, n, j, val, other, k); }
    var e := Extended(g.mlmi[n], inputs, i, front).instrs;
    forall j | 0 <= j < |e| ensures other(e[j].dst) == Compute(ops, e[j], other) {
      if front && j > 0 { assert e[j] == s[j - 1]; } else if !front && j < |s| { assert e[j] == s[j]; }
    }
  }

  lemma ExtendedBelow(n: Mlmi, inputs: seq<nat>, i: Instr, front: bool, k: nat)
    requires NodeBelow(n, k) && i.dst == k && (forall m :: m in inputs ==> m < k) && (forall m: nat :: i.Reads(m) ==> m in inputs)
    ensures NodeBelow(Extended(n, inputs, i, front), k + 1)
  {
    hide Instr.Reads;
    var e := Extended(n, inputs, i, front).instrs;
    forall j | 0 <= j < |e| ensures InstrBelow(e[j], k + 1) {
      if front && j > 0 { assert e[j] == n.instrs[j - 1]; } else if !front && j < |n.instrs| { assert e[j] == n.instrs[j]; }
    }
  }

  lemma ExtendBelow(g: Graph, n: nat, inputs: seq<nat>, i: Instr, front: bool, fwd: Edges, k: nat)
    requires NodesOk(g) && Below(g, k) && n in g.nodes && i.dst == k && (forall m :: m in inputs ==> m < k) && (forall m: nat :: i.Reads(m) ==> m in inputs)
    requires NodesOk(WithExtended(g, n, inputs, i, front, fwd))
    ensures Below(WithExtended(g, n, inputs, i, front, fwd), k + 1)
  {
    hide NodeOk; hide NodeBelow; hide Instr.Reads;
    ExtendedBelow(g.mlmi[n], inputs, i, front, k);
    forall y | y in g.nodes ensures NodeBelow(g.mlmi[y], k + 1) { BelowMore(g.mlmi[y], k); }
  }

  lemma BelowMore(n: Mlmi, k: nat)
    requires NodeBelow(n, k)
    ensures NodeBelow(n, k + 1)
  {
    hide Instr.Reads;
    forall i | 0 <= i < |n.instrs| ensures InstrBelow(n.instrs[i], k + 1) { assert InstrBelow(n.instrs[i], k); }
  }

  lemma UnusedCell(g: Graph, k: nat)
    requires NodesOk(g) && Below(g, k)
    ensures Unused(g, {k})
  {
    hide NodeOk;
    forall y | y in g.nodes ensures k !in g.mlmi[y].inputs { assert NodeBelow(g.mlmi[y], k); }
  }

  lemma OriginsMore(rho: Origins, first: nat, k: nat, src: nat, zero: bool)
    requires OriginsOk(rho, first, k) && first <= k && (zero || src < k)
    ensures OriginsOk(rho[k := if zero then Zero else OriginOf(rho, src)], first, k + 1)
  {
  }

  lemma OriginsStay(rho: Origins, k: nat, o: Origin, x: nat)
    requires x != k
    ensures OriginOf(rho[k := o], x) == OriginOf(rho, x)
  {
  }

  /** Adding a copy of an available cell, or a zero, to a node keeps the meaning. */
  lemma TracksExtend(g0: Graph, first: nat, g: Graph, rho: Origins, k: nat, n: nat, inputs: seq<nat>, src: nat, zero: bool, front: bool, fwd: Edges)
    requires Tracks(g0, first, g, rho, k) && n in g.nodes && n in g.mlmi && (zero || src in inputs)
    requires var i := if zero then MoveZero(k) else Move(k, src);
      var h := WithExtended(g, n, inputs, i, front, fwd);
      Good(g, h, n, Extended(g.mlmi[n], inputs, i, front), {k}) && Integral(h) && forall m :: m in inputs ==> m < k
    ensures var i := if zero then MoveZero(k) else Move(k, src);
      Tracks(g0, first, WithExtended(g, n, inputs, i, front, fwd), rho[k := if zero then Zero else OriginOf(rho, src)], k + 1)
  {
    hide *;
    var i := if zero then MoveZero(k) else Move(k, src);
    var o := if zero then Zero else OriginOf(rho, src);
    var h := WithExtended(g, n, inputs, i, front, fwd);
    TracksParts(g0, first, g, rho, k);
    IntegralParts(h);
    MakerIs(k, src);
    WithExtendedParts(g, n, inputs, i, front, fwd);
    ExtendBelow(g, n, inputs, i, front, fwd, k);
    OriginsMore(rho, first, k, src, zero);
    forall ops: Ops, val: Env | Models(ops, g0, val) ensures Models(ops, h, Pull(val, rho[k := o])) {
      var a, b := Pull(val, rho), Pull(val, rho[k := o]);
      CarriesAt(g0, g, rho, ops, val);
      forall x: nat | x < k ensures a(x) == b(x) { PullBelow(val, rho, k, o, x); }
      MakerComputes(ops, rho, k, src, zero, val);
      ExtendComputes(ops, g, n, inputs, i, front, a, b, k);
      ChangedModel(ops, g, h, n, Extended(g.mlmi[n], inputs, i, front), {k}, a, b, k);
    }
    forall j | 0 <= j < |h.progOutputs| ensures OriginOf(rho[k := o], h.progOutputs[j]) == Of(g0.progOutputs[j]) {
      OutputsBelow(g, k, j);
      OriginsStay(rho, k, o, h.progOutputs[j]);
    }
    ExtendedReturns(g.mlmi[n], inputs, i, front);
    ReturningChanged(g, h, n, Extended(g.mlmi[n], inputs, i, front));
    MakeTracks(g0, first, h, rho[k := o], k + 1);
  }

  lemma ExtendedReturns(n: Mlmi, inputs: seq<nat>, i: Instr, front: bool)
    ensures Returns(n) ==> Returns(Extended(n, inputs, i, front))
  {
  }

  lemma RewiredReturns(n: Mlmi, inputs: seq<nat>, sigma: map<nat, nat>)
    ensures Returns(n) ==> Returns(Rewired(n, inputs, sigma))
  {
  }

  lemma MakerIs(k: nat, src: nat)
    ensures MoveZero(k).dst == k && Move(k, src).dst == k
    ensures (forall m: nat :: !MoveZero(k).Reads(m)) && (forall m: nat :: Move(k, src).Reads(m) <==> m == src)
  {
  }

  lemma WithExtendedParts(g: Graph, n: nat, inputs: seq<nat>, i: Instr, front: bool, fwd: Edges)
    requires n in g.mlmi
    ensures var h := WithExtended(g, n, inputs, i, front, fwd);
      h.nodes == g.nodes && h.mlmi == g.mlmi[n := Extended(g.mlmi[n], inputs, i, front)] && h.progInputs == g.progInputs && h.progOutputs == g.progOutputs
      && h.fwd == fwd && h.back == g.back[i.dst := n]
  {
    hide Extended;
  }

  lemma TracksParts(g0: Graph, first: nat, g: Graph, rho: Origins, k: nat)
    requires Tracks(g0, first, g, rho, k)
    ensures NodesOk(g0) && Integral(g) && NodesOk(g) && BackOk(g) && FwdOk(g) && AvailableOk(g) && first <= k && OriginsOk(rho, first, k) && Below(g, k)
    ensures g.progInputs == g0.progInputs && (forall m :: m in g0.progInputs ==> m < first) && Carries(g0, g, rho) && (Returning(g0) ==> Returning(g))
    ensures |g.progOutputs| == |g0.progOutputs| && (forall i :: 0 <= i < |g.progOutputs| ==> OriginOf(rho, g.progOutputs[i]) == Of(g0.progOutputs[i]))
    ensures SameRepeats(g0.progOutputs, g.progOutputs)
  {
    hide SameRepeats; hide NodesOk; hide BackOk; hide FwdOk; hide AvailableOk; hide OriginsOk; hide Below; hide Carries; hide OriginOf; hide Returning;
  }

  lemma MakeTracks(g0: Graph, first: nat, g: Graph, rho: Origins, k: nat)
    requires NodesOk(g0) && Integral(g) && NodesOk(g) && first <= k && OriginsOk(rho, first, k) && Below(g, k)
    requires g.progInputs == g0.progInputs && (forall m :: m in g0.progInputs ==> m < first)
    requires |g.progOutputs| == |g0.progOutputs| && (forall i :: 0 <= i < |g.progOutputs| ==> OriginOf(rho, g.progOutputs[i]) == Of(g0.progOutputs[i]))
    requires (forall ops: Ops, val: Env :: Models(ops, g0, val) ==> Models(ops, g, Pull(val, rho))) && (Returning(g0) ==> Returning(g)) && SameRepeats(g0.progOutputs, g.progOutputs)
    ensures Tracks(g0, first, g, rho, k)
  {
    hide SameRepeats; hide NodesOk; hide BackOk; hide FwdOk; hide AvailableOk; hide OriginsOk; hide Below; hide Models; hide OriginOf; hide Pull; hide Returning;
  }

  lemma CarriesAt(g0: Graph, g: Graph, rho: Origins, ops: Ops, val: Env)
    requires NodesOk(g0) && NodesOk(g) && Carries(g0, g, rho) && Models(ops, g0, val)
    ensures Models(ops, g, Pull(val, rho))
  {
    hide NodesOk; hide Models; hide Pull;
  }

  lemma OutputsBelow(g: Graph, k: nat, j: nat)
    requires NodesOk(g) && Below(g, k) && j < |g.progOutputs|
    ensures g.progOutputs[j] < k
  {
    hide NodeOk; hide NodeBelow;
    assert g.progOutputs[j] in g.progOutputs;
  }

  // ----- reading copies -----

  lemma RenamedComputes(ops: Ops, sigma: map<nat, nat>, i: Instr, env: Env)
    requires forall m :: m in sigma ==> env(sigma[m]) == env(m)
    ensures Compute(ops, RenamedInstr(sigma, i), env) == Compute(ops, i, env)
  {
  }

  lemma RewiredBelow(n: Mlmi, inputs: seq<nat>, sigma: map<nat, nat>, k: nat)
    requires NodeBelow(n, k) && (forall m :: m in inputs ==> m < k) && (forall m :: m in sigma ==> sigma[m] < k)
    ensures NodeBelow(Rewired(n, inputs, sigma), k)
  {
    hide Instr.Reads; hide RenamedInstr;
    var r := RenamedAll(sigma, n.instrs);
    forall i | 0 <= i < |r| ensures InstrBelow(r[i], k) { RenamedInstrBelow(sigma, n.instrs[i], k); }
  }

  lemma RenamedInstrBelow(sigma: map<nat, nat>, i: Instr, k: nat)
    requires InstrBelow(i, k) && forall m :: m in sigma ==> sigma[m] < k
    ensures InstrBelow(RenamedInstr(sigma, i), k)
  {
    hide Instr.Reads;
    forall m: nat | RenamedInstr(sigma, i).Reads(m) ensures m < k {
      RenamedReads(sigma, i, m);
    }
  }

  /** Reading a copy with the same origin instead of the original keeps the meaning. */
  lemma TracksRewire(g0: Graph, first: nat, g: Graph, rho: Origins, k: nat, n: nat, inputs: seq<nat>, sigma: map<nat, nat>, fwd: Edges)
    requires Tracks(g0, first, g, rho, k) && n in g.nodes && n in g.mlmi
    requires var h := WithRewired(g, n, inputs, sigma, fwd); Good(g, h, n, Rewired(g.mlmi[n], inputs, sigma), {}) && Integral(h)
    requires (forall m :: m in inputs ==> m < k) && (forall m :: m in sigma ==> sigma[m] < k && OriginOf(rho, sigma[m]) == OriginOf(rho, m))
    ensures Tracks(g0, first, WithRewired(g, n, inputs, sigma, fwd), rho, k)
  {
    hide *;
    var h := WithRewired(g, n, inputs, sigma, fwd);
    TracksParts(g0, first, g, rho, k);
    IntegralParts(h);
    WithRewiredParts(g, n, inputs, sigma, fwd);
    RewireBelow(g, n, inputs, sigma, fwd, k);
    forall ops: Ops, val: Env | Models(ops, g0, val) ensures Models(ops, h, Pull(val, rho)) {
      CarriesAt(g0, g, rho, ops, val);
      RewireComputes(ops, g, n, inputs, sigma, val, rho);
      ChangedModel(ops, g, h, n, Rewired(g.mlmi[n], inputs, sigma), {}, Pull(val, rho), Pull(val, rho), k);
    }
    RewiredReturns(g.mlmi[n], inputs, sigma);
    ReturningChanged(g, h, n, Rewired(g.mlmi[n], inputs, sigma));
    MakeTracks(g0, first, h, rho, k);
  }

  lemma WithRewiredParts(g: Graph, n: nat, inputs: seq<nat>, sigma: map<nat, nat>, fwd: Edges)
    requires n in g.mlmi
    ensures var h := WithRewired(g, n, inputs, sigma, fwd);
      h.nodes == g.nodes && h.mlmi == g.mlmi[n := Rewired(g.mlmi[n], inputs, sigma)] && h.progInputs == g.progInputs && h.progOutputs == g.progOutputs
      && h.fwd == fwd && h.back == g.back
  {
    hide Rewired;
  }

  lemma RewireBelow(g: Graph, n: nat, inputs: seq<nat>, sigma: map<nat, nat>, fwd: Edges, k: nat)
    requires NodesOk(g) && Below(g, k) && n in g.nodes && (forall m :: m in inputs ==> m < k) && (forall m :: m in sigma ==> sigma[m] < k)
    requires NodesOk(WithRewired(g, n, inputs, sigma, fwd))
    ensures Below(WithRewired(g, n, inputs, sigma, fwd), k)
  {
    hide NodeOk; hide NodeBelow; hide Rewired;
    RewiredBelow(g.mlmi[n], inputs, sigma, k);
  }

  lemma RewireComputes(ops: Ops, g: Graph, n: nat, inputs: seq<nat>, sigma: map<nat, nat>, val: Env, rho: Origins)
    requires NodesOk(g) && n in g.nodes && Models(ops, g, Pull(val, rho)) && forall m :: m in sigma ==> OriginOf(rho, sigma[m]) == OriginOf(rho, m)
    ensures Computes(ops, Rewired(g.mlmi[n], inputs, sigma).instrs, Pull(val, rho))
  {
    hide Compute; hide NodeOk; hide RenamedInstr;
    var s := g.mlmi[n].instrs;
    var env := Pull(val, rho);
    forall j | 0 <= j < |s| ensures env(s[j].dst) == Compute(ops, RenamedInstr(sigma, s[j]), env) && RenamedInstr(sigma, s[j]).dst == s[j].dst {
      RenamedComputes(ops, sigma, s[j], env);
      RenamedDst(sigma, s[j]);
    }
  }

  lemma RenamedDst(sigma: map<nat, nat>, i: Instr)
    ensures RenamedInstr(sigma, i).dst == i.dst
  {
  }

  // ----- the outputs -----

  /** Running the changed graph in any order computes the outputs of the old one. */
  lemma TrackedOutputs(ops: Ops, g0: Graph, first: nat, g: Graph, rho: Origins, k: nat, order: seq<nat>, env: Env, val: Env, i: nat)
    requires Tracks(g0, first, g, rho, k) && Models(ops, g0, val) && NodesOk(g) && IsOrder(g, order) && i < |g.progOutputs|
    requires forall x :: x in g0.progInputs ==> env(x) == val(x)
    ensures (forall j :: 0 <= j < |order| ==> order[j] in g.mlmi) && |g0.progOutputs| == |g.progOutputs|
    ensures RunList(ops, g, order, env)(g.progOutputs[i]) == val(g0.progOutputs[i])
  {
    hide *;
    TracksParts(g0, first, g, rho, k);
    CarriesAt(g0, g, rho, ops, val);
    OrderIs(g, order);
    var pulled := Pull(val, rho);
    forall x | x in g.progInputs ensures env(x) == pulled(x) { PullOld(val, rho, first, k, x); }
    assert g.progOutputs[i] in g.progOutputs;
    OrderComputesOutputs(ops, g, order, env, pulled, g.progOutputs[i]);
    PullIs(val, rho, g.progOutputs[i], g0.progOutputs[i]);
  }

  lemma PullOld(val: Env, rho: Origins, first: nat, k: nat, x: nat)
    requires OriginsOk(rho, first, k) && x < first
    ensures Pull(val, rho)(x) == val(x)
  {
  }

  lemma PullIs(val: Env, rho: Origins, x: nat, y: nat)
    requires OriginOf(rho, x) == Of(y)
    ensures Pull(val, rho)(x) == val(y)
  {
  }
}
