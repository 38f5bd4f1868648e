/** Changes of a dataflow graph that only move values around: new nodes, copies of cells, zero cells, extra outputs
    and inputs, and reading a copy instead of the original. The passes of compiler/src/universalization are made
    of these. `Origins` records, for each new cell, which old cell it is a copy of. */
module Copies {
  import opened IR
  import opened Graphs
  import opened Dfg
  import opened DfgSchedule
  import opened DfgMerge

  datatype Origin = Of(cell: nat) | Zero
  type Origins = map<nat, Origin>

  function OriginOf(rho: Origins, x: nat): Origin {
    if x in rho then rho[x] else Of(x)
  }

  /** The value of every cell, old or new, in terms of the old cells. */
  function Pull(val: Env, rho: Origins): Env {
    (x: nat) => ValueOf(val, OriginOf(rho, x))
  }

  function ValueOf(val: Env, o: Origin): Word {
    match o case Of(c) => val(c) case Zero => 0
  }

  /** The cells from `first` to `k` are new, and each is a copy of an old one or zero. */
  ghost predicate OriginsOk(rho: Origins, first: nat, k: nat) {
    && (forall x :: x in rho ==> first <= x < k && (rho[x].Of? ==> rho[x].cell < first))
    && (forall x: nat :: first <= x < k ==> x in rho)
  }

  // ----- changing one node -----

  /** `h` is `g` with node `n` replaced by `mi`, which assigns the added cells `added` in addition. */
  ghost predicate Changes(g: Graph, h: Graph, n: nat, mi: Mlmi, added: set<nat>)
    requires NodesOk(g) && n in g.nodes
  {
    && h.nodes == g.nodes && h.mlmi == g.mlmi[n := mi] && h.progInputs == g.progInputs && h.progOutputs == g.progOutputs
    && (forall m :: Assigns(mi.instrs, m) <==> Assigns(g.mlmi[n].instrs, m) || m in added)
    && (forall m :: m in h.back <==> m in g.back || m in added)
    && (forall m :: m in h.back ==> h.back[m] == if m in added then n else g.back[m])
  }

  /** The cells of `added` are new to `g`. */
  ghost predicate Unused(g: Graph, added: set<nat>)
    requires NodesOk(g)
  {
    forall m :: m in added ==> m !in g.back && m !in g.progInputs && m !in g.progOutputs && forall y :: y in g.nodes ==> m !in g.mlmi[y].inputs
  }

  /** Outputs stay, and what is newly an output is read by nobody. */
  ghost predicate OutputsGrow(g: Graph, n: nat, mi: Mlmi)
    requires NodesOk(g) && n in g.nodes
  {
    && (forall m :: m in g.mlmi[n].outputs ==> m in mi.outputs)
    && (forall y, m :: y in g.nodes && y != n && m in g.mlmi[y].inputs && m in mi.outputs ==> m in g.mlmi[n].outputs)
  }

  /** The edges: those out of `n` stay, and `n` succeeds exactly the nodes it shares a variable with. */
  ghost predicate EdgesFollow(g: Graph, h: Graph, n: nat, mi: Mlmi)
    requires NodesOk(g) && n in g.nodes
  {
    && (forall a :: a in h.fwd ==> a in g.nodes)
    && Succ(h.fwd, n) == Succ(g.fwd, n)
    && (forall a, b :: a in g.nodes && a != n && b != n ==> (b in Succ(h.fwd, a) <==> b in Succ(g.fwd, a)))
    && (forall a :: a in g.nodes && a != n ==> (n in Succ(h.fwd, a) <==> Shares(g.mlmi[a], mi)))
  }

  ghost predicate Good(g: Graph, h: Graph, n: nat, mi: Mlmi, added: set<nat>) {
    && Integral(g) && n in g.nodes && NodeOk(mi) && Changes(g, h, n, mi, added) && Unused(g, added) && OutputsGrow(g, n, mi)
    && EdgesFollow(g, h, n, mi) && (forall m :: m in mi.inputs ==> Available(g, m) && m !in added)
  }

  lemma ChangeNodesOk(g: Graph, h: Graph, n: nat, mi: Mlmi, added: set<nat>)
    requires Good(g, h, n, mi, added)
    ensures NodesOk(h)
  {
    hide NodeOk; hide BackOk; hide FwdOk; hide AvailableOk; hide Unused; hide OutputsGrow; hide EdgesFollow; hide Available; hide Assigns;
  }

  lemma ChangeBackOk(g: Graph, h: Graph, n: nat, mi: Mlmi, added: set<nat>)
    requires Good(g, h, n, mi, added) && NodesOk(h)
    ensures BackOk(h)
  {
    hide NodeOk; hide FwdOk; hide AvailableOk; hide OutputsGrow; hide EdgesFollow; hide Available; hide Assigns;
  }

  lemma ChangedAvailable(g: Graph, h: Graph, n: nat, mi: Mlmi, added: set<nat>, m: nat)
    requires Good(g, h, n, mi, added) && NodesOk(h) && BackOk(h) && Available(g, m) && m !in added
    ensures Available(h, m)
  {
    hide NodeOk; hide FwdOk; hide AvailableOk; hide EdgesFollow; hide Assigns; hide BackOk; hide Unused;
  }

  lemma ChangeAvailableOk(g: Graph, h: Graph, n: nat, mi: Mlmi, added: set<nat>)
    requires Good(g, h, n, mi, added) && NodesOk(h) && BackOk(h)
    ensures AvailableOk(h)
  {
    hide NodeOk; hide FwdOk; hide EdgesFollow; hide Assigns; hide BackOk; hide Available; hide OutputsGrow;
    forall y, m | y in h.nodes && m in h.mlmi[y].inputs ensures Available(h, m) { ChangedAvailable(g, h, n, mi, added, m); }
    forall m | m in h.progOutputs ensures Available(h, m) { ChangedAvailable(g, h, n, mi, added, m); }
  }

  lemma ChangeOut(g: Graph, h: Graph, n: nat, mi: Mlmi, added: set<nat>, b: nat)
    requires Good(g, h, n, mi, added) && NodesOk(h)
    ensures b in Succ(h.fwd, n) <==> b in h.nodes && Shares(mi, h.mlmi[b])
  {
    hide NodeOk; hide Assigns; hide BackOk; hide Available; hide AvailableOk; hide Unused; hide FwdOk; hide Succ;
    EdgesIn(g, n, b);
    NoSelfShare(mi);
    NoSelfShare(g.mlmi[n]);
    if b in g.nodes && b != n { SameShares(g.mlmi[n], mi, g.mlmi[b]); }
  }

  lemma SameShares(old_: Mlmi, mi: Mlmi, b: Mlmi)
    requires forall m :: m in old_.outputs ==> m in mi.outputs
    requires forall m :: m in b.inputs && m in mi.outputs ==> m in old_.outputs
    ensures Shares(mi, b) <==> Shares(old_, b)
  {
  }

  lemma ChangeFwdOk(g: Graph, h: Graph, n: nat, mi: Mlmi, added: set<nat>)
    requires Good(g, h, n, mi, added) && NodesOk(h)
    ensures FwdOk(h)
  {
    hide NodeOk; hide Assigns; hide BackOk; hide Available; hide AvailableOk; hide Unused; hide FwdOk; hide Succ; hide Shares; hide OutputsGrow;
    forall a, b | a in h.nodes ensures b in Succ(h.fwd, a) <==> b in h.nodes && Shares(h.mlmi[a], h.mlmi[b]) {
      if a == n { ChangeOut(g, h, n, mi, added, b); } else { EdgesIn(g, a, b); }
    }
    MakeFwdOk(h);
  }

  lemma MakeFwdOk(g: Graph)
    requires NodesOk(g) && (forall a :: a in g.fwd ==> a in g.nodes)
    requires forall a, b :: a in g.nodes ==> (b in Succ(g.fwd, a) <==> b in g.nodes && Shares(g.mlmi[a], g.mlmi[b]))
    ensures FwdOk(g)
  {
    hide NodeOk; hide Shares;
  }

  /** Such a change keeps the graph integral. */
  lemma ChangeIntegral(g: Graph, h: Graph, n: nat, mi: Mlmi, added: set<nat>)
    requires Good(g, h, n, mi, added)
    ensures Integral(h)
  {
    hide *;
    ChangeNodesOk(g, h, n, mi, added);
    ChangeBackOk(g, h, n, mi, added);
    ChangeFwdOk(g, h, n, mi, added);
    ChangeAvailableOk(g, h, n, mi, added);
    MakeIntegral(h);
  }

  // ----- a new, empty node -----

  ghost function WithNode(g: Graph, x: nat): Graph {
    Graph(g.nodes + {x}, g.mlmi[x := Mlmi([], [], [])], g.fwd, g.back, g.progInputs, g.progOutputs)
  }

  lemma AddNodeIntegral(g: Graph, x: nat)
    requires Integral(g) && x !in g.mlmi
    ensures Integral(WithNode(g, x))
  {
    var h := WithNode(g, x);
    var e := Mlmi([], [], []);
    assert NodeOk(e);
    hide NodeOk;
    assert forall m :: !Assigns(e.instrs, m);
    forall n ensures !Shares(e, n) && !Shares(n, e) { }
    hide Assigns; hide Shares;
    assert NodesOk(h);
    assert BackOk(h);
    forall a | a == x ensures Succ(h.fwd, a) == {} { assert a !in g.fwd; }
    assert FwdOk(h);
    forall m | Available(g, m) ensures Available(h, m) { }
    assert AvailableOk(h);
  }

  // ----- a copy of a cell -----

  function Move(dst: nat, src: nat): Instr {
    Instr(MOV, dst, Loc(src), Absent, Absent)
  }

  function MoveZero(dst: nat): Instr {
    Instr(MOV, dst, Imm(0), Absent, Absent)
  }

  function WithInput(inputs: seq<nat>, m: nat, always: bool): (r: seq<nat>)
    ensures forall x :: x in r <==> x in inputs || x == m
  {
    if always || m !in inputs then inputs + [m] else inputs
  }

  /** The node with one more instruction, first or last, whose result is one more output. */
  function Extended(n: Mlmi, inputs: seq<nat>, i: Instr, front: bool): Mlmi {
    Mlmi(if front then [i] + n.instrs else n.instrs + [i], inputs, n.outputs + [i.dst])
  }

  lemma ConsAssigns(i: Instr, s: seq<Instr>, m: nat)
    ensures Assigns([i] + s, m) <==> i.dst == m || Assigns(s, m)
    ensures Assigns(s + [i], m) <==> i.dst == m || Assigns(s, m)
  {
    AssignsConcat([i], s, m);
    AssignsConcat(s, [i], m);
    assert Assigns([i], m) <==> i.dst == m by {
      if i.dst == m { assert [i][0].dst == m; }
    }
  }

  lemma ConsSingle(i: Instr, s: seq<Instr>)
    requires SingleAssign(s) && !Assigns(s, i.dst)
    ensures SingleAssign([i] + s) && SingleAssign(s + [i])
  {
  }

  lemma FrontScheduled(i: Instr, s: seq<Instr>, inputs: set<nat>, more: set<nat>)
    requires Scheduled(s, inputs) && inputs <= more && forall m: nat :: i.Reads(m) ==> m in more
    ensures Scheduled([i] + s, more)
  {
    hide Assigns; hide Instr.Reads;
    var t := [i] + s;
    forall k, m | 0 <= k < |t| && t[k].Reads(m) ensures m in more || Assigns(t[..k], m) {
      if k > 0 {
        assert t[k] == s[k - 1] && t[..k] == [i] + s[..k - 1];
        ConsAssigns(i, s[..k - 1], m);
      }
    }
  }

  lemma BackScheduled(i: Instr, s: seq<Instr>, inputs: set<nat>, more: set<nat>)
    requires Scheduled(s, inputs) && inputs <= more && forall m: nat :: i.Reads(m) ==> m in more
    ensures Scheduled(s + [i], more)
  {
    hide Assigns; hide Instr.Reads;
    var t := s + [i];
    forall k, m | 0 <= k < |t| && t[k].Reads(m) ensures m in more || Assigns(t[..k], m) {
      if k < |s| { assert t[k] == s[k] && t[..k] == s[..k]; }
    }
  }

  lemma ExtendedOk(n: Mlmi, inputs: seq<nat>, i: Instr, front: bool)
    requires NodeOk(n) && !Assigns(n.instrs, i.dst) && i.dst !in inputs
    requires (forall m :: m in n.inputs ==> m in inputs) && (forall m: nat :: i.Reads(m) ==> m in inputs) && (forall m :: m in inputs ==> !Assigns(n.instrs, m))
    ensures NodeOk(Extended(n, inputs, i, front))
    ensures forall m :: Assigns(Extended(n, inputs, i, front).instrs, m) <==> Assigns(n.instrs, m) || m == i.dst
  {
    hide SingleAssign; hide Scheduled; hide Instr.Reads; hide Assigns;
    var e := Extended(n, inputs, i, front);
    forall m ensures Assigns(e.instrs, m) <==> Assigns(n.instrs, m) || m == i.dst { ConsAssigns(i, n.instrs, m); }
    ConsSingle(i, n.instrs);
    if front { FrontScheduled(i, n.instrs, ToSet(n.inputs), ToSet(inputs)); } else { BackScheduled(i, n.instrs, ToSet(n.inputs), ToSet(inputs)); }
  }

  /** `forward_edges[backward_edges[m]].add(n)`, unless `m` is a program input. */
  function EdgeFor(fwd: Edges, back: map<nat, nat>, progInputs: set<nat>, m: nat, n: nat): Edges {
    if m in progInputs || m !in back then fwd else fwd[back[m] := Succ(fwd, back[m]) + {n}]
  }

  ghost function WithExtended(g: Graph, n: nat, inputs: seq<nat>, i: Instr, front: bool, fwd: Edges): Graph
    requires n in g.mlmi
  {
    Graph(g.nodes, g.mlmi[n := Extended(g.mlmi[n], inputs, i, front)], fwd, g.back[i.dst := n], g.progInputs, g.progOutputs)
  }

  /** Reading one more available cell adds exactly the edge from its definition. */
  lemma EdgeForFollows(g: Graph, h: Graph, n: nat, mi: Mlmi, m: nat)
    requires Integral(g) && n in g.nodes && Available(g, m) && !Assigns(g.mlmi[n].instrs, m)
    requires (forall x :: x in mi.inputs <==> x in g.mlmi[n].inputs || x == m) && h.fwd == EdgeFor(g.fwd, g.back, g.progInputs, m, n)
    ensures EdgesFollow(g, h, n, mi)
  {
    hide NodeOk; hide AvailableOk; hide Assigns;
    forall a | a in g.nodes && a != n ensures n in Succ(h.fwd, a) <==> Shares(g.mlmi[a], mi) {
      EdgesIn(g, a, n);
      if m in g.mlmi[a].outputs { OutputAssigned(g, a, m); }
      ShareMore(g.mlmi[a], g.mlmi[n], mi, m);
    }
  }

  lemma ShareMore(a: Mlmi, n: Mlmi, mi: Mlmi, m: nat)
    requires forall x :: x in mi.inputs <==> x in n.inputs || x == m
    ensures Shares(a, mi) <==> Shares(a, n) || m in a.outputs
  {
  }

  lemma SameEdgesFollow(g: Graph, h: Graph, n: nat, mi: Mlmi)
    requires Integral(g) && n in g.nodes && mi.inputs == g.mlmi[n].inputs && h.fwd == g.fwd
    ensures EdgesFollow(g, h, n, mi)
  {
    hide NodeOk; hide AvailableOk; hide Assigns; hide Shares;
    forall a | a in g.nodes && a != n ensures n in Succ(h.fwd, a) <==> Shares(g.mlmi[a], mi) {
      EdgesIn(g, a, n);
      ShareSame(g.mlmi[a], g.mlmi[n], mi);
    }
  }

  lemma ShareSame(a: Mlmi, n: Mlmi, mi: Mlmi)
    requires mi.inputs == n.inputs
    ensures Shares(a, mi) <==> Shares(a, n)
  {
  }

  /** Adding a copy of an available cell, or a zero, to a node. */
  lemma ExtendGood(g: Graph, n: nat, inputs: seq<nat>, i: Instr, front: bool, fwd: Edges)
    requires Integral(g) && n in g.nodes && Unused(g, {i.dst}) && i.dst !in inputs
    requires (forall m :: m in g.mlmi[n].inputs ==> m in inputs) && (forall m: nat :: i.Reads(m) ==> m in inputs)
    requires forall m :: m in inputs ==> Available(g, m) && !Assigns(g.mlmi[n].instrs, m)
    requires EdgesFollow(g, WithExtended(g, n, inputs, i, front, fwd), n, Extended(g.mlmi[n], inputs, i, front))
    ensures Good(g, WithExtended(g, n, inputs, i, front, fwd), n, Extended(g.mlmi[n], inputs, i, front), {i.dst})
  {
    hide EdgesFollow; hide Instr.Reads; hide AvailableOk; hide FwdOk; hide Available; hide NodeOk; hide Assigns;
    var h := WithExtended(g, n, inputs, i, front, fwd);
    var e := Extended(g.mlmi[n], inputs, i, front);
    NotAssigned(g, n, i.dst);
    ExtendedOk(g.mlmi[n], inputs, i, front);
    NewOutputUnread(g, n, e, i.dst);
    assert Changes(g, h, n, e, {i.dst});
    assert OutputsGrow(g, n, e);
  }

  lemma NotAssigned(g: Graph, n: nat, m: nat)
    requires NodesOk(g) && BackOk(g) && n in g.nodes && m !in g.back
    ensures !Assigns(g.mlmi[n].instrs, m)
  {
    hide NodeOk; hide Assigns;
  }

  lemma NewOutputUnread(g: Graph, n: nat, e: Mlmi, d: nat)
    requires NodesOk(g) && n in g.nodes && Unused(g, {d}) && e.outputs == g.mlmi[n].outputs + [d]
    ensures OutputsGrow(g, n, e)
  {
    hide NodeOk;
  }

  // ----- reading copies instead of originals -----

  function Renamed(sigma: map<nat, nat>, m: nat): nat {
    if m in sigma then sigma[m] else m
  }

  function RenamedSrc(sigma: map<nat, nat>, s: Src): Src {
    if s.Loc? then Loc(Renamed(sigma, s.m)) else s
  }

  function RenamedInstr(sigma: map<nat, nat>, i: Instr): Instr {
    Instr(i.opcode, i.dst, RenamedSrc(sigma, i.src1), RenamedSrc(sigma, i.src2), RenamedSrc(sigma, i.src3))
  }

  function RenamedAll(sigma: map<nat, nat>, s: seq<Instr>): (r: seq<Instr>)
    ensures |r| == |s| && forall i :: 0 <= i < |s| ==> r[i] == RenamedInstr(sigma, s[i])
  {
    seq(|s|, i requires 0 <= i < |s| => RenamedInstr(sigma, s[i]))
  }

  lemma RenamedReads(sigma: map<nat, nat>, i: Instr, m: nat)
    requires RenamedInstr(sigma, i).Reads(m)
    ensures exists x: nat :: i.Reads(x) && Renamed(sigma, x) == m
  {
    if i.src1.Loc? && Renamed(sigma, i.src1.m) == m { assert i.Reads(i.src1.m); }
    if i.src2.Loc? && Renamed(sigma, i.src2.m) == m { assert i.Reads(i.src2.m); }
    if i.src3.Loc? && Renamed(sigma, i.src3.m) == m { assert i.Reads(i.src3.m); }
  }

  lemma RenamedAssigns(sigma: map<nat, nat>, s: seq<Instr>, m: nat)
    ensures Assigns(RenamedAll(sigma, s), m) <==> Assigns(s, m)
  {
    var r := RenamedAll(sigma, s);
    if Assigns(s, m) { var k :| 0 <= k < |s| && s[k].dst == m; assert r[k].dst == m; }
    if Assigns(r, m) { var k :| 0 <= k < |r| && r[k].dst == m; assert s[k].dst == m; }
  }

  /** The node reading `inputs`, its sources renamed. */
  function Rewired(n: Mlmi, inputs: seq<nat>, sigma: map<nat, nat>): Mlmi {
    Mlmi(RenamedAll(sigma, n.instrs), inputs, n.outputs)
  }

  lemma RewiredOk(n: Mlmi, inputs: seq<nat>, sigma: map<nat, nat>)
    requires NodeOk(n) && (forall m :: m in sigma ==> m in n.inputs)
    requires (forall m :: m in n.inputs ==> Renamed(sigma, m) in inputs) && (forall m :: m in inputs ==> !Assigns(n.instrs, m))
    ensures NodeOk(Rewired(n, inputs, sigma))
    ensures forall m :: Assigns(Rewired(n, inputs, sigma).instrs, m) <==> Assigns(n.instrs, m)
  {
    hide Instr.Reads; hide Assigns; hide RenamedInstr;
    var r := RenamedAll(sigma, n.instrs);
    forall m ensures Assigns(r, m) <==> Assigns(n.instrs, m) { RenamedAssigns(sigma, n.instrs, m); }
    forall k, m | 0 <= k < |r| && r[k].Reads(m) ensures m in inputs || Assigns(r[..k], m) {
      RenamedReads(sigma, n.instrs[k], m);
      var x: nat :| n.instrs[k].Reads(x) && Renamed(sigma, x) == m;
      if x !in n.inputs {
        assert r[..k] == RenamedAll(sigma, n.instrs[..k]);
        RenamedAssigns(sigma, n.instrs[..k], x);
      }
    }
    RenamedSingle(sigma, n.instrs);
  }

  lemma RenamedSingle(sigma: map<nat, nat>, s: seq<Instr>)
    requires SingleAssign(s)
    ensures SingleAssign(RenamedAll(sigma, s))
  {
  }

  ghost function WithRewired(g: Graph, n: nat, inputs: seq<nat>, sigma: map<nat, nat>, fwd: Edges): Graph
    requires n in g.mlmi
  {
    Graph(g.nodes, g.mlmi[n := Rewired(g.mlmi[n], inputs, sigma)], fwd, g.back, g.progInputs, g.progOutputs)
  }

  lemma RewireGood(g: Graph, n: nat, inputs: seq<nat>, sigma: map<nat, nat>, fwd: Edges)
    requires Integral(g) && n in g.nodes && (forall m :: m in sigma ==> m in g.mlmi[n].inputs)
    requires (forall m :: m in g.mlmi[n].inputs ==> Renamed(sigma, m) in inputs)
    requires forall m :: m in inputs ==> Available(g, m) && !Assigns(g.mlmi[n].instrs, m)
    requires EdgesFollow(g, WithRewired(g, n, inputs, sigma, fwd), n, Rewired(g.mlmi[n], inputs, sigma))
    ensures Good(g, WithRewired(g, n, inputs, sigma, fwd), n, Rewired(g.mlmi[n], inputs, sigma), {})
  {
    hide EdgesFollow; hide AvailableOk; hide FwdOk; hide Available; hide NodeOk; hide Assigns; hide Renamed; hide BackOk;
    var h := WithRewired(g, n, inputs, sigma, fwd);
    var e := Rewired(g.mlmi[n], inputs, sigma);
    RewiredOk(g.mlmi[n], inputs, sigma);
    assert Changes(g, h, n, e, {});
    assert OutputsGrow(g, n, e);
    assert Unused(g, {});
  }
}
