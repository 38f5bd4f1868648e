/** An input on which `merge_1_output_nodes` of compiler/src/clusterization/basic_clusterizer.py leaves `l_out`. */
module ClusterLimits {
  import opened IR
  import opened Graphs
  import opened Dfg
  import opened DfgMerge
  import opened DataflowGraph
  import opened BuildGraph
  import opened Clusterizer

  /** `10 := 0 + 1; 11 := 10 ^ 0`, both returned by the program. */
  function Sum(): Instr { Instr(ADD, 10, Loc(0), Loc(1), Absent) }
  function Mix(): Instr { Instr(XOR, 11, Loc(10), Loc(0), Absent) }
  function Code(): seq<Instr> { [Sum(), Mix()] }
  ghost function BackOf(): map<nat, nat> { map[10 := 0, 11 := 1] }
  ghost function FwdOf(): Edges { map[0 := {1}] }
  ghost function TwoNodes(): Graph { GraphOf(Code(), {0, 1}, [10, 11], BackOf(), FwdOf()) }

  /** One output per node, and no more instructions and inputs than the merged node needs. */
  function Narrow(): Limits { Limits(2, 1, 2) }

  lemma CodeIsFlat()
    ensures Flat(Code(), {0, 1}, [10, 11]) && BackFor(Code(), BackOf())
  {
    var c := Code();
    assert c[0] == Sum() && c[1] == Mix();
    assert Assigns(c[..1], 10) by { assert c[..1][0].dst == 10; }
    assert Assigns(c, 10) && Assigns(c, 11);
    assert Scheduled(c, {0, 1}) by { hide Assigns; }
  }

  lemma UsedByMix()
    ensures UsedSet([Mix()]) == {10, 0} && UsedSet([Sum()]) == {0, 1}
  {
    SingleNodeOk(Sum());
    SingleNodeOk(Mix());
    forall m ensures m in UsedSet([Mix()]) <==> m in {10, 0} { }
    forall m ensures m in UsedSet([Sum()]) <==> m in {0, 1} { }
  }

  lemma EdgesAreInto()
    ensures EdgesInto(Code(), BackOf(), {0, 1}, FwdOf(), 2) && |Code()| == 2
  {
    var c, back, fwd := Code(), BackOf(), FwdOf();
    assert c[0] == Sum() && c[1] == Mix();
    UsedByMix();
    assert Fed(back, {0, 1}, {10, 0}, 0) by { assert back[10] == 0; }
    forall a: nat, b: nat ensures EdgeIs(c, back, {0, 1}, fwd, 2, a, b) { }
  }

  lemma TwoNodesValid()
    ensures Integral(TwoNodes()) && Acyclic(TwoNodes().fwd) && NodesOk(TwoNodes())
    ensures TwoNodes().nodes == {0, 1} && 0 in TwoNodes().mlmi && 1 in TwoNodes().mlmi && TwoNodes().mlmi[0] == FromHli(Sum()) && TwoNodes().mlmi[1] == FromHli(Mix())
    ensures Succ(TwoNodes().fwd, 0) == {1} && Succ(TwoNodes().fwd, 1) == {} && TwoNodes().progOutputs == [10, 11]
  {
    hide Integral; hide Acyclic; hide NodesOk; hide Flat; hide BackFor; hide EdgesInto;
    var c, back, fwd := Code(), BackOf(), FwdOf();
    CodeIsFlat();
    EdgesAreInto();
    BuiltIntegral(c, {0, 1}, [10, 11], back, fwd);
    BuiltAcyclic(c, {0, 1}, [10, 11], back, fwd);
    IntegralParts(TwoNodes());
    assert c[0] == Sum() && c[1] == Mix();
  }

  function Both(): Mlmi { Mlmi([Sum(), Mix()], [0, 1], [10, 11]) }

  lemma BothIsMerged()
    requires 0 in TwoNodes().mlmi && 1 in TwoNodes().mlmi && TwoNodes().mlmi[0] == FromHli(Sum()) && TwoNodes().mlmi[1] == FromHli(Mix())
    requires TwoNodes().progOutputs == [10, 11] && Flat(Code(), {0, 1}, [10, 11])
    ensures MergedNode(TwoNodes(), 0, 1, Both()) && MergedInputs(FromHli(Sum()), FromHli(Mix())) == {0, 1}
    ensures IsMerge(FromHli(Sum()), FromHli(Mix()), Code())
  {
    var g := TwoNodes();
    var a, b := FromHli(Sum()), FromHli(Mix());
    forall m ensures m in MergedInputs(a, b) <==> m in {0, 1} { }
    assert MergedInputs(a, b) == {0, 1};
    hide Flat; hide GraphOf;
    forall o ensures o in [10, 11] <==> Kept(g, 0, 1, o) || Kept(g, 1, 0, o) { }
    FlatParts(Code(), {0, 1}, [10, 11]);
    assert a.instrs == [Sum()] && b.instrs == [Mix()] && Both().instrs == [Sum(), Mix()];
    hide Kept; hide SingleAssign; hide Scheduled; hide Assigns; hide MergedInputs;
  }

  /** Every output is needed, all nodes are within the limits, the first node has one successor, and the checks accept the
      merge; the merged node has two outputs where one is allowed. */
  lemma MergeCanExceedOutputs()
    ensures var g := TwoNodes();
      && Integral(g) && Acyclic(g.fwd) && NodesOk(g) && OutputsNeeded(g) && InLimits(g, Narrow()) && OutLimits(g, Narrow())
      && Succ(g.fwd, 0) == {1} && Mergeable(g, Narrow(), 0, 1, Code()) && 0 in g.mlmi && 1 in g.mlmi && MergedNode(g, 0, 1, Both())
    ensures |Both().outputs| > Narrow().lout
  {
    hide *;
    var g := TwoNodes();
    TwoNodesValid();
    CodeIsFlat();
    BothIsMerged();
    SoleSuccessor(g.fwd, 0, 1);
    Sizes();
    MakeMergeable(g, Narrow(), 0, 1, Code());
    WithinLimits(g);
  }

  lemma Sizes()
    ensures |FromHli(Sum()).instrs| == 1 && |FromHli(Mix()).instrs| == 1 && Narrow() == Limits(2, 1, 2) && |Both().outputs| == 2
    ensures forall s: set<nat> :: s == {0, 1} ==> |s| == 2
  {
    assert |{0, 1}| == 2;
  }

  lemma WithinLimits(g: Graph)
    requires g.nodes == {0, 1} && 0 in g.mlmi && 1 in g.mlmi && g.mlmi[0] == FromHli(Sum()) && g.mlmi[1] == FromHli(Mix()) && g.progOutputs == [10, 11] && NodesOk(g)
    ensures OutputsNeeded(g) && InLimits(g, Narrow()) && OutLimits(g, Narrow())
  {
    hide NodesOk;
    forall n, o | n in g.nodes && o in g.mlmi[n].outputs ensures o in g.progOutputs { }
  }
}
