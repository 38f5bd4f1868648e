/** The recursive compilation of a permutation into control bits: the rest of `BenesPerm._compile`
    of compiler/src/universalization/routing.py. */
module BenesPerm {
  import opened Bits
  import opened Permutations
  import opened Cycles
  import opened Benes
  import opened BenesCompile

  ghost predicate IsBits(f: seq<nat>) {
    forall j :: 0 <= j < |f| ==> f[j] < 2
  }

  /** `[x ^ f[x//2] for x in range(n)]` */
  function SwapMap(f: seq<nat>): (r: seq<nat>)
    requires IsBits(f)
    ensures |r| == 2 * |f| && InRange(r, |r|)
    ensures forall x :: 0 <= x < |r| ==> r[x] == if f[x / 2] == 1 then Twin(x) else x
  {
    assert forall x :: 0 <= x < 2 * |f| ==> Xor(x, f[x / 2]) == (if f[x / 2] == 1 then Twin(x) else x) < 2 * |f| by {
      forall x | 0 <= x < 2 * |f|
        ensures Xor(x, f[x / 2]) == (if f[x / 2] == 1 then Twin(x) else x) < 2 * |f|
      {
        TwinIsXor(x); XorZero(x); TwinRange(x, 2 * |f|);
      }
    }
    seq(2 * |f|, x requires 0 <= x < 2 * |f| => Xor(x, f[x / 2]))
  }

  lemma SwapMapInvolution(f: seq<nat>)
    requires IsBits(f)
    ensures AreInverse(SwapMap(f), SwapMap(f))
  {
    var r := SwapMap(f);
    forall x | 0 <= x < |r| ensures r[r[x]] == x {
      TwinFacts(x);
    }
  }

  lemma SwapMapIsColumn(m: nat, f: seq<nat>)
    requires m >= 1 && IsBits(f) && |f| == Pow2(m - 1)
    ensures ColumnMap(m, 0, f) == SwapMap(f)
  {
  }

  /** `[t[2*j] % 2 for j in range(n//2)]` */
  function EvenParities(t: seq<nat>): (f: seq<nat>)
    ensures |f| == |t| / 2 && IsBits(f)
    ensures forall j :: 0 <= j < |f| ==> f[j] == t[2 * j] % 2
  {
    seq(|t| / 2, j requires 0 <= j < |t| / 2 => t[2 * j] % 2)
  }

  /** `[M[2*j+e]//2 for j in range(n//2)]` */
  function Half(t: seq<nat>, e: nat): (h: seq<nat>)
    requires |t| % 2 == 0 && e < 2
    ensures |h| == |t| / 2
    ensures forall j :: 0 <= j < |h| ==> h[j] == t[2 * j + e] / 2
  {
    seq(|t| / 2, j requires 0 <= j < |t| / 2 => t[2 * j + e] / 2)
  }

  ghost predicate KeepsLowBit(t: seq<nat>) {
    forall y :: 0 <= y < |t| ==> t[y] % 2 == y % 2
  }

  // ----- the middle permutation keeps the low bit -----

  /** The quantities of one recursion step, as `_compile` computes them. */
  ghost predicate IsStep(pi: seq<nat>, f: seq<nat>, l: seq<nat>, mid: seq<nat>) {
    && IsPairedPerm(pi) && IsBits(f) && IsBits(l) && 2 * |f| == 2 * |l| == |pi|
    && (forall j :: 0 <= j < |f| ==> f[j] == CycleMin(pi, 2 * j) % 2)
    && (forall k :: 0 <= k < |l| ==> l[k] == SwapMap(f)[pi[2 * k]] % 2)
    && mid == Gather(Gather(SwapMap(f), pi), SwapMap(l))
  }

  lemma FirstSwapParity(pi: seq<nat>, f: seq<nat>, x: nat)
    requires IsPairedPerm(pi) && IsBits(f) && 2 * |f| == |pi| && x < |pi|
    requires forall j :: 0 <= j < |f| ==> f[j] == CycleMin(pi, 2 * j) % 2
    ensures SwapMap(f)[x] % 2 == CycleMin(pi, x) % 2
  {
    var e := 2 * (x / 2);
    hide CycleMin;
    CycleMinTwin(pi, e);
    TwinFacts(CycleMin(pi, e));
    TwinFacts(x);
    assert x == e || x == Twin(e);
    assert f[x / 2] == CycleMin(pi, e) % 2;
  }

  lemma TwinImage(pi: seq<nat>, y: nat)
    requires IsPairedPerm(pi) && y < |pi|
    ensures Twin(y) < |pi| && CycleMin(pi, pi[Twin(y)]) == Twin(CycleMin(pi, pi[y]))
  {
    var z := Twin(pi[y]);
    TwinRange(pi[y], |pi|);
    TwinFacts(pi[y]);
    TwinRange(y, |pi|);
    assert Sigma(pi)[z] == pi[Twin(InverseOf(pi)[Twin(z)])] == pi[Twin(y)];
    assert Iter(Sigma(pi), 1, z) == Sigma(pi)[Iter(Sigma(pi), 0, z)];
    assert OnCycle(pi, z, pi[Twin(y)]);
    CycleMinConstant(pi, z, pi[Twin(y)]);
    CycleMinTwin(pi, pi[y]);
  }

  lemma TwinParities(pi: seq<nat>, f: seq<nat>, y: nat)
    requires IsPairedPerm(pi) && IsBits(f) && 2 * |f| == |pi| && y < |pi|
    requires forall j :: 0 <= j < |f| ==> f[j] == CycleMin(pi, 2 * j) % 2
    ensures Twin(y) < |pi| && SwapMap(f)[pi[Twin(y)]] % 2 == 1 - SwapMap(f)[pi[y]] % 2
  {
    TwinImage(pi, y);
    FirstSwapParity(pi, f, pi[y]);
    FirstSwapParity(pi, f, pi[Twin(y)]);
    TwinFacts(CycleMin(pi, pi[y]));
  }

  /** The middle permutation F.pi.L keeps the low bit of every index. */
  lemma MiddleKeepsLowBit(pi: seq<nat>, f: seq<nat>, l: seq<nat>, mid: seq<nat>)
    requires IsStep(pi, f, l, mid)
    ensures KeepsLowBit(mid)
  {
    forall y | 0 <= y < |mid| ensures mid[y] % 2 == y % 2 {
      MiddleKeepsLowBitAt(pi, f, l, mid, y);
    }
  }

  lemma MiddleKeepsLowBitAt(pi: seq<nat>, f: seq<nat>, l: seq<nat>, mid: seq<nat>, y: nat)
    requires IsStep(pi, f, l, mid) && y < |mid|
    ensures mid[y] % 2 == y % 2
  {
    hide *;
    var k := y / 2;
    SplitParity(y, k);
    EvenTwin(k);
    StepAt(pi, f, l, mid, y, k);
  }

  /** The middle map at `y`, in terms of the parity of the pair's first image. */
  lemma StepAt(pi: seq<nat>, f: seq<nat>, l: seq<nat>, mid: seq<nat>, y: nat, k: nat)
    requires IsStep(pi, f, l, mid) && y < |mid| && k == y / 2
    ensures 2 * k < |pi| && Twin(2 * k) < |pi| && 0 <= pi[2 * k] < |SwapMap(f)| && 0 <= pi[Twin(2 * k)] < |SwapMap(f)| && Twin(y) < |pi| && 0 <= pi[y] < |SwapMap(f)| && 0 <= pi[Twin(y)] < |SwapMap(f)|
    ensures SwapMap(f)[pi[Twin(2 * k)]] % 2 == 1 - SwapMap(f)[pi[2 * k]] % 2
    ensures mid[y] == if SwapMap(f)[pi[2 * k]] % 2 == 1 then SwapMap(f)[pi[Twin(y)]] else SwapMap(f)[pi[y]]
  {
    hide CycleMin;
    var F, L := SwapMap(f), SwapMap(l);
    TwinParities(pi, f, 2 * k);
    TwinFacts(y);
    assert l[k] == F[pi[2 * k]] % 2;
    assert L[y] == if l[k] == 1 then Twin(y) else y;
    assert mid[y] == F[pi[L[y]]];
  }

  lemma SplitParity(y: nat, k: nat)
    requires k == y / 2
    ensures (y == 2 * k && y % 2 == 0) || (y == 2 * k + 1 && y % 2 == 1)
  {
  }

  lemma EvenTwin(k: nat)
    ensures Twin(2 * k) == 2 * k + 1 && Twin(2 * k + 1) == 2 * k
  {
  }

  lemma MiddleIsPerm(pi: seq<nat>, f: seq<nat>, l: seq<nat>, mid: seq<nat>)
    requires IsStep(pi, f, l, mid)
    ensures IsPerm(mid) && |mid| == |pi|
  {
    SwapMapInvolution(f);
    SwapMapInvolution(l);
    InverseIsPerm(SwapMap(f), SwapMap(f));
    InverseIsPerm(SwapMap(l), SwapMap(l));
    ComposePerm(SwapMap(f), pi);
    ComposePerm(Gather(SwapMap(f), pi), SwapMap(l));
  }

  /** `pi` is recovered by swapping, routing through the middle, and swapping again. */
  lemma StepRecovers(pi: seq<nat>, f: seq<nat>, l: seq<nat>, mid: seq<nat>)
    requires IsStep(pi, f, l, mid) && InRange(mid, |pi|) && |mid| == |pi|
    ensures Gather(Gather(SwapMap(f), mid), SwapMap(l)) == pi
  {
    var F, L := SwapMap(f), SwapMap(l);
    SwapMapInvolution(f);
    SwapMapInvolution(l);
    hide SwapMap;
    forall y | 0 <= y < |pi| ensures F[mid[L[y]]] == pi[y] {
      assert mid[L[y]] == F[pi[L[L[y]]]];
    }
  }

  /** Each half of a permutation that keeps the low bit is a permutation. */
  lemma HalfIsPerm(t: seq<nat>, e: nat)
    requires IsPerm(t) && |t| % 2 == 0 && KeepsLowBit(t) && e < 2
    ensures IsPerm(Half(t, e))
    ensures forall j :: 0 <= j < |t| / 2 ==> t[2 * j + e] == 2 * Half(t, e)[j] + e
  {
    var h := Half(t, e);
    forall j | 0 <= j < |h| ensures t[2 * j + e] == 2 * h[j] + e { assert t[2 * j + e] % 2 == (2 * j + e) % 2 == e; }
    forall i, j | 0 <= i < j < |h| ensures h[i] != h[j] { assert t[2 * i + e] != t[2 * j + e]; }
  }

  // ----- the two half networks -----

  /** `cur[0::2] = s0; cur[1::2] = s1` */
  function WeaveColumn(s0: Column, s1: Column): (r: Column)
    requires |s0| == |s1|
    ensures |r| == 2 * |s0|
    ensures forall t :: 0 <= t < |s0| ==> r[2 * t] == s0[t] && r[2 * t + 1] == s1[t]
  {
    seq(2 * |s0|, t requires 0 <= t < 2 * |s0| => if t % 2 == 0 then s0[t / 2] else s1[t / 2])
  }

  ghost predicate IsWoven(m: nat, cols: seq<Column>, half: seq<Column>, e: nat)
    requires m >= 2 && IsNetwork(m, cols) && IsNetwork(m - 1, half) && e < 2
  {
    forall i, t :: 0 <= i < |half| && 0 <= t < Pow2(m - 2) ==> cols[i + 1][2 * t + e] == half[i][t]
  }

  lemma WovenSource(m: nat, b: nat, col: Column, half: Column, e: nat, y: nat)
    requires m >= 2 && b + 1 < m && e < 2 && y < Pow2(m - 1)
    requires |col| == Pow2(m - 1) && |half| == Pow2(m - 2)
    requires forall t :: 0 <= t < |half| ==> col[2 * t + e] == half[t]
    ensures DelBit(b + 1, 2 * y + e) < |col| && DelBit(b, y) < |half|
    ensures ColumnSource(b, half, y) < Pow2(m - 1)
    ensures ColumnSource(b + 1, col, 2 * y + e) == 2 * ColumnSource(b, half, y) + e
  {
    hide FlipBit; hide DelBit; hide Pow2;
    FlipBitPair(b + 1, y, e);
    FlipBitFacts(b, y, m - 1);
    Pow2Step(m - 1);
    assert col[2 * DelBit(b, y) + e] == half[DelBit(b, y)];
  }

  /** The inner columns act on the even (and on the odd) positions as the half network does. */
  lemma {:induction false} InnerRoute(m: nat, cols: seq<Column>, half: seq<Column>, e: nat, i: nat, y: nat)
    requires m >= 2 && IsNetwork(m, cols) && IsNetwork(m - 1, half) && e < 2
    requires IsWoven(m, cols, half, e)
    requires i <= |half| && y < Pow2(m - 1)
    ensures Route(m, cols, 1, i + 1)[2 * y + e] == 2 * Route(m - 1, half, 0, i)[y] + e
    decreases i
  {
    hide Route;
    hide IsWoven;
    if i == 0 {
      RouteNone(m, cols, 1);
      RouteNone(m - 1, half, 0);
    } else {
      var b := ColumnBit(m - 1, i - 1);
      InnerBit(m, i);
      WovenAt(m, cols, half, e, i - 1);
      WovenSource(m, b, cols[i], half[i - 1], e, y);
      InnerRoute(m, cols, half, e, i - 1, ColumnSource(b, half[i - 1], y));
      RouteLast(m, cols, 1, i + 1, 2 * y + e);
      RouteLast(m - 1, half, 0, i, y);
    }
  }

  lemma RouteNone(m: nat, cols: seq<Column>, lo: nat)
    requires IsNetwork(m, cols) && lo <= |cols|
    ensures Route(m, cols, lo, lo) == Identity(Pow2(m))
  {
  }

  lemma WovenAt(m: nat, cols: seq<Column>, half: seq<Column>, e: nat, i: nat)
    requires m >= 2 && IsNetwork(m, cols) && IsNetwork(m - 1, half) && e < 2 && i < |half|
    requires IsWoven(m, cols, half, e)
    ensures |cols[i + 1]| == Pow2(m - 1) && |half[i]| == Pow2(m - 2)
    ensures forall t :: 0 <= t < |half[i]| ==> cols[i + 1][2 * t + e] == half[i][t]
  {
  }

  lemma InnerBit(m: nat, i: nat)
    requires m >= 2 && 1 <= i < 2 * m - 2
    ensures ColumnBit(m, i) == ColumnBit(m - 1, i - 1) + 1 < m
  {
  }

  lemma RouteLast(m: nat, cols: seq<Column>, lo: nat, hi: nat, x: nat)
    requires IsNetwork(m, cols) && lo < hi <= |cols| && x < Pow2(m)
    ensures ColumnBit(m, hi - 1) < m && DelBit(ColumnBit(m, hi - 1), x) < Pow2(m - 1)
    ensures var src := ColumnSource(ColumnBit(m, hi - 1), cols[hi - 1], x);
            src < Pow2(m) && Route(m, cols, lo, hi)[x] == Route(m, cols, lo, hi - 1)[src]
  {
    FlipBitFacts(ColumnBit(m, hi - 1), x, m);
  }

  lemma InnerRouteIs(m: nat, cols: seq<Column>, cols0: seq<Column>, cols1: seq<Column>, mid: seq<nat>)
    requires m >= 2 && IsNetwork(m, cols) && IsNetwork(m - 1, cols0) && IsNetwork(m - 1, cols1)
    requires IsWoven(m, cols, cols0, 0) && IsWoven(m, cols, cols1, 1)
    requires |mid| == Pow2(m) && IsPerm(mid) && KeepsLowBit(mid)
    requires Route(m - 1, cols0, 0, |cols0|) == Half(mid, 0)
    requires Route(m - 1, cols1, 0, |cols1|) == Half(mid, 1)
    ensures Route(m, cols, 1, |cols| - 1) == mid
  {
    assert |cols| >= 2 && Pow2(m) == 2 * Pow2(m - 1);
    hide Route; hide IsWoven; hide IsNetwork; hide IsPerm; hide KeepsLowBit; hide Half; hide Pow2;
    forall x | 0 <= x < Pow2(m) ensures Route(m, cols, 1, |cols| - 1)[x] == mid[x] {
      var y := x / 2;
      SplitParity(x, y);
      if x == 2 * y {
        InnerRouteAt(m, cols, cols0, mid, 0, y);
      } else {
        InnerRouteAt(m, cols, cols1, mid, 1, y);
      }
    }
  }

  lemma InnerRouteAt(m: nat, cols: seq<Column>, half: seq<Column>, mid: seq<nat>, e: nat, y: nat)
    requires m >= 2 && IsNetwork(m, cols) && IsNetwork(m - 1, half) && e < 2
    requires IsWoven(m, cols, half, e) && |mid| == Pow2(m) && IsPerm(mid) && KeepsLowBit(mid)
    requires Route(m - 1, half, 0, |half|) == Half(mid, e) && y < Pow2(m - 1)
    ensures Route(m, cols, 1, |cols| - 1)[2 * y + e] == mid[2 * y + e]
  {
    hide Route;
    InnerRoute(m, cols, half, e, |half|, y);
    HalfIsPerm(mid, e);
  }

  lemma NetworkRoute(m: nat, cols: seq<Column>, f: seq<nat>, l: seq<nat>, mid: seq<nat>)
    requires m >= 2 && IsNetwork(m, cols) && cols[0] == f && cols[|cols| - 1] == l
    requires IsBits(f) && IsBits(l)
    requires Route(m, cols, 1, |cols| - 1) == mid && InRange(mid, 2 * |f|)
    ensures Route(m, cols, 0, |cols|) == Gather(Gather(SwapMap(f), mid), SwapMap(l))
  {
    var k := |cols| - 1;
    SwapMapIsColumn(m, f);
    SwapMapIsColumn(m, l);
    assert ColumnBit(m, 0) == 0 && ColumnBit(m, k) == 0;
    FirstRoute(m, cols);
    RouteSplit(m, cols, 0, 1, k);
    hide ColumnMap;
    assert Route(m, cols, 0, k) == Gather(SwapMap(f), mid);
    assert Route(m, cols, 0, k + 1) == Gather(Route(m, cols, 0, k), ColumnMap(m, 0, l));
  }

  lemma FirstRoute(m: nat, cols: seq<Column>)
    requires IsNetwork(m, cols)
    ensures Route(m, cols, 0, 1) == ColumnMap(m, 0, cols[0])
  {
    assert ColumnBit(m, 0) == 0;
    assert Route(m, cols, 0, 0) == Identity(Pow2(m));
  }

  lemma BaseRoute(pi: seq<nat>)
    requires |pi| == 2 && IsPerm(pi)
    ensures IsNetwork(1, [[pi[0]]]) && Route(1, [[pi[0]]], 0, 1) == pi
  {
    Pow2Small();
    FirstRoute(1, [[pi[0]]]);
    assert pi[0] != pi[1];
    SwapMapIsColumn(1, [pi[0]]);
    assert SwapMap([pi[0]]) == pi;
  }

  /** Interleave the control bits of the two half networks, column by column. */
  method Weave(m: nat, cols0: seq<Column>, cols1: seq<Column>) returns (z: seq<Column>)
    requires m >= 2 && IsNetwork(m - 1, cols0) && IsNetwork(m - 1, cols1)
    ensures |z| == |cols0|
    ensures forall i :: 0 <= i < |z| ==> z[i] == WeaveColumn(cols0[i], cols1[i])
  {
    z := [];
    for i := 0 to |cols0|
      invariant |z| == i
      invariant forall k :: 0 <= k < i ==> z[k] == WeaveColumn(cols0[k], cols1[k])
    {
      z := z + [WeaveColumn(cols0[i], cols1[i])];
    }
  }

  lemma Assembled(m: nat, cols0: seq<Column>, cols1: seq<Column>, z: seq<Column>, f: Column, l: Column)
    requires m >= 2 && IsNetwork(m - 1, cols0) && IsNetwork(m - 1, cols1)
    requires |z| == |cols0| && forall i :: 0 <= i < |z| ==> z[i] == WeaveColumn(cols0[i], cols1[i])
    requires |f| == |l| == Pow2(m - 1)
    ensures IsNetwork(m, [f] + z + [l])
    ensures IsWoven(m, [f] + z + [l], cols0, 0) && IsWoven(m, [f] + z + [l], cols1, 1)
  {
    hide Pow2;
    var cols := [f] + z + [l];
    Pow2Double(m - 2);
    SizesAssembled(m, cols0, cols1, z, cols, f, l);
    hide WeaveColumn;
    hide IsNetwork;
    WovenHalves(m, cols, cols0, cols1);
  }

  lemma SizesAssembled(m: nat, cols0: seq<Column>, cols1: seq<Column>, z: seq<Column>, cols: seq<Column>,
                       f: Column, l: Column)
    requires m >= 2 && IsNetwork(m - 1, cols0) && IsNetwork(m - 1, cols1)
    requires |z| == |cols0| && forall i :: 0 <= i < |z| ==> z[i] == WeaveColumn(cols0[i], cols1[i])
    requires |f| == |l| == Pow2(m - 1) == 2 * Pow2(m - 2) && cols == [f] + z + [l]
    ensures IsNetwork(m, cols)
    ensures forall i :: 0 <= i < |cols0| ==> cols[i + 1] == WeaveColumn(cols0[i], cols1[i])
  {
    hide Pow2;
    hide WeaveColumn;
    forall i: nat | i < |z| ensures cols[i + 1] == z[i] && |z[i]| == Pow2(m - 1) {
      AssembledAt(z, f, l, i);
    }
    forall i: nat | i < |cols| ensures |cols[i]| == Pow2(m - 1) {
      assert i == 0 || i == |z| + 1 || cols[(i - 1) + 1] == z[i - 1];
    }
  }

  lemma AssembledAt(z: seq<Column>, f: Column, l: Column, i: nat)
    requires i < |z|
    ensures ([f] + z + [l])[i + 1] == z[i]
  {
  }

  lemma WovenHalves(m: nat, cols: seq<Column>, cols0: seq<Column>, cols1: seq<Column>)
    requires m >= 2 && IsNetwork(m, cols) && IsNetwork(m - 1, cols0) && IsNetwork(m - 1, cols1)
    requires forall i :: 0 <= i < |cols0| ==> cols[i + 1] == WeaveColumn(cols0[i], cols1[i])
    ensures IsWoven(m, cols, cols0, 0) && IsWoven(m, cols, cols1, 1)
  {
    hide Pow2;
    forall i, t | 0 <= i < |cols0| && 0 <= t < Pow2(m - 2)
      ensures |cols[i + 1]| == 2 * Pow2(m - 2)
      ensures cols[i + 1][2 * t] == cols0[i][t] && cols[i + 1][2 * t + 1] == cols1[i][t]
    {
      var w := WeaveColumn(cols0[i], cols1[i]);
      assert w[2 * t] == cols0[i][t] && w[2 * t + 1] == cols1[i][t];
    }
  }

  lemma MakesStep(pi: seq<nat>, c: seq<nat>, piinv: seq<nat>)
    requires IsPairedPerm(pi) && |c| == |pi|
    requires forall x :: 0 <= x < |pi| ==> c[x] == CycleMin(pi, x)
    requires piinv == ComposeInv(Identity(|pi|), pi)
    ensures |EvenParities(c)| * 2 == |pi| && |piinv| == |pi|
    ensures var F := SwapMap(EvenParities(c));
            var Fpi := ComposeInv(F, piinv);
            var l := EvenParities(Fpi);
            2 * |l| == |pi| && IsStep(pi, EvenParities(c), l, ComposeInv(Fpi, SwapMap(l)))
  {
    hide CycleMin; hide ComposeInv; hide SwapMap; hide EvenParities; hide InverseOf; hide Twin;
    var f := EvenParities(c);
    var F := SwapMap(f);
    InverseByComposition(pi, piinv);
    ComposeInvView(F, piinv, pi);
    var Fpi := ComposeInv(F, piinv);
    var l := EvenParities(Fpi);
    SwapMapInvolution(l);
    ComposeInvView(Fpi, SwapMap(l), SwapMap(l));
  }

  lemma InverseByComposition(pi: seq<nat>, piinv: seq<nat>)
    requires IsPerm(pi) && piinv == ComposeInv(Identity(|pi|), pi)
    ensures |piinv| == |pi| && AreInverse(piinv, pi)
  {
    hide ComposeInv; hide InverseOf;
    var inv := InverseOf(pi);
    ComposeInvView(Identity(|pi|), pi, inv);
    assert Gather(Identity(|pi|), inv) == inv;
  }

  /** Compile `pi` into columns of control bits that route it. */
  method Compile(m: nat, pi: seq<nat>) returns (cols: seq<Column>)
    requires m >= 1 && |pi| == Pow2(m) && IsPerm(pi)
    ensures IsNetwork(m, cols)
    ensures Route(m, cols, 0, |cols|) == pi
    decreases m
  {
    hide *;
    if m == 1 {
      BaseSize(pi);
      BaseRoute(pi);
      return [[pi[0]]];
    }
    Pow2Double(m - 1);
    PairedPerm(m, pi);
    var piinv := ComposeInv(Identity(|pi|), pi);
    var c := CycleMinima(m, pi);
    MakesStep(pi, c, piinv);
    var f := EvenParities(c);
    var F := SwapMap(f);
    var Fpi := ComposeInv(F, piinv);
    var l := EvenParities(Fpi);
    var L := SwapMap(l);
    var M := ComposeInv(Fpi, L);
    MiddleKeepsLowBit(pi, f, l, M);
    MiddleIsPerm(pi, f, l, M);
    HalfIsPerm(M, 0);
    HalfIsPerm(M, 1);
    var cols0 := Compile(m - 1, Half(M, 0));
    var cols1 := Compile(m - 1, Half(M, 1));
    var z := Weave(m, cols0, cols1);
    cols := [f] + z + [l];
    Assembled(m, cols0, cols1, z, f, l);
    InnerRouteIs(m, cols, cols0, cols1, M);
    PermRange(M);
    NetworkRoute(m, cols, f, l, M);
    StepRecovers(pi, f, l, M);
  }

  lemma BaseSize(pi: seq<nat>)
    requires |pi| == Pow2(1)
    ensures |pi| == 2
  {
  }

  lemma PairedPerm(m: nat, pi: seq<nat>)
    requires m >= 2 && |pi| == Pow2(m) && IsPerm(pi)
    ensures IsPairedPerm(pi)
  {
    Halve(Pow2(m), Pow2(m - 1), 0);
  }

  lemma PermRange(p: seq<nat>)
    requires IsPerm(p)
    ensures InRange(p, |p|)
  {
  }

  /** The main result: the compiled network applied to any list `x` yields `x[pi[0]], x[pi[1]], ...`. */
  method CompileAndApply<T>(m: nat, pi: seq<nat>, x: seq<T>) returns (y: seq<T>)
    requires m >= 1 && |pi| == Pow2(m) == |x| && IsPerm(pi)
    ensures |y| == |x| && forall i :: 0 <= i < |pi| ==> y[i] == x[pi[i]]
  {
    var cols := Compile(m, pi);
    y := ApplyNetwork(m, cols, x);
  }
}
