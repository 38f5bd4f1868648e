/** `BDBFunc` and `BDBFuncMI` of compiler/src/universalization/routing.py: an arbitrary function on
    2^m positions as a permutation, a forward duplication and a second permutation. */
module Bdb {
  import opened Bits
  import opened Permutations
  import opened Rows
  import opened BenesMulti
  import opened Shapes
  import ForwardDup
  import BenesPerm

  /** How often `a` occurs in `f`. */
  function Count(f: seq<nat>, a: nat): nat {
    if f == [] then 0 else Count(f[..|f| - 1], a) + if f[|f| - 1] == a then 1 else 0
  }

  lemma CountSnoc(f: seq<nat>, i: nat, a: nat)
    requires i < |f|
    ensures Count(f[..i + 1], a) == Count(f[..i], a) + if f[i] == a then 1 else 0
  {
    assert f[..i + 1][..i] == f[..i];
  }

  lemma {:induction false} CountMonotone(f: seq<nat>, i: nat, j: nat, a: nat)
    requires i <= j <= |f|
    ensures Count(f[..i], a) <= Count(f[..j], a)
  {
    if i < j {
      CountMonotone(f, i, j - 1, a);
      CountSnoc(f, j - 1, a);
    }
  }

  lemma CountAt(f: seq<nat>, i: nat)
    requires i < |f|
    ensures Count(f[..i], f[i]) < Count(f, f[i])
  {
    CountSnoc(f, i, f[i]);
    CountMonotone(f, i + 1, |f|, f[i]);
    assert f[..|f|] == f;
  }

  /** Sum of the occurrence counts of `keys[lo..]`. */
  ghost function Total(f: seq<nat>, keys: seq<nat>, lo: nat): nat
    requires lo <= |keys|
    decreases |keys| - lo
  {
    if lo == |keys| then 0 else Count(f, keys[lo]) + Total(f, keys, lo + 1)
  }

  lemma {:induction false} TotalSnoc(f: seq<nat>, keys: seq<nat>, a: nat, lo: nat)
    requires lo <= |keys|
    ensures Total(f, keys + [a], lo) == Total(f, keys, lo) + Count(f, a)
    decreases |keys| - lo
  {
    if lo < |keys| {
      TotalSnoc(f, keys, a, lo + 1);
    }
  }

  /** One more element of `f` raises the total by one when it is among the (distinct) keys. */
  lemma {:induction false} TotalStep(f: seq<nat>, i: nat, keys: seq<nat>, lo: nat)
    requires i < |f| && lo <= |keys| && Injective(keys)
    ensures Total(f[..i + 1], keys, lo) == Total(f[..i], keys, lo) + if f[i] in keys[lo..] then 1 else 0
    decreases |keys| - lo
  {
    if lo < |keys| {
      TotalStep(f, i, keys, lo + 1);
      CountSnoc(f, i, keys[lo]);
      assert keys[lo..] == [keys[lo]] + keys[lo + 1..];
      assert f[i] == keys[lo] ==> f[i] !in keys[lo + 1..];
    }
  }

  lemma {:induction false} TotalAtLeast(f: seq<nat>, keys: seq<nat>, lo: nat)
    requires lo <= |keys| && forall k :: lo <= k < |keys| ==> Count(f, keys[k]) >= 1
    ensures Total(f, keys, lo) >= |keys| - lo
    decreases |keys| - lo
  {
    if lo < |keys| { TotalAtLeast(f, keys, lo + 1); }
  }

  /** The keys of the insertion-ordered dict `pos`: the values of `f` in order of first occurrence. */
  ghost predicate AreKeys(f: seq<nat>, keys: seq<nat>) {
    && Injective(keys)
    && (forall k :: 0 <= k < |keys| ==> keys[k] in f && Count(f, keys[k]) >= 1)
    && (forall i :: 0 <= i < |f| ==> f[i] in keys)
    && Total(f, keys, 0) == |f|
  }

  lemma {:induction false} CountZero(f: seq<nat>, a: nat)
    requires a !in f
    ensures Count(f, a) == 0
  {
    if f != [] { CountZero(f[..|f| - 1], a); }
  }

  lemma KeysStep(f: seq<nat>, i: nat, keys: seq<nat>)
    requires i < |f| && AreKeys(f[..i], keys)
    ensures AreKeys(f[..i + 1], if f[i] in keys then keys else keys + [f[i]])
  {
    var keys', g, h := if f[i] in keys then keys else keys + [f[i]], f[..i], f[..i + 1];
    assert h == g + [f[i]];
    KeysTotal(f, i, keys);
    forall k | 0 <= k < |keys'| ensures keys'[k] in h && Count(h, keys'[k]) >= 1 {
      CountSnoc(f, i, keys'[k]);
    }
    hide Count;
    hide Total;
    forall j | 0 <= j < |h| ensures h[j] in keys' {
      assert j < i ==> h[j] == g[j] && g[j] in keys;
    }
  }

  lemma KeysTotal(f: seq<nat>, i: nat, keys: seq<nat>)
    requires i < |f| && AreKeys(f[..i], keys)
    ensures Total(f[..i + 1], if f[i] in keys then keys else keys + [f[i]], 0) == i + 1
  {
    TotalStep(f, i, keys, 0);
    assert keys[0..] == keys;
    if f[i] !in keys {
      NewKey(f, i, keys);
      CountSnoc(f, i, f[i]);
      TotalSnoc(f[..i + 1], keys, f[i], 0);
    }
  }

  /** `pos` lists the positions of every key; only their number is used later. */
  ghost predicate ArePositions(f: seq<nat>, keys: seq<nat>, pos: map<nat, seq<nat>>) {
    && (forall a :: a in pos <==> a in keys)
    && (forall a :: a in pos ==> |pos[a]| == Count(f, a))
  }

  lemma PositionsStep(f: seq<nat>, i: nat, keys: seq<nat>, pos: map<nat, seq<nat>>)
    requires i < |f| && AreKeys(f[..i], keys) && ArePositions(f[..i], keys, pos)
    ensures f[i] in pos <==> f[i] in keys
    ensures f[i] in keys ==> ArePositions(f[..i + 1], keys, pos[f[i] := pos[f[i]] + [i]])
    ensures f[i] !in keys ==> ArePositions(f[..i + 1], keys + [f[i]], pos[f[i] := [i]])
  {
    if f[i] !in keys { NewKey(f, i, keys); }
    hide AreKeys;
    forall b ensures Count(f[..i + 1], b) == Count(f[..i], b) + if f[i] == b then 1 else 0 {
      CountSnoc(f, i, b);
    }
    hide Count;
  }

  /** The loop that fills `pos`: keys in insertion order, and for each key its positions. */
  method CollectPositions(f: seq<nat>) returns (keys: seq<nat>, pos: map<nat, seq<nat>>)
    ensures AreKeys(f, keys)
    ensures forall k :: 0 <= k < |keys| ==> keys[k] in pos && |pos[keys[k]]| == Count(f, keys[k])
  {
    hide AreKeys;
    hide ArePositions;
    hide Count;
    keys, pos := [], map[];
    NoKeys(f);
    for i := 0 to |f|
      invariant AreKeys(f[..i], keys) && ArePositions(f[..i], keys, pos)
    {
      KeysStep(f, i, keys);
      PositionsStep(f, i, keys, pos);
      if f[i] in pos {
        pos := pos[f[i] := pos[f[i]] + [i]];
      } else {
        keys := keys + [f[i]];
        pos := pos[f[i] := [i]];
      }
    }
    assert f[..|f|] == f;
    PositionsOfKeys(f, keys, pos);
  }

  lemma NoKeys(f: seq<nat>)
    ensures AreKeys(f[..0], []) && ArePositions(f[..0], [], map[])
  {
  }

  lemma PositionsOfKeys(f: seq<nat>, keys: seq<nat>, pos: map<nat, seq<nat>>)
    requires ArePositions(f, keys, pos)
    ensures forall k :: 0 <= k < |keys| ==> keys[k] in pos && |pos[keys[k]]| == Count(f, keys[k])
  {
  }

  lemma NewKey(f: seq<nat>, i: nat, keys: seq<nat>)
    requires i < |f| && AreKeys(f[..i], keys) && f[i] !in keys
    ensures Count(f[..i], f[i]) == 0
  {
    forall j | 0 <= j < i ensures f[..i][j] != f[i] { assert f[..i][j] in keys; }
    CountZero(f[..i], f[i]);
  }

  // ----- the block structure -----

  /** `pif` consists of one block per value `a` of `f`, as long as `a` occurs, starting at `start[a]`. */
  ghost predicate AreBlocks(f: seq<nat>, start: map<nat, nat>, pif: seq<nat>) {
    && (forall t :: 0 <= t < |pif| ==> pif[t] in start && start[pif[t]] <= t < start[pif[t]] + Count(f, pif[t]))
    && (forall a :: a in start ==> start[a] + Count(f, a) <= |pif|)
    && (forall a, t :: a in start && start[a] <= t < start[a] + Count(f, a) ==> pif[t] == a)
  }

  lemma BlocksSnoc(f: seq<nat>, start: map<nat, nat>, pif: seq<nat>, a: nat, c: nat)
    requires AreBlocks(f, start, pif) && a !in start && c == Count(f, a)
    ensures AreBlocks(f, start[a := |pif|], pif + seq(c, _ => a))
  {
    var pif', start' := pif + seq(c, _ => a), start[a := |pif|];
    forall t | 0 <= t < |pif'|
      ensures pif'[t] in start' && start'[pif'[t]] <= t < start'[pif'[t]] + Count(f, pif'[t])
    {
      if t < |pif| { assert pif'[t] == pif[t]; } else { assert pif'[t] == a; }
    }
    forall b, t | b in start' && start'[b] <= t < start'[b] + Count(f, b) ensures pif'[t] == b {
      if b != a { assert pif[t] == b; }
    }
  }

  /** `pi` lists distinct positions below `n`, disjoint from what is still missing and from the keys to come. */
  ghost predicate IsPartialInput(n: nat, pi: seq<nat>, missing: set<nat>, keys: seq<nat>, k: nat) {
    && k <= |keys| && InRange(pi, n) && Injective(pi)
    && (forall a :: a in missing ==> a < n && a !in pi && a !in keys)
    && (forall j :: k <= j < |keys| ==> keys[j] !in pi)
    && InRange(keys, n) && Injective(keys)
  }

  lemma InjectiveSnoc(pi: seq<nat>, a: nat)
    requires Injective(pi) && a !in pi
    ensures Injective(pi + [a])
  {
  }

  lemma AddKey(n: nat, pi: seq<nat>, missing: set<nat>, keys: seq<nat>, k: nat)
    requires IsPartialInput(n, pi, missing, keys, k) && k < |keys|
    ensures IsPartialInput(n, pi + [keys[k]], missing, keys, k + 1)
  {
    InjectiveSnoc(pi, keys[k]);
  }

  lemma AddMissing(n: nat, pi: seq<nat>, missing: set<nat>, keys: seq<nat>, k: nat, a: nat)
    requires IsPartialInput(n, pi, missing, keys, k) && a in missing
    ensures IsPartialInput(n, pi + [a], missing - {a}, keys, k)
  {
    InjectiveSnoc(pi, a);
  }

  lemma MissingSize(f: seq<nat>, keys: seq<nat>, missing: set<nat>)
    requires AreKeys(f, keys) && InRange(f, |f|)
    requires missing == Range(|f|) - (set i | 0 <= i < |f| :: f[i])
    ensures |missing| + |keys| == |f|
    ensures IsPartialInput(|f|, [], missing, keys, 0)
  {
    var s := set i | 0 <= i < |f| :: f[i];
    var t := set i | 0 <= i < |keys| :: keys[i];
    forall a | a in s ensures a in t {
      var i :| 0 <= i < |f| && f[i] == a;
      assert f[i] in keys;
    }
    forall a | a in t ensures a in s {
      var i :| 0 <= i < |keys| && keys[i] == a;
      assert keys[i] in f;
    }
    assert s == t;
    InjectiveCard(keys);
    assert s <= Range(|f|);
    assert Range(|f|) == missing + s;
    forall k | 0 <= k < |keys| ensures keys[k] < |f| { assert keys[k] in f; }
    forall k | 0 <= k < |keys| ensures keys[k] !in missing { assert keys[k] in t; }
  }

  /** The padding of one block: arbitrary positions that no value uses. */
  method FillMissing(n: nat, start: seq<nat>, missing0: set<nat>, keys: seq<nat>, k: nat, count: nat) returns (pi: seq<nat>, missing: set<nat>)
    requires k <= |keys| && IsPartialInput(n, start, missing0, keys, k) && count <= |missing0|
    ensures IsPartialInput(n, pi, missing, keys, k) && |missing| == |missing0| - count
    ensures |pi| == |start| + count && pi[..|start|] == start
  {
    hide *;
    pi, missing := start, missing0;
    for i := 0 to count
      invariant |pi| == |start| + i && pi[..|start|] == start
      invariant IsPartialInput(n, pi, missing, keys, k) && |missing| == |missing0| - i
    {
      var b :| b in missing;
      AddMissing(n, pi, missing, keys, k, b);
      missing := missing - {b};
      pi := pi + [b];
    }
  }

  /** Each value has its own copy at the start of its block. */
  ghost predicate StartsAt(pi: seq<nat>, start: map<nat, nat>) {
    forall a :: a in start ==> start[a] < |pi| && pi[start[a]] == a
  }

  lemma StartsNext(pi: seq<nat>, start: map<nat, nat>, a: nat)
    requires StartsAt(pi, start)
    ensures StartsAt(pi + [a], start[a := |pi|])
  {
  }

  lemma StartsStay(pi: seq<nat>, longer: seq<nat>, start: map<nat, nat>)
    requires StartsAt(pi, start) && |pi| <= |longer| && longer[..|pi|] == pi
    ensures StartsAt(longer, start)
  {
    forall a | a in start ensures longer[start[a]] == a { assert longer[..|pi|][start[a]] == a; }
  }

  lemma StartsAre(pi: seq<nat>, start: map<nat, nat>)
    requires StartsAt(pi, start)
    ensures forall a :: a in start ==> start[a] < |pi| && pi[start[a]] == a
  {
  }

  lemma StartsNone(pi: seq<nat>)
    ensures StartsAt(pi, map[])
  {
  }

  /** The first part of `_compile`: one block per value, padded with positions no value uses. */
  method BuildInput(f: seq<nat>) returns (pi: seq<nat>, pif: seq<nat>, start: map<nat, nat>)
    requires InRange(f, |f|)
    ensures |pi| == |f| == |pif| && IsPerm(pi)
    ensures AreBlocks(f, start, pif) && forall i :: 0 <= i < |f| ==> f[i] in start
    ensures forall a :: a in start ==> start[a] < |pi| && pi[start[a]] == a
  {
    hide *;
    var keys, pos := CollectPositions(f);
    var missing := Range(|f|) - (set i | 0 <= i < |f| :: f[i]);
    MissingSize(f, keys, missing);
    KeyFacts(f, keys);
    pi, pif, start := [], [], map[];
    NoBlocks(f);
    StartsNone(pi);
    for k := 0 to |keys|
      invariant |pi| == |pif| && |pi| + Total(f, keys, k) == |f|
      invariant IsPartialInput(|f|, pi, missing, keys, k)
      invariant |missing| + (|keys| - k) == Total(f, keys, k)
      invariant AreBlocks(f, start, pif)
      invariant (forall a :: a in start <==> a in keys[..k]) && StartsAt(pi, start)
    {
      var a := keys[k];
      var c := |pos[a]|;
      TotalUnfold(f, keys, k);
      FreshKey(f, keys, k);
      BlocksSnoc(f, start, pif, a, c);
      AddKey(|f|, pi, missing, keys, k);
      StartsNext(pi, start, a);
      start := start[a := |pi|];
      pi := pi + [a];
      pif := pif + seq(c, _ => a);
      TotalAtLeast(f, keys, k + 1);
      ghost var before := pi;
      pi, missing := FillMissing(|f|, pi, missing, keys, k + 1, c - 1);
      StartsStay(before, pi, start);
      assert keys[..k + 1] == keys[..k] + [a];
    }
    StartsAre(pi, start);
    assert keys[..|keys|] == keys;
    FullInput(f, keys, pi, missing);
  }

  lemma NoBlocks(f: seq<nat>)
    ensures AreBlocks(f, map[], [])
  {
  }

  lemma KeyFacts(f: seq<nat>, keys: seq<nat>)
    requires AreKeys(f, keys)
    ensures Total(f, keys, 0) == |f|
    ensures forall k :: 0 <= k < |keys| ==> Count(f, keys[k]) >= 1
    ensures forall i :: 0 <= i < |f| ==> f[i] in keys
  {
  }

  lemma TotalUnfold(f: seq<nat>, keys: seq<nat>, k: nat)
    requires k < |keys|
    ensures Total(f, keys, k) == Count(f, keys[k]) + Total(f, keys, k + 1)
  {
  }

  lemma FreshKey(f: seq<nat>, keys: seq<nat>, k: nat)
    requires AreKeys(f, keys) && k < |keys|
    ensures keys[k] !in keys[..k]
  {
  }

  lemma FullInput(f: seq<nat>, keys: seq<nat>, pi: seq<nat>, missing: set<nat>)
    requires |pi| + Total(f, keys, |keys|) == |f| && IsPartialInput(|f|, pi, missing, keys, |keys|)
    ensures |pi| == |f| && IsPerm(pi)
  {
  }

  // ----- the output permutation -----

  /** The slot of the block of `f[i]` that the i-th entry takes. */
  ghost predicate AreSlots(f: seq<nat>, start: map<nat, nat>, pi2: seq<nat>, done: nat) {
    && |pi2| == done <= |f|
    && forall i :: 0 <= i < done ==> f[i] in start && pi2[i] == start[f[i]] + Count(f[..i], f[i])
  }

  /** `pi2.append(start[a]); start[a] += 1` */
  method BuildOutput(f: seq<nat>, start0: map<nat, nat>) returns (pi2: seq<nat>)
    requires forall i :: 0 <= i < |f| ==> f[i] in start0
    ensures AreSlots(f, start0, pi2, |f|)
  {
    pi2 := [];
    var start := start0;
    for i := 0 to |f|
      invariant AreSlots(f, start0, pi2, i)
      invariant start.Keys == start0.Keys
      invariant forall a :: a in start ==> start[a] == start0[a] + Count(f[..i], a)
    {
      var a := f[i];
      pi2 := pi2 + [start[a]];
      start := start[a := start[a] + 1];
      forall b | b in start ensures start[b] == start0[b] + Count(f[..i + 1], b) {
        CountSnoc(f, i, b);
      }
    }
  }

  lemma SlotAt(f: seq<nat>, start: map<nat, nat>, pif: seq<nat>, pi2: seq<nat>, i: nat)
    requires AreBlocks(f, start, pif) && AreSlots(f, start, pi2, |f|) && i < |f|
    ensures pi2[i] < |pif| && pif[pi2[i]] == f[i]
  {
    CountAt(f, i);
  }

  /** `pi2` is a permutation and `pif` composed with `pi2` is `f`. */
  lemma OutputIsPerm(f: seq<nat>, start: map<nat, nat>, pif: seq<nat>, pi2: seq<nat>)
    requires AreBlocks(f, start, pif) && AreSlots(f, start, pi2, |f|) && |pif| == |f|
    ensures IsPerm(pi2) && Gather(pif, pi2) == f
  {
    forall i | 0 <= i < |f| ensures pi2[i] < |pif| && pif[pi2[i]] == f[i] {
      SlotAt(f, start, pif, pi2, i);
    }
    forall i, j | 0 <= i < j < |f| ensures pi2[i] != pi2[j] {
      if f[i] == f[j] {
        CountSnoc(f, i, f[i]);
        CountMonotone(f, i + 1, j, f[i]);
      }
    }
  }

  /** In a block structure, runs of equal values are the blocks. */
  lemma {:induction false} RunStartIsBlockStart(f: seq<nat>, start: map<nat, nat>, pif: seq<nat>, t: nat)
    requires AreBlocks(f, start, pif) && t < |pif|
    ensures pif[t] in start && ForwardDup.RunStart(pif, t) == start[pif[t]]
  {
    var a := pif[t];
    if t > start[a] {
      assert pif[t - 1] == a;
      RunStartIsBlockStart(f, start, pif, t - 1);
    } else if t > 0 {
      assert pif[t - 1] != a;
    }
  }

  lemma ThreeStages(f: seq<nat>, start: map<nat, nat>, pi: seq<nat>, pif: seq<nat>, pi2: seq<nat>)
    requires |pi| == |f| == |pif| && IsPerm(pi) && AreBlocks(f, start, pif) && AreSlots(f, start, pi2, |f|)
    requires forall a :: a in start ==> start[a] < |pi| && pi[start[a]] == a
    ensures IsPerm(pi2) && |pi2| == |f|
    ensures Gather(Gather(pi, ForwardDup.RunStarts(pif)), pi2) == f
  {
    OutputIsPerm(f, start, pif, pi2);
    var d := ForwardDup.RunStarts(pif);
    forall t: nat | t < |f| ensures pi[d[t]] == pif[t] {
      RunStartIsBlockStart(f, start, pif, t);
    }
    assert Gather(pi, d) == pif;
  }

  /** `BDBFunc._compile`: permutation, duplication pattern, permutation. */
  method Decompose(f: seq<nat>) returns (pi: seq<nat>, pif: seq<nat>, pi2: seq<nat>)
    requires InRange(f, |f|)
    ensures |pi| == |pif| == |pi2| == |f| && IsPerm(pi) && IsPerm(pi2)
    ensures Gather(pif, pi2) == f
    ensures Gather(Gather(pi, ForwardDup.RunStarts(pif)), pi2) == f
  {
    hide *;
    var start;
    pi, pif, start := BuildInput(f);
    pi2 := BuildOutput(f, start);
    OutputIsPerm(f, start, pif, pi2);
    ThreeStages(f, start, pi, pif, pi2);
  }

  /** `BDBFunc.apply`: the three stages run on any list give `x[f[0]], x[f[1]], ...`. */
  method Apply<T>(m: nat, f: seq<nat>, x: seq<T>) returns (y: seq<T>)
    requires m >= 1 && |f| == Pow2(m) == |x| && InRange(f, |f|)
    ensures y == Gather(x, f)
  {
    var pi, pif, pi2 := Decompose(f);
    var a := BenesPerm.CompileAndApply(m, pi, x);
    var b := ForwardDup.DuplicateForward(pif, a);
    y := BenesPerm.CompileAndApply(m, pi2, b);
    assert a == Gather(x, pi);
    var d := ForwardDup.RunStarts(pif);
    GatherAssoc(x, pi, d);
    GatherAssoc(x, Gather(pi, d), pi2);
    assert y == Gather(b, pi2);
  }

  /** `BDBFuncMI` and its canonical program, in windows of at most 2^le positions. Its public part is the same for every
      function: only the shuffles inside the windows differ. */
  method CompileMI(m: nat, le: nat, f: seq<nat>) returns (rows: seq<Row>)
    requires le >= 1 && |f| == Pow2(m) && InRange(f, |f|)
    ensures Fits(|f|, rows) && ProgramMap(|f|, rows) == f
    ensures WindowsBelow(rows, Pow2(le)) && ShapeOf(rows) == BdbShape(m, le)
  {
    hide *;
    var pi, pif, pi2 := Decompose(f);
    var a := BenesMulti.Compile(m, le, pi);
    var b := ForwardDup.CompileMI(m, le, pif);
    var c := BenesMulti.Compile(m, le, pi2);
    rows := a + b + c;
    ProgramAppend(|f|, a, b);
    ProgramAppend(|f|, a + b, c);
    WindowsAppend(a, b, Pow2(le));
    WindowsAppend(a + b, c, Pow2(le));
    ShapeAppend(a, b);
    ShapeAppend(a + b, c);
    BdbShapeIs(m, le);
  }

  lemma BdbShapeIs(m: nat, le: nat)
    requires le >= 1
    ensures BdbShape(m, le) == BenesShape(m, le) + DupShape(m, le) + BenesShape(m, le)
  {
  }

  lemma WindowsAppend(a: seq<Row>, b: seq<Row>, size: nat)
    requires WindowsBelow(a, size) && WindowsBelow(b, size)
    ensures WindowsBelow(a + b, size)
  {
  }

  /** `optimize(BDBFuncMI(f, le).canonical())`: the program that is inserted between two layers. */
  method CompileOptimized(m: nat, le: nat, f: seq<nat>) returns (program: seq<Row>)
    requires le >= 1 && |f| == Pow2(m) && InRange(f, |f|)
    ensures Fits(|f|, program) && ProgramMap(|f|, program) == f
    ensures WindowsBelow(program, Pow2(le)) && ShapeOf(program) == DropIdle(BdbShape(m, le))
  {
    hide *;
    var rows := CompileMI(m, le, f);
    program := Optimize(rows, |f|);
    StillBelow(rows, program, Pow2(le));
    ShapeDropped(rows);
  }

  lemma StillBelow(rows: seq<Row>, r: seq<Row>, size: nat)
    requires WindowsBelow(rows, size) && forall k :: 0 <= k < |r| ==> r[k] in rows
    ensures WindowsBelow(r, size)
  {
    forall k | 0 <= k < |r| ensures RowBelow(r[k], size) { var i :| 0 <= i < |rows| && rows[i] == r[k]; }
  }

  /** The routing compiler end to end: running the optimized canonical program on a list applies `f`. */
  method RouteAndRun<T>(m: nat, le: nat, f: seq<nat>, x: seq<T>) returns (y: seq<T>)
    requires le >= 1 && |f| == Pow2(m) == |x| && InRange(f, |f|)
    ensures |y| == |x| && forall i :: 0 <= i < |f| ==> y[i] == x[f[i]]
  {
    var program := CompileOptimized(m, le, f);
    y := CanonicalRun(program, x);
  }
}
