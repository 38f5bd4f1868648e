/** The SPARKLE permutation and its inverse, in place on an array of 32-bit words:
    runtime/sparkle/schwaemm/sparkle.c. */
module Sparkle {

  import opened Words

  function Ell(x: Word): Word {
    Rot(Xor(x, Shl(x, 16)), 16)
  }

  const RCON: seq<Word> := [0xB7E15162, 0xBF715880, 0x38B4DA56, 0x324E7738, 0xBB1185EB, 0x4F7C7B57, 0xCFBFA1C8, 0xC2B3293D]

  function RoundConstant(i: nat): Word {
    RCON[i % 8]
  }

  /** The step counter as a 32-bit word. */
  function Counter(i: nat): Word {
    i % 0x1_0000_0000
  }

  ghost predicate IsBranchCount(b: nat) {
    b == 2 || b == 4 || b == 6 || b == 8
  }

  // ----- the ARX box -----

  datatype Pair = Pair(x: Word, y: Word)

  function Round(p: Pair, r: nat, s: nat, rc: Word): Pair
    requires r <= 32 && s <= 32
  {
    var x := Add(p.x, Rot(p.y, r));
    var y := Xor(p.y, Rot(x, s));
    Pair(Xor(x, rc), y)
  }

  function UnRound(p: Pair, r: nat, s: nat, rc: Word): Pair
    requires r <= 32 && s <= 32
  {
    var x := Xor(p.x, rc);
    var y := Xor(p.y, Rot(x, s));
    Pair(Sub(x, Rot(y, r)), y)
  }

  lemma RoundInverts(p: Pair, r: nat, s: nat, rc: Word)
    requires r <= 32 && s <= 32
    ensures UnRound(Round(p, r, s, rc), r, s, rc) == p
    ensures Round(UnRound(p, r, s, rc), r, s, rc) == p
  {
    hide Rot; hide Xor; hide Add; hide Sub;
    var x := Add(p.x, Rot(p.y, r));
    XorCancels(x, rc);
    XorCancels(p.y, Rot(x, s));
    AddCancels(p.x, Rot(p.y, r));
    var u := Xor(p.x, rc);
    var y := Xor(p.y, Rot(u, s));
    XorCancels(p.x, rc);
    XorCancels(p.y, Rot(u, s));
    AddCancels(u, Rot(y, r));
  }

  function ArxBox(p: Pair, rc: Word): Pair {
    Round(Round(Round(Round(p, 31, 24, rc), 17, 17, rc), 0, 31, rc), 24, 16, rc)
  }

  function ArxBoxInv(p: Pair, rc: Word): Pair {
    UnRound(UnRound(UnRound(UnRound(p, 24, 16, rc), 0, 31, rc), 17, 17, rc), 31, 24, rc)
  }

  lemma ArxBoxInverts(p: Pair, rc: Word)
    ensures ArxBoxInv(ArxBox(p, rc), rc) == p && ArxBox(ArxBoxInv(p, rc), rc) == p
  {
    hide Round;
    hide UnRound;
    var a := Round(p, 31, 24, rc);
    var b := Round(a, 17, 17, rc);
    var c := Round(b, 0, 31, rc);
    RoundInverts(p, 31, 24, rc); RoundInverts(a, 17, 17, rc); RoundInverts(b, 0, 31, rc); RoundInverts(c, 24, 16, rc);
    var d := UnRound(p, 24, 16, rc);
    var e := UnRound(d, 0, 31, rc);
    var f := UnRound(e, 17, 17, rc);
    RoundInverts(p, 24, 16, rc); RoundInverts(d, 0, 31, rc); RoundInverts(e, 17, 17, rc); RoundInverts(f, 31, 24, rc);
  }

  // ----- layers as functions of the state -----

  function AddConstants(s: seq<Word>, i: nat): (r: seq<Word>)
    requires |s| >= 4
    ensures |r| == |s|
  {
    s[1 := Xor(s[1], RoundConstant(i))][3 := Xor(s[3], Counter(i))]
  }

  function PairAt(s: seq<Word>, k: nat): Pair
    requires 2 * k + 1 < |s|
  {
    Pair(s[2 * k], s[2 * k + 1])
  }

  function Box(p: Pair, k: nat, inverse: bool): Pair {
    if inverse then ArxBoxInv(p, RoundConstant(k)) else ArxBox(p, RoundConstant(k))
  }

  /** The ARX layer or its inverse: every pair goes through its box. */
  function MapPairs(s: seq<Word>, b: nat, inverse: bool): (r: seq<Word>)
    requires |s| == 2 * b <= 16
    ensures |r| == |s|
  {
    seq(2 * b, i requires 0 <= i < 2 * b =>
      var q := Box(PairAt(s, i / 2), i / 2, inverse); if i % 2 == 0 then q.x else q.y)
  }

  lemma MapPairsAt(s: seq<Word>, b: nat, inverse: bool, k: nat)
    requires |s| == 2 * b <= 16 && k < b
    ensures PairAt(MapPairs(s, b, inverse), k) == Box(PairAt(s, k), k, inverse)
  {
    hide Box;
    assert (2 * k) / 2 == k && (2 * k + 1) / 2 == k;
  }

  /** Exclusive or of the words of one parity in the left half. */
  function Fold(s: seq<Word>, e: nat, n: nat): Word
    requires 2 * n <= |s| && e < 2
  {
    if n == 0 then 0 else Xor(Fold(s, e, n - 1), s[2 * (n - 1) + e])
  }

  /** `ELL` of the folded words of one parity among the first `b` words. */
  function Tap(s: seq<Word>, e: nat, b: nat): Word
    requires b <= |s| && b % 2 == 0 && e < 2
  {
    Ell(Fold(s, e, b / 2))
  }

  /** Exclusive or of three words. */
  function Mix(a: Word, b: Word, t: Word): Word {
    Xor(Xor(a, b), t)
  }

  function UnMix(a: Word, b: Word, t: Word): Word {
    Xor(a, Xor(t, b))
  }

  /** The mixed word that the linear layer writes at position `i` of the left half. */
  function LeftWord(s: seq<Word>, b: nat, tx: Word, ty: Word, i: nat): Word
    requires |s| == 2 * b && b >= 2 && i < b
  {
    var j := if i + 2 < b then i + 2 else i + 2 - b;
    Mix(s[j + b], s[j], if i % 2 == 0 then ty else tx)
  }

  /** The word that the inverse layer writes at position `j` of the right half. */
  function RightWord(s: seq<Word>, b: nat, tx: Word, ty: Word, j: nat): Word
    requires |s| == 2 * b && b >= 2 && j < b
  {
    var i := if j >= 2 then j - 2 else j - 2 + b;
    UnMix(s[i], s[j + b], if j % 2 == 0 then ty else tx)
  }

  /** The Feistel-like linear layer: the left half moves right, the mixed right half moves left by one branch. */
  function Linear(s: seq<Word>, b: nat): (r: seq<Word>)
    requires |s| == 2 * b && b % 2 == 0 && b >= 2
    ensures |r| == |s|
  {
    var tx, ty := Tap(s, 0, b), Tap(s, 1, b);
    seq(2 * b, i requires 0 <= i < 2 * b => if i >= b then s[i - b] else LeftWord(s, b, tx, ty, i))
  }

  function LinearInv(s: seq<Word>, b: nat): (r: seq<Word>)
    requires |s| == 2 * b && b % 2 == 0 && b >= 2
    ensures |r| == |s|
  {
    var tx, ty := Tap(s[b..], 0, b), Tap(s[b..], 1, b);
    s[b..] + seq(b, j requires 0 <= j < b => RightWord(s, b, tx, ty, j))
  }

  lemma {:induction false} FoldLocal(s: seq<Word>, t: seq<Word>, e: nat, n: nat)
    requires 2 * n <= |s| && 2 * n <= |t| && e < 2 && forall i :: 0 <= i < 2 * n ==> s[i] == t[i]
    ensures Fold(s, e, n) == Fold(t, e, n)
  {
    if n > 0 { FoldLocal(s, t, e, n - 1); }
  }

  lemma TapLocal(s: seq<Word>, t: seq<Word>, e: nat, b: nat)
    requires b <= |s| && b <= |t| && b % 2 == 0 && e < 2 && forall i :: 0 <= i < b ==> s[i] == t[i]
    ensures Tap(s, e, b) == Tap(t, e, b)
  {
    hide Ell;
    FoldLocal(s, t, e, b / 2);
  }

  lemma MixCancels(r: Word, l: Word, t: Word)
    ensures UnMix(Mix(r, l, t), l, t) == r
    ensures Mix(UnMix(r, l, t), l, t) == r
  {
    hide Xor;
    XorLaws(Xor(r, l), t, Xor(t, l));
    XorLaws(t, t, l);
    XorLaws(l, t, l);
    XorLaws(l, 0, l);
    XorCancels(r, l);
    XorLaws(r, Xor(t, l), l);
    XorLaws(t, l, l);
    XorLaws(t, 0, t);
    XorCancels(r, t);
  }

  lemma LinearInverts(s: seq<Word>, b: nat)
    requires |s| == 2 * b && b % 2 == 0 && b >= 2
    ensures LinearInv(Linear(s, b), b) == s
  {
    hide *;
    var t := Linear(s, b);
    LinearIs(s, b);
    assert t[b..] == s[..b];
    TapLocal(s, s[..b], 0, b);
    TapLocal(s, s[..b], 1, b);
    LinearInvIs(t, b);
    var tx, ty := Tap(s, 0, b), Tap(s, 1, b);
    var u := LinearInv(t, b);
    forall i | 0 <= i < 2 * b ensures u[i] == s[i] {
      if i >= b { RightRestored(s, t, b, tx, ty, i - b); }
    }
  }

  lemma RightRestored(s: seq<Word>, t: seq<Word>, b: nat, tx: Word, ty: Word, j: nat)
    requires |s| == |t| == 2 * b && b % 2 == 0 && b >= 2 && j < b && forall i :: 0 <= i < 2 * b ==> t[i] == if i >= b then s[i - b] else LeftWord(s, b, tx, ty, i)
    ensures RightWord(t, b, tx, ty, j) == s[j + b]
  {
    hide Mix; hide UnMix;
    var k := if j >= 2 then j - 2 else j - 2 + b;
    assert k % 2 == j % 2;
    assert t[k] == LeftWord(s, b, tx, ty, k) && t[j + b] == s[j];
    MixCancels(s[j + b], s[j], if j % 2 == 0 then ty else tx);
  }

  lemma LinearInvInverts(s: seq<Word>, b: nat)
    requires |s| == 2 * b && b % 2 == 0 && b >= 2
    ensures Linear(LinearInv(s, b), b) == s
  {
    hide *;
    var t := LinearInv(s, b);
    var tx, ty := Tap(s[b..], 0, b), Tap(s[b..], 1, b);
    LinearInvIs(s, b);
    assert t[..b] == s[b..];
    TapLocal(t, s[b..], 0, b);
    TapLocal(t, s[b..], 1, b);
    LinearIs(t, b);
    var u := Linear(t, b);
    forall i | 0 <= i < 2 * b ensures u[i] == s[i] {
      if i < b { LeftRestored(s, t, b, tx, ty, i); }
    }
  }

  lemma LinearIs(s: seq<Word>, b: nat)
    requires |s| == 2 * b && b % 2 == 0 && b >= 2
    ensures |Linear(s, b)| == |s| && forall i :: 0 <= i < 2 * b ==> Linear(s, b)[i] == if i >= b then s[i - b] else LeftWord(s, b, Tap(s, 0, b), Tap(s, 1, b), i)
  {
    hide LeftWord; hide Tap;
  }

  lemma LinearInvIs(s: seq<Word>, b: nat)
    requires |s| == 2 * b && b % 2 == 0 && b >= 2
    ensures |LinearInv(s, b)| == |s| && (forall i :: 0 <= i < b ==> LinearInv(s, b)[i] == s[i + b])
    ensures forall i :: b <= i < 2 * b ==> LinearInv(s, b)[i] == RightWord(s, b, Tap(s[b..], 0, b), Tap(s[b..], 1, b), i - b)
  {
    hide RightWord; hide Tap;
  }

  lemma LeftRestored(s: seq<Word>, t: seq<Word>, b: nat, tx: Word, ty: Word, i: nat)
    requires |s| == |t| == 2 * b && b % 2 == 0 && b >= 2 && i < b && (forall j :: 0 <= j < b ==> t[j] == s[j + b]) && forall j :: b <= j < 2 * b ==> t[j] == RightWord(s, b, tx, ty, j - b)
    ensures LeftWord(t, b, tx, ty, i) == s[i]
  {
    hide Mix; hide UnMix;
    var j := if i + 2 < b then i + 2 else i + 2 - b;
    assert t[j] == s[j + b] && j % 2 == i % 2;
    assert t[j + b] == RightWord(s, b, tx, ty, j);
    MixCancels(s[i], s[j + b], if j % 2 == 0 then ty else tx);
  }

  lemma MapPairsInverts(s: seq<Word>, b: nat)
    requires |s| == 2 * b <= 16
    ensures MapPairs(MapPairs(s, b, false), b, true) == s
    ensures MapPairs(MapPairs(s, b, true), b, false) == s
  {
    hide MapPairs; hide Box;
    var t, u := MapPairs(s, b, false), MapPairs(s, b, true);
    var t', u' := MapPairs(t, b, true), MapPairs(u, b, false);
    forall k: nat | k < b ensures PairAt(t', k) == PairAt(s, k) && PairAt(u', k) == PairAt(s, k) {
      BoxInverts(PairAt(s, k), k);
      MapPairsAt(s, b, false, k);
      MapPairsAt(s, b, true, k);
      MapPairsAt(t, b, true, k);
      MapPairsAt(u, b, false, k);
    }
    PairsDecide(t', s, b);
    PairsDecide(u', s, b);
  }

  lemma BoxInverts(p: Pair, k: nat)
    ensures Box(Box(p, k, false), k, true) == p && Box(Box(p, k, true), k, false) == p
  {
    hide ArxBox; hide ArxBoxInv; hide RoundConstant;
    ArxBoxInverts(p, RoundConstant(k));
  }

  lemma PairsDecide(s: seq<Word>, t: seq<Word>, b: nat)
    requires |s| == |t| == 2 * b && forall k :: 0 <= k < b ==> PairAt(s, k) == PairAt(t, k)
    ensures s == t
  {
    forall i | 0 <= i < |s| ensures s[i] == t[i] {
      var k := i / 2;
      assert PairAt(s, k) == PairAt(t, k);
      assert i == 2 * k || i == 2 * k + 1;
    }
  }

  lemma AddConstantsInverts(s: seq<Word>, i: nat)
    requires |s| >= 4
    ensures AddConstants(AddConstants(s, i), i) == s
  {
    hide Xor; hide RoundConstant; hide Counter;
    XorCancels(s[1], RoundConstant(i));
    XorCancels(s[3], Counter(i));
  }

  // ----- the permutation -----

  function Step(s: seq<Word>, b: nat, i: nat): (r: seq<Word>)
    requires |s| == 2 * b <= 16 && b % 2 == 0 && b >= 2
    ensures |r| == |s|
  {
    Linear(MapPairs(AddConstants(s, i), b, false), b)
  }

  function StepInv(s: seq<Word>, b: nat, i: nat): (r: seq<Word>)
    requires |s| == 2 * b <= 16 && b % 2 == 0 && b >= 2
    ensures |r| == |s|
  {
    AddConstants(MapPairs(LinearInv(s, b), b, true), i)
  }

  function Permute(s: seq<Word>, b: nat, n: nat): (r: seq<Word>)
    requires |s| == 2 * b <= 16 && b % 2 == 0 && b >= 2
    ensures |r| == |s|
  {
    if n == 0 then s else Step(Permute(s, b, n - 1), b, n - 1)
  }

  function PermuteInv(s: seq<Word>, b: nat, n: nat): (r: seq<Word>)
    requires |s| == 2 * b <= 16 && b % 2 == 0 && b >= 2
    ensures |r| == |s|
    decreases n
  {
    if n == 0 then s else PermuteInv(StepInv(s, b, n - 1), b, n - 1)
  }

  lemma StepInverts(s: seq<Word>, b: nat, i: nat)
    requires |s| == 2 * b <= 16 && b % 2 == 0 && b >= 2
    ensures StepInv(Step(s, b, i), b, i) == s && Step(StepInv(s, b, i), b, i) == s
  {
    hide Linear; hide LinearInv; hide MapPairs; hide AddConstants;
    var t := AddConstants(s, i);
    LinearInverts(MapPairs(t, b, false), b);
    MapPairsInverts(t, b);
    AddConstantsInverts(s, i);
    var u := MapPairs(LinearInv(s, b), b, true);
    AddConstantsInverts(u, i);
    MapPairsInverts(LinearInv(s, b), b);
    LinearInvInverts(s, b);
  }

  /** The inverse permutation undoes the permutation, for every state, branch count and number of steps. */
  lemma {:induction false} PermuteInverts(s: seq<Word>, b: nat, n: nat)
    requires |s| == 2 * b <= 16 && b % 2 == 0 && b >= 2
    ensures PermuteInv(Permute(s, b, n), b, n) == s
    decreases n
  {
    hide Step; hide StepInv;
    if n > 0 {
      StepInverts(Permute(s, b, n - 1), b, n - 1);
      PermuteInverts(s, b, n - 1);
    }
  }

  /** And conversely. */
  lemma {:induction false} PermuteInvInverts(s: seq<Word>, b: nat, n: nat)
    requires |s| == 2 * b <= 16 && b % 2 == 0 && b >= 2
    ensures Permute(PermuteInv(s, b, n), b, n) == s
    decreases n
  {
    hide Step; hide StepInv;
    if n > 0 {
      PermuteInvInverts(StepInv(s, b, n - 1), b, n - 1);
      StepInverts(s, b, n - 1);
    }
  }
}
