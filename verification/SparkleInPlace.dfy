/** `schwaemm_sparkle` and `schwaemm_sparkle_inv` of runtime/sparkle/schwaemm/sparkle.c as they run:
    in place on the state array, with the shifting loops of the linear layer. */
module SparkleInPlace {
  import opened Words
  import opened Sparkle

  lemma RoundParts(p: Pair, r: nat, s: nat, rc: Word)
    requires r <= 32 && s <= 32
    ensures var x := Add(p.x, Rot(p.y, r));
            Round(p, r, s, rc) == Pair(Xor(x, rc), Xor(p.y, Rot(x, s)))
    ensures var x := Xor(p.x, rc);
            UnRound(p, r, s, rc) == Pair(Sub(x, Rot(Xor(p.y, Rot(x, s)), r)), Xor(p.y, Rot(x, s)))
  {
  }

  lemma BoxParts(p: Pair, rc: Word)
    ensures ArxBox(p, rc) == Round(Round(Round(Round(p, 31, 24, rc), 17, 17, rc), 0, 31, rc), 24, 16, rc)
    ensures ArxBoxInv(p, rc) == UnRound(UnRound(UnRound(UnRound(p, 24, 16, rc), 0, 31, rc), 17, 17, rc), 31, 24, rc)
  {
  }

  /** One body of the ARXBOX layer. */
  method ArxBoxInPlace(state: array<Word>, j: nat, rc: Word)
    requires j + 1 < state.Length
    modifies state
    ensures Pair(state[j], state[j + 1]) == ArxBox(old(Pair(state[j], state[j + 1])), rc)
    ensures forall i :: 0 <= i < state.Length && i != j && i != j + 1 ==> state[i] == old(state[i])
  {
    hide *;
    ghost var p := Pair(state[j], state[j + 1]);
    BoxParts(p, rc);
    RoundParts(p, 31, 24, rc);
    state[j] := Add(state[j], Rot(state[j + 1], 31));
    state[j + 1] := Xor(state[j + 1], Rot(state[j], 24));
    state[j] := Xor(state[j], rc);
    p := Round(p, 31, 24, rc);
    assert Pair(state[j], state[j + 1]) == p;
    RoundParts(p, 17, 17, rc);
    state[j] := Add(state[j], Rot(state[j + 1], 17));
    state[j + 1] := Xor(state[j + 1], Rot(state[j], 17));
    state[j] := Xor(state[j], rc);
    p := Round(p, 17, 17, rc);
    assert Pair(state[j], state[j + 1]) == p;
    RoundParts(p, 0, 31, rc);
    RotNone(p.y);
    state[j] := Add(state[j], state[j + 1]);
    state[j + 1] := Xor(state[j + 1], Rot(state[j], 31));
    state[j] := Xor(state[j], rc);
    p := Round(p, 0, 31, rc);
    assert Pair(state[j], state[j + 1]) == p;
    RoundParts(p, 24, 16, rc);
    state[j] := Add(state[j], Rot(state[j + 1], 24));
    state[j + 1] := Xor(state[j + 1], Rot(state[j], 16));
    state[j] := Xor(state[j], rc);
  }

  /** One body of the inverse ARXBOX layer. */
  method ArxBoxInvInPlace(state: array<Word>, j: nat, rc: Word)
    requires j + 1 < state.Length
    modifies state
    ensures Pair(state[j], state[j + 1]) == ArxBoxInv(old(Pair(state[j], state[j + 1])), rc)
    ensures forall i :: 0 <= i < state.Length && i != j && i != j + 1 ==> state[i] == old(state[i])
  {
    hide *;
    ghost var p := Pair(state[j], state[j + 1]);
    BoxParts(p, rc);
    RoundParts(p, 24, 16, rc);
    state[j] := Xor(state[j], rc);
    state[j + 1] := Xor(state[j + 1], Rot(state[j], 16));
    state[j] := Sub(state[j], Rot(state[j + 1], 24));
    p := UnRound(p, 24, 16, rc);
    assert Pair(state[j], state[j + 1]) == p;
    RoundParts(p, 0, 31, rc);
    state[j] := Xor(state[j], rc);
    state[j + 1] := Xor(state[j + 1], Rot(state[j], 31));
    RotNone(state[j + 1]);
    state[j] := Sub(state[j], state[j + 1]);
    p := UnRound(p, 0, 31, rc);
    assert Pair(state[j], state[j + 1]) == p;
    RoundParts(p, 17, 17, rc);
    state[j] := Xor(state[j], rc);
    state[j + 1] := Xor(state[j + 1], Rot(state[j], 17));
    state[j] := Sub(state[j], Rot(state[j + 1], 17));
    p := UnRound(p, 17, 17, rc);
    assert Pair(state[j], state[j + 1]) == p;
    RoundParts(p, 31, 24, rc);
    state[j] := Xor(state[j], rc);
    state[j + 1] := Xor(state[j + 1], Rot(state[j], 24));
    state[j] := Sub(state[j], Rot(state[j + 1], 31));
  }

  lemma BoxIs(p: Pair, k: nat)
    requires k < 8
    ensures Box(p, k, false) == ArxBox(p, RCON[k]) && Box(p, k, true) == ArxBoxInv(p, RCON[k])
  {
    hide ArxBox; hide ArxBoxInv;
  }

  lemma MapPairsFrom(s: seq<Word>, t: seq<Word>, b: nat, inverse: bool)
    requires |s| == |t| == 2 * b <= 16
    requires forall k :: 0 <= k < b ==> PairAt(t, k) == Box(PairAt(s, k), k, inverse)
    ensures t == MapPairs(s, b, inverse)
  {
    hide Box; hide MapPairs;
    forall k: nat | k < b ensures PairAt(t, k) == PairAt(MapPairs(s, b, inverse), k) { MapPairsAt(s, b, inverse, k); }
    PairsDecide(t, MapPairs(s, b, inverse), b);
  }

  /** The ARXBOX layer loop (and, with `inverse`, the loop of the inverse). */
  method ArxLayer(state: array<Word>, brans: nat, inverse: bool)
    requires state.Length == 2 * brans <= 16
    modifies state
    ensures state[..] == MapPairs(old(state[..]), brans, inverse)
  {
    hide Box; hide MapPairs; hide ArxBox; hide ArxBoxInv;
    ghost var s := state[..];
    var j := 0;
    while j < 2 * brans
      invariant j % 2 == 0 && 0 <= j <= 2 * brans
      invariant forall i :: j <= i < 2 * brans ==> state[i] == s[i]
      invariant forall k :: 0 <= k < j / 2 ==> PairAt(state[..], k) == Box(PairAt(s, k), k, inverse)
    {
      ghost var k := j / 2;
      ghost var before := state[..];
      BoxIs(PairAt(s, k), k);
      var rc := RCON[j / 2];
      if inverse {
        ArxBoxInvInPlace(state, j, rc);
      } else {
        ArxBoxInPlace(state, j, rc);
      }
      forall m: nat | m < k + 1 ensures PairAt(state[..], m) == Box(PairAt(s, m), m, inverse) {
        if m < k { assert PairAt(state[..], m) == PairAt(before, m); }
      }
      j := j + 2;
    }
    MapPairsFrom(s, state[..], brans, inverse);
  }

  // ----- the linear layer -----

  lemma FoldStep(s: seq<Word>, e: nat, n: nat)
    requires 2 * n + 2 <= |s| && e < 2
    ensures Fold(s, e, n + 1) == Xor(Fold(s, e, n), s[2 * n + e])
    ensures Fold(s, e, 0) == 0
  {
  }

  lemma FoldFirst(s: seq<Word>, e: nat)
    requires 2 <= |s| && e < 2
    ensures Fold(s, e, 1) == s[e]
  {
    FoldStep(s, e, 0);
    XorLaws(0, s[e], 0);
    XorLaws(s[e], 0, 0);
  }

  /** The first loop: fold the left half. */
  method FoldLeft(state: array<Word>, brans: nat) returns (tmpx: Word, tmpy: Word)
    requires state.Length == 2 * brans && brans % 2 == 0 && brans >= 2
    ensures tmpx == Tap(state[..], 0, brans) && tmpy == Tap(state[..], 1, brans)
  {
    hide Xor; hide Ell; hide Fold;
    ghost var s := state[..];
    tmpx, tmpy := state[0], state[1];
    FoldFirst(s, 0);
    FoldFirst(s, 1);
    var j := 2;
    while j < brans
      invariant 2 <= j <= brans && j % 2 == 0
      invariant tmpx == Fold(s, 0, j / 2) && tmpy == Fold(s, 1, j / 2)
    {
      FoldStep(s, 0, j / 2);
      FoldStep(s, 1, j / 2);
      tmpx := Xor(tmpx, state[j]);
      tmpy := Xor(tmpy, state[j + 1]);
      j := j + 2;
    }
    tmpx := Ell(tmpx);
    tmpy := Ell(tmpy);
  }

  lemma LeftWordIs(s: seq<Word>, b: nat, tx: Word, ty: Word, i: nat)
    requires |s| == 2 * b && b >= 2 && b % 2 == 0 && i < b
    ensures i + 2 < b ==> LeftWord(s, b, tx, ty, i) == Mix(s[i + 2 + b], s[i + 2], if i % 2 == 0 then ty else tx)
    ensures i + 2 >= b ==> LeftWord(s, b, tx, ty, i) == Mix(s[i + 2], s[i + 2 - b], if i % 2 == 0 then ty else tx)
  {
  }

  ghost predicate Shifted(s: seq<Word>, t: seq<Word>, b: nat, tx: Word, ty: Word, j: nat)
    requires |s| == |t| == 2 * b && b >= 2 && 2 <= j <= b
  {
    && (forall i :: 0 <= i < j - 2 ==> t[i] == LeftWord(s, b, tx, ty, i))
    && (forall i :: j - 2 <= i < b ==> t[i] == s[i])
    && t[b] == s[b] && t[b + 1] == s[b + 1]
    && (forall i :: b + 2 <= i < b + j ==> t[i] == s[i - b])
    && (forall i :: b + j <= i < 2 * b ==> t[i] == s[i])
  }

  lemma ShiftOne(s: seq<Word>, t: seq<Word>, u: seq<Word>, b: nat, tx: Word, ty: Word, j: nat)
    requires |s| == |t| == |u| == 2 * b && b >= 2 && b % 2 == 0 && 2 <= j < b && j % 2 == 0
    requires Shifted(s, t, b, tx, ty, j)
    requires u == t[j - 2 := Mix(t[j + b], t[j], ty)][j + b := t[j]][j - 1 := Mix(t[j + b + 1], t[j + 1], tx)][j + b + 1 := t[j + 1]]
    ensures Shifted(s, u, b, tx, ty, j + 2)
  {
    hide Mix; hide LeftWord;
    LeftWordIs(s, b, tx, ty, j - 2);
    LeftWordIs(s, b, tx, ty, j - 1);
  }

  lemma ShiftLast(s: seq<Word>, t: seq<Word>, u: seq<Word>, b: nat, tx: Word, ty: Word)
    requires |s| == |t| == |u| == 2 * b && b >= 2 && b % 2 == 0 && tx == Tap(s, 0, b) && ty == Tap(s, 1, b)
    requires Shifted(s, t, b, tx, ty, b)
    requires u == t[b - 2 := Mix(t[b], s[0], ty)][b := s[0]][b - 1 := Mix(t[b + 1], s[1], tx)][b + 1 := s[1]]
    ensures u == Linear(s, b)
  {
    hide Mix; hide LeftWord; hide Tap;
    LeftWordIs(s, b, tx, ty, b - 2);
    LeftWordIs(s, b, tx, ty, b - 1);
    var r := Linear(s, b);
    forall i | 0 <= i < 2 * b ensures u[i] == r[i] { }
  }

  /** The linear layer: fold the left half, then shift both halves word by word. */
  method LinearLayer(state: array<Word>, brans: nat)
    requires state.Length == 2 * brans && brans % 2 == 0 && brans >= 2
    modifies state
    ensures state[..] == Linear(old(state[..]), brans)
  {
    hide *;
    ghost var s := state[..];
    var x0, y0 := state[0], state[1];
    var tmpx, tmpy := FoldLeft(state, brans);
    StartShift(s, brans, tmpx, tmpy);
    var j := 2;
    while j < brans
      invariant 2 <= j <= brans && j % 2 == 0
      invariant Shifted(s, state[..], brans, tmpx, tmpy, j)
    {
      ghost var t := state[..];
      MixIs(t[j + brans], t[j], tmpy);
      MixIs(t[j + brans + 1], t[j + 1], tmpx);
      state[j - 2] := Xor(Xor(state[j + brans], state[j]), tmpy);
      state[j + brans] := state[j];
      state[j - 1] := Xor(Xor(state[j + brans + 1], state[j + 1]), tmpx);
      state[j + brans + 1] := state[j + 1];
      ShiftOne(s, t, state[..], brans, tmpx, tmpy, j);
      j := j + 2;
    }
    ghost var t := state[..];
    MixIs(t[brans], x0, tmpy);
    MixIs(t[brans + 1], y0, tmpx);
    state[brans - 2] := Xor(Xor(state[brans], x0), tmpy);
    state[brans] := x0;
    state[brans - 1] := Xor(Xor(state[brans + 1], y0), tmpx);
    state[brans + 1] := y0;
    ShiftLast(s, t, state[..], brans, tmpx, tmpy);
  }

  lemma MixIs(a: Word, b: Word, t: Word)
    ensures Mix(a, b, t) == Xor(Xor(a, b), t) && UnMix(a, b, t) == Xor(a, Xor(t, b))
  {
  }

  lemma StartShift(s: seq<Word>, b: nat, tx: Word, ty: Word)
    requires |s| == 2 * b && b >= 2
    ensures Shifted(s, s, b, tx, ty, 2)
  {
  }

  // ----- the inverse of the linear layer -----

  /** After the words `j..` have been moved: they are the old right half, and what was two to their left moved right. */
  ghost predicate Unshifted(s: seq<Word>, t: seq<Word>, b: nat, j: nat)
    requires |s| == |t| == 2 * b && b >= 2 && 2 <= j <= b
  {
    && (forall i :: j <= i < b ==> t[i] == s[i + b])
    && (forall i :: j + b <= i < 2 * b ==> t[i] == s[i - b - 2])
    && (forall i :: 0 <= i < j ==> t[i] == s[i])
    && (forall i :: b <= i < b + j ==> t[i] == s[i])
  }

  lemma UnshiftOne(s: seq<Word>, t: seq<Word>, u: seq<Word>, b: nat, j: nat)
    requires |s| == |t| == |u| == 2 * b && b >= 2 && 2 <= j && j + 2 <= b
    requires Unshifted(s, t, b, j + 2)
    requires u == t[j := t[j + b]][j + b := t[j - 2]][j + 1 := t[j + b + 1]][j + b + 1 := t[j - 1]]
    ensures Unshifted(s, u, b, j)
  {
  }

  lemma FoldMove(f: Word, c: Word, t: Word)
    ensures Xor(f, Xor(t, c)) == Xor(Xor(f, c), t)
  {
    hide Xor;
    XorLaws(t, c, 0);
    XorLaws(f, c, t);
  }

  /** The moving loop of the inverse, folding what it moves. */
  method UnshiftLoop(state: array<Word>, brans: nat) returns (tmpx: Word, tmpy: Word)
    requires state.Length == 2 * brans && brans % 2 == 0 && brans >= 2
    modifies state
    ensures Unshifted(old(state[..]), state[..], brans, 2)
    ensures Xor(Fold(old(state[..])[brans..], 0, 1), tmpx) == Fold(old(state[..])[brans..], 0, brans / 2)
    ensures Xor(Fold(old(state[..])[brans..], 1, 1), tmpy) == Fold(old(state[..])[brans..], 1, brans / 2)
  {
    hide *;
    ghost var s := state[..];
    ghost var right := s[brans..];
    tmpx, tmpy := 0, 0;
    XorLaws(Fold(right, 0, brans / 2), 0, 0);
    XorLaws(Fold(right, 1, brans / 2), 0, 0);
    StartUnshift(s, brans);
    var j := brans - 2;
    while j > 0
      invariant 0 <= j && j + 2 <= brans && j % 2 == 0
      invariant Unshifted(s, state[..], brans, j + 2)
      invariant Xor(Fold(right, 0, j / 2 + 1), tmpx) == Fold(right, 0, brans / 2)
      invariant Xor(Fold(right, 1, j / 2 + 1), tmpy) == Fold(right, 1, brans / 2)
      decreases j
    {
      ghost var t := state[..];
      MovedWords(s, t, brans, j);
      FoldStep(right, 0, j / 2);
      FoldStep(right, 1, j / 2);
      FoldMove(Fold(right, 0, j / 2), right[j], tmpx);
      FoldMove(Fold(right, 1, j / 2), right[j + 1], tmpy);
      state[j] := state[j + brans];
      tmpx := Xor(tmpx, state[j]);
      state[j + brans] := state[j - 2];
      state[j + 1] := state[j + brans + 1];
      tmpy := Xor(tmpy, state[j + 1]);
      state[j + brans + 1] := state[j - 1];
      UnshiftOne(s, t, state[..], brans, j);
      j := j - 2;
    }
  }

  method UnshiftHalves(state: array<Word>, brans: nat) returns (tmpx: Word, tmpy: Word)
    requires state.Length == 2 * brans && brans % 2 == 0 && brans >= 2
    modifies state
    ensures IsUnshifted(old(state[..]), state[..], brans)
    ensures tmpx == Tap(old(state[..])[brans..], 0, brans) && tmpy == Tap(old(state[..])[brans..], 1, brans)
  {
    hide *;
    ghost var s := state[..];
    ghost var right := s[brans..];
    var xb1, yb1 := state[brans - 2], state[brans - 1];
    tmpx, tmpy := UnshiftLoop(state, brans);
    ghost var t := state[..];
    MovedWords(s, t, brans, 0);
    FoldFirst(right, 0);
    FoldFirst(right, 1);
    XorLaws(tmpx, right[0], 0);
    XorLaws(tmpy, right[1], 0);
    state[0] := state[brans];
    tmpx := Xor(tmpx, state[0]);
    state[brans] := xb1;
    state[1] := state[brans + 1];
    tmpy := Xor(tmpy, state[1]);
    state[brans + 1] := yb1;
    UnshiftLast(s, t, state[..], brans);
    TapIs(right, brans);
    tmpx := Ell(tmpx);
    tmpy := Ell(tmpy);
  }

  /** The right half moved left, and the left half moved right by one branch. */
  ghost predicate IsUnshifted(s: seq<Word>, t: seq<Word>, b: nat) {
    && |s| == |t| == 2 * b && b >= 2
    && (forall i :: 0 <= i < b ==> t[i] == s[i + b])
    && (forall i :: b <= i < 2 * b ==> t[i] == s[if i >= b + 2 then i - b - 2 else i - 2])
  }

  lemma StartUnshift(s: seq<Word>, b: nat)
    requires |s| == 2 * b && b >= 2
    ensures Unshifted(s, s, b, b)
  {
  }

  lemma MovedWords(s: seq<Word>, t: seq<Word>, b: nat, j: nat)
    requires |s| == |t| == 2 * b && b >= 2 && j + 2 <= b && Unshifted(s, t, b, j + 2)
    ensures t[j + b] == s[b..][j] && t[j + b + 1] == s[b..][j + 1]
  {
  }

  lemma UnshiftLast(s: seq<Word>, t: seq<Word>, u: seq<Word>, b: nat)
    requires |s| == |t| == |u| == 2 * b && b >= 2 && Unshifted(s, t, b, 2)
    requires u == t[0 := t[b]][b := s[b - 2]][1 := t[b + 1]][b + 1 := s[b - 1]]
    ensures IsUnshifted(s, u, b)
  {
  }

  lemma TapIs(s: seq<Word>, b: nat)
    requires b <= |s| && b % 2 == 0
    ensures Tap(s, 0, b) == Ell(Fold(s, 0, b / 2)) && Tap(s, 1, b) == Ell(Fold(s, 1, b / 2))
  {
  }

  /** The inverse linear layer. */
  method LinearLayerInv(state: array<Word>, brans: nat)
    requires state.Length == 2 * brans && brans % 2 == 0 && brans >= 2
    modifies state
    ensures state[..] == LinearInv(old(state[..]), brans)
  {
    hide *;
    ghost var s := state[..];
    var tmpx, tmpy := UnshiftHalves(state, brans);
    ghost var t := state[..];
    StartUnmix(t, brans, tmpx, tmpy);
    var j := brans - 2;
    while j >= 0
      invariant -2 <= j <= brans - 2 && j % 2 == 0
      invariant Unmixed(t, state[..], brans, tmpx, tmpy, j + 2)
      decreases j
    {
      ghost var u := state[..];
      MixIs(u[j + brans], u[j], tmpy);
      MixIs(u[j + brans + 1], u[j + 1], tmpx);
      state[j + brans] := Xor(state[j + brans], Xor(tmpy, state[j]));
      state[j + brans + 1] := Xor(state[j + brans + 1], Xor(tmpx, state[j + 1]));
      UnmixOne(t, u, state[..], brans, tmpx, tmpy, j);
      j := j - 2;
    }
    LinearInvFrom(s, t, state[..], brans, tmpx, tmpy);
  }

  /** The right words from `j` on have been unmixed. */
  ghost predicate Unmixed(t: seq<Word>, u: seq<Word>, b: nat, tx: Word, ty: Word, j: int)
    requires |t| == |u| == 2 * b
  {
    && (forall i :: 0 <= i < b ==> u[i] == t[i])
    && (forall i {:trigger u[i]} :: b <= i < 2 * b ==> u[i] == if i < j + b then t[i] else UnMix(t[i], t[i - b], Pick(i, tx, ty)))
  }

  function Pick(i: nat, tx: Word, ty: Word): Word {
    if i % 2 == 0 then ty else tx
  }

  lemma StartUnmix(t: seq<Word>, b: nat, tx: Word, ty: Word)
    requires |t| == 2 * b
    ensures Unmixed(t, t, b, tx, ty, b)
  {
  }

  lemma UnmixOne(t: seq<Word>, u: seq<Word>, v: seq<Word>, b: nat, tx: Word, ty: Word, j: nat)
    requires |t| == |u| == |v| == 2 * b && b % 2 == 0 && j % 2 == 0 && j + 2 <= b && Unmixed(t, u, b, tx, ty, j + 2)
    requires v == u[j + b := UnMix(u[j + b], u[j], ty)][j + b + 1 := UnMix(u[j + b + 1], u[j + 1], tx)]
    ensures Unmixed(t, v, b, tx, ty, j)
  {
    assert Pick(j + b, tx, ty) == ty && Pick(j + b + 1, tx, ty) == tx;
    hide UnMix; hide Pick;
    assert u[j] == t[j] && u[j + 1] == t[j + 1] && u[j + b] == t[j + b] && u[j + b + 1] == t[j + b + 1];
    forall i: nat | b <= i < 2 * b
      ensures v[i] == if i < j + b then t[i] else UnMix(t[i], t[i - b], Pick(i, tx, ty))
    {
      if i == j + b {
        assert t[i - b] == t[j];
      } else if i == j + b + 1 {
        assert t[i - b] == t[j + 1];
      } else {
        assert v[i] == u[i];
      }
    }
  }

  lemma LinearInvFrom(s: seq<Word>, t: seq<Word>, u: seq<Word>, b: nat, tx: Word, ty: Word)
    requires |s| == |t| == |u| == 2 * b && b >= 2 && b % 2 == 0
    requires tx == Tap(s[b..], 0, b) && ty == Tap(s[b..], 1, b)
    requires IsUnshifted(s, t, b) && Unmixed(t, u, b, tx, ty, 0)
    ensures u == LinearInv(s, b)
  {
    hide UnMix; hide Tap;
    var r := LinearInv(s, b);
    forall i | 0 <= i < 2 * b ensures u[i] == r[i] {
      if i >= b {
        var j := i - b;
        var k := if j >= 2 then j - 2 else j - 2 + b;
        assert i % 2 == j % 2;
        assert u[i] == UnMix(t[i], t[i - b], Pick(i, tx, ty));
        assert t[j] == s[j + b] && t[i] == s[k];
        assert r[i] == RightWord(s, b, tx, ty, j);
        assert r[i] == UnMix(s[k], s[j + b], if j % 2 == 0 then ty else tx);
      }
    }
  }

  // ----- the permutation -----

  method AddConstantsInPlace(state: array<Word>, i: nat)
    requires state.Length >= 4
    modifies state
    ensures state[..] == AddConstants(old(state[..]), i)
  {
    hide Xor; hide Counter;
    state[1] := Xor(state[1], RCON[i % 8]);
    state[3] := Xor(state[3], Counter(i));
  }

  /** `schwaemm_sparkle` */
  method SparklePermutation(state: array<Word>, brans: nat, steps: nat)
    requires IsBranchCount(brans) && state.Length == 2 * brans
    modifies state
    ensures state[..] == Permute(old(state[..]), brans, steps)
  {
    hide Linear; hide MapPairs; hide AddConstants;
    ghost var s := state[..];
    for i := 0 to steps
      invariant state[..] == Permute(s, brans, i)
    {
      AddConstantsInPlace(state, i);
      ArxLayer(state, brans, false);
      LinearLayer(state, brans);
    }
  }

  /** `schwaemm_sparkle_inv` */
  method SparklePermutationInv(state: array<Word>, brans: nat, steps: nat)
    requires IsBranchCount(brans) && state.Length == 2 * brans
    modifies state
    ensures state[..] == PermuteInv(old(state[..]), brans, steps)
  {
    hide LinearInv; hide MapPairs; hide AddConstants;
    ghost var s := state[..];
    for i := steps downto 0
      invariant PermuteInv(state[..], brans, i) == PermuteInv(s, brans, steps)
    {
      LinearLayerInv(state, brans);
      ArxLayer(state, brans, true);
      AddConstantsInPlace(state, i);
    }
  }

  /** Running the permutation and then its inverse restores the state array. */
  method RoundTrip(state: array<Word>, brans: nat, steps: nat)
    requires IsBranchCount(brans) && state.Length == 2 * brans
    modifies state
    ensures state[..] == old(state[..])
  {
    ghost var s := state[..];
    SparklePermutation(state, brans, steps);
    SparklePermutationInv(state, brans, steps);
    PermuteInverts(s, brans, steps);
  }
}
