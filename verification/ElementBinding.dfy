/** What the secure element of runtime/SEalgo.c authenticates and hashes, down to the bytes: the associated data determine
    hash, index, execution, IDs, flag and counts, and no two different queries to the hash have the same bytes. */
module ElementBinding {
  import opened Options
  import opened Words
  import opened ByteView
  import opened BigEndian
  import opened Bytecode
  import opened SecureElement

  // ----- numbers and lists -----

  lemma BytesInjective(a: nat, b: nat, width: nat)
    requires a < Pow256(width) && b < Pow256(width) && ToBytes(a, width) == ToBytes(b, width)
    ensures a == b
  {
    hide ToBytes; hide Pow256; hide FromBytes;
    FromToBytes(a, width);
    FromToBytes(b, width);
  }

  lemma Split(a: seq<Byte>, b: seq<Byte>, c: seq<Byte>, d: seq<Byte>)
    requires |a| == |c| && a + b == c + d
    ensures a == c && b == d
  {
    assert (a + b)[..|a|] == a && (a + b)[|a|..] == b && (c + d)[..|c|] == c && (c + d)[|c|..] == d;
  }

  lemma {:induction false} NumsInjective(a: seq<nat>, b: seq<nat>, width: nat)
    requires width >= 1 && (forall i :: 0 <= i < |a| ==> a[i] < Pow256(width)) && (forall i :: 0 <= i < |b| ==> b[i] < Pow256(width)) && NumsBytes(a, width) == NumsBytes(b, width)
    ensures a == b
    decreases |a|
  {
    hide ToBytes; hide Pow256;
    SameCount(|a|, |b|, width);
    if a != [] {
      var k := |a| - 1;
      Split(NumsBytes(a[..k], width), ToBytes(a[k], width), NumsBytes(b[..k], width), ToBytes(b[k], width));
      NumsInjective(a[..k], b[..k], width);
      BytesInjective(a[k], b[k], width);
      assert a == a[..k] + [a[k]] && b == b[..k] + [b[k]];
    }
  }

  lemma SameCount(n: nat, m: nat, width: nat)
    requires width >= 1
    ensures width * n == width * m ==> n == m
  {
    if n < m { assert width * n < width * m; }
    if m < n { assert width * m < width * n; }
  }

  lemma {:induction false} IdsLength(ids: seq<Id>, lbo: nat)
    ensures |IdsBytes(ids, lbo)| == (4 + lbo) * |ids|
    decreases |ids|
  {
    if ids != [] { IdsLength(ids[..|ids| - 1], lbo); }
  }

  lemma {:induction false} IdsInjective(a: seq<Id>, b: seq<Id>, lbo: nat)
    requires IdsFit(a, lbo) && IdsFit(b, lbo) && |a| == |b| && IdsBytes(a, lbo) == IdsBytes(b, lbo)
    ensures a == b
    decreases |a|
  {
    hide ToBytes; hide Pow256; hide IdsFit;
    if a != [] {
      var k := |a| - 1;
      IdsLength(a[..k], lbo);
      IdsLength(b[..k], lbo);
      IdsFitParts(a, lbo);
      IdsFitParts(b, lbo);
      Split(IdsBytes(a[..k], lbo), ToBytes(a[k].instr, 4) + ToBytes(a[k].out, lbo), IdsBytes(b[..k], lbo), ToBytes(b[k].instr, 4) + ToBytes(b[k].out, lbo));
      Split(ToBytes(a[k].instr, 4), ToBytes(a[k].out, lbo), ToBytes(b[k].instr, 4), ToBytes(b[k].out, lbo));
      IdsInjective(a[..k], b[..k], lbo);
      BytesInjective(a[k].instr, b[k].instr, 4);
      BytesInjective(a[k].out, b[k].out, lbo);
      assert a == a[..k] + [a[k]] && b == b[..k] + [b[k]];
    }
  }

  // ----- associated data -----

  /** The token's data determine hash, index and execution. */
  lemma TokenAdBinds(h: seq<Byte>, i: nat, exec: seq<Byte>, h2: seq<Byte>, i2: nat, exec2: seq<Byte>)
    requires |h| == |h2| == 32 && i < Pow256(4) && i2 < Pow256(4) && TokenAd(h, i, exec) == TokenAd(h2, i2, exec2)
    ensures h == h2 && i == i2 && exec == exec2
  {
    hide ToBytes; hide Pow256;
    Split(h + ToBytes(i, 4), exec, h2 + ToBytes(i2, 4), exec2);
    Split(h, ToBytes(i, 4), h2, ToBytes(i2, 4));
    BytesInjective(i, i2, 4);
  }

  /** A word's data determine its ID and execution. */
  lemma WordAdBinds(exec: seq<Byte>, id: Id, exec2: seq<Byte>, id2: Id)
    requires id.instr < Pow256(4) && id.out < Pow256(4) && id2.instr < Pow256(4) && id2.out < Pow256(4) && WordAd(exec, id) == WordAd(exec2, id2)
    ensures exec == exec2 && id == id2
  {
    hide ToBytes; hide Pow256;
    Split(ToBytes(id.instr, 4) + ToBytes(id.out, 4), exec, ToBytes(id2.instr, 4) + ToBytes(id2.out, 4), exec2);
    Split(ToBytes(id.instr, 4), ToBytes(id.out, 4), ToBytes(id2.instr, 4), ToBytes(id2.out, 4));
    BytesInjective(id.instr, id2.instr, 4);
    BytesInjective(id.out, id2.out, 4);
  }

  /** The data of a multi-instruction determine its number, flag, input IDs and output count. */
  lemma AdBytesBinds(n: nat, flag: nat, ids: seq<Id>, nout: nat, n2: nat, flag2: nat, ids2: seq<Id>, nout2: nat, lbm: nat, lbo: nat)
    requires n < Pow256(4) && flag < Pow256(1) && IdsFit(ids, lbo) && |ids| < Pow256(lbm) && nout < Pow256(lbm)
    requires n2 < Pow256(4) && flag2 < Pow256(1) && IdsFit(ids2, lbo) && |ids2| < Pow256(lbm) && nout2 < Pow256(lbm)
    requires AdBytes(n, flag, ids, nout, lbm, lbo) == AdBytes(n2, flag2, ids2, nout2, lbm, lbo)
    ensures n == n2 && flag == flag2 && ids == ids2 && nout == nout2
  {
    hide ToBytes; hide Pow256; hide IdsFit; hide IdsBytes;
    var a, b, c, d, f := ToBytes(n, 4), ToBytes(flag, 1), ToBytes(|ids|, lbm), IdsBytes(ids, lbo), ToBytes(nout, lbm);
    var p, q, r, s, t := ToBytes(n2, 4), ToBytes(flag2, 1), ToBytes(|ids2|, lbm), IdsBytes(ids2, lbo), ToBytes(nout2, lbm);
    assert a + b + c + d + f == a + (b + (c + (d + f))) && p + q + r + s + t == p + (q + (r + (s + t)));
    Split(a, b + (c + (d + f)), p, q + (r + (s + t)));
    Split(b, c + (d + f), q, r + (s + t));
    Split(c, d + f, r, s + t);
    BytesInjective(n, n2, 4);
    BytesInjective(flag, flag2, 1);
    BytesInjective(|ids|, |ids2|, lbm);
    IdsLength(ids, lbo);
    IdsLength(ids2, lbo);
    Split(d, f, s, t);
    IdsInjective(ids, ids2, lbo);
    BytesInjective(nout, nout2, lbm);
  }

  // ----- queries to the hash -----

  /** A hash that tells `y` from everything else. */
  function Telling(y: seq<Byte>): Hash {
    (x: seq<Byte>) => if x == y then seq<Byte>(32, _ => 1) else seq<Byte>(32, _ => 0)
  }

  function Teller(y: seq<Byte>): Element {
    Element(Telling(y), seq(16, _ => 0), (c: seq<Byte>) => None)
  }

  lemma Told(x: seq<Byte>, y: seq<Byte>)
    requires Teller(y).hash(x) == Teller(y).hash(y)
    ensures x == y
  {
    TellerAt(x, y);
    TellerAt(y, y);
  }

  lemma TellerAt(x: seq<Byte>, y: seq<Byte>)
    ensures Teller(y).hash(x)[0] == if x == y then 1 else 0
  {
  }

  /** A chained hash is asked for the previous hash and the batch, and for nothing else. */
  lemma HashChainBinds(hp: seq<Byte>, x: seq<Word>, hp2: seq<Byte>, x2: seq<Word>)
    requires |hp| == |hp2| == 32 && forall e: Element :: HashChain(e, hp, x) == HashChain(e, hp2, x2)
    ensures hp == hp2 && x == x2
  {
    hide ToBytes; hide Pow256; hide NumsBytes; hide Telling;
    var y := hp + NumsBytes(x, 4);
    assert HashChain(Teller(y), hp, x) == HashChain(Teller(y), hp2, x2);
    Told(hp2 + NumsBytes(x2, 4), y);
    Split(hp, NumsBytes(x, 4), hp2, NumsBytes(x2, 4));
    WordsFit(x);
    WordsFit(x2);
    NumsInjective(x, x2, 4);
  }

  lemma WordsFit(x: seq<Word>)
    ensures forall i :: 0 <= i < |x| ==> x[i] < Pow256(4)
  {
    Pow256Of3();
    assert Pow256(4) == 256 * Pow256(3);
  }

  /** The four kinds of queries with a prefix. */
  datatype Query =
    | ExecQuery(header: seq<Byte>, hash: seq<Byte>)
    | KeyQuery(exec: seq<Byte>)
    | TokenQuery(i: nat, exec: seq<Byte>)
    | WordQuery(exec: seq<Byte>, id: Id)

  /** Hashes have 32 bytes and numbers four. */
  predicate QueryOk(q: Query) {
    match q
    case ExecQuery(header, hash) => |hash| == 32
    case KeyQuery(exec) => |exec| == 32
    case TokenQuery(i, exec) => |exec| == 32 && i < Pow256(4)
    case WordQuery(exec, id) => |exec| == 32 && id.instr < Pow256(4) && id.out < Pow256(4)
  }

  function Asked(e: Element, q: Query): seq<Byte> {
    match q
    case ExecQuery(header, hash) => ExecId(e, header, hash)
    case KeyQuery(exec) => KeyNonce(e, exec)
    case TokenQuery(i, exec) => TokenNonce(e, i, exec)
    case WordQuery(exec, id) => WordNonce(e, exec, id)
  }

  function Prefix(q: Query): nat {
    match q case ExecQuery(_, _) => 0 case KeyQuery(_) => 1 case TokenQuery(_, _) => 2 case WordQuery(_, _) => 3
  }

  function Message(q: Query): seq<Byte> {
    match q
    case ExecQuery(header, hash) => hash + header
    case KeyQuery(exec) => exec
    case TokenQuery(i, exec) => exec + ToBytes(i, 4)
    case WordQuery(exec, id) => WordAd(exec, id)
  }

  lemma AskedIs(e: Element, q: Query)
    ensures Asked(e, q) == e.hash(ToBytes(Prefix(q), 4) + Message(q))
  {
    hide ToBytes; hide WordAd;
  }

  lemma PrefixFits(q: Query)
    ensures Prefix(q) < Pow256(4)
  {
    Pow256Of3();
    assert Pow256(4) == 256 * Pow256(3);
  }

  /** Execution IDs and the nonces of keys, tokens and words never ask the hash for the same bytes, unless all their parts agree. */
  lemma QueriesBind(q: Query, r: Query)
    requires QueryOk(q) && QueryOk(r) && forall e: Element :: Asked(e, q) == Asked(e, r)
    ensures q == r
  {
    hide ToBytes; hide Pow256; hide Telling; hide Asked; hide Message; hide Prefix; hide QueryOk;
    var y := ToBytes(Prefix(q), 4) + Message(q);
    assert Asked(Teller(y), q) == Asked(Teller(y), r);
    AskedIs(Teller(y), q);
    AskedIs(Teller(y), r);
    Told(ToBytes(Prefix(r), 4) + Message(r), y);
    Split(ToBytes(Prefix(q), 4), Message(q), ToBytes(Prefix(r), 4), Message(r));
    PrefixFits(q);
    PrefixFits(r);
    BytesInjective(Prefix(q), Prefix(r), 4);
    MessagesBind(q, r);
  }

  lemma MessagesBind(q: Query, r: Query)
    requires QueryOk(q) && QueryOk(r) && Prefix(q) == Prefix(r) && Message(q) == Message(r)
    ensures q == r
  {
    hide ToBytes; hide Pow256; hide WordAd;
    match q
    case ExecQuery(header, hash) => Split(hash, header, r.hash, r.header);
    case KeyQuery(exec) =>
    case TokenQuery(i, exec) =>
      Split(exec, ToBytes(i, 4), r.exec, ToBytes(r.i, 4));
      BytesInjective(i, r.i, 4);
    case WordQuery(exec, id) => WordAdBinds(exec, id, r.exec, r.id);
  }
}
