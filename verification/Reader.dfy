/** The parser of runtime/interpreter.c: a cursor over the bytecode. Where the C code would exit or read past
    the end, the result is `None`. */
module Reader {
  import opened Options
  import opened ByteView
  import opened Words
  import opened BigEndian
  import opened LlsCode
  import opened Bytecode

  /** A reading method agrees with the reading function: same value, same new position. */
  ghost predicate Gives<T(!new)>(p: Parsed<T>, r: Option<T>, pos: nat) {
    match p case Fail => r.None? case Ok(v, q) => r == Some(v) && pos == q
  }

  class Cursor {
    const code: seq<Byte>
    var bcptr: nat

    constructor (code: seq<Byte>)
      ensures this.code == code && bcptr == 0
    {
      this.code := code;
      bcptr := 0;
    }

    /** `load_bytes` */
    method LoadBytes(width: nat) returns (r: Option<Word>)
      modifies this`bcptr
      ensures Gives(ReadUint(code, old(bcptr), width), r, bcptr)
    {
      if bcptr + width > |code| { return None; }
      r := LoadU32(code[bcptr..bcptr + width]);
      bcptr := bcptr + width;
    }

    method LoadNums(width: nat, n: nat) returns (r: Option<seq<nat>>)
      modifies this`bcptr
      ensures Gives(ReadNums(code, old(bcptr), width, n), r, bcptr)
    {
      hide ReadUint;
      var ns: seq<nat> := [];
      for i := 0 to n
        invariant ReadNums(code, old(bcptr), width, i) == Ok(ns, bcptr)
      {
        var w := LoadBytes(width);
        if w.None? {
          NumsFail(code, old(bcptr), width, i + 1, n);
          return None;
        }
        ns := ns + [w.value];
      }
      return Some(ns);
    }

    method LoadIds(lbo: nat, n: nat) returns (r: Option<seq<Id>>)
      modifies this`bcptr
      ensures Gives(ReadIds(code, old(bcptr), lbo, n), r, bcptr)
    {
      hide ReadUint;
      var ids: seq<Id> := [];
      for i := 0 to n
        invariant ReadIds(code, old(bcptr), lbo, i) == Ok(ids, bcptr)
      {
        var a := LoadBytes(4);
        if a.None? {
          IdsFail(code, old(bcptr), lbo, i + 1, n);
          return None;
        }
        var b := LoadBytes(lbo);
        if b.None? {
          IdsFail(code, old(bcptr), lbo, i + 1, n);
          return None;
        }
        ids := ids + [Id(a.value, b.value)];
      }
      return Some(ids);
    }

    /** The body of the loop of `interpret_prog`. */
    method LoadMi(lbm: nat, lbo: nat) returns (r: Option<Mi>)
      modifies this`bcptr
      ensures Gives(ReadMi(code, old(bcptr), lbm, lbo), r, bcptr)
    {
      hide ReadUint; hide ReadNums; hide ReadIds;
      var ni := LoadBytes(lbm);
      if ni.None? { return None; }
      var inps := LoadNums(lbm, ni.value);
      if inps.None? { return None; }
      var no := LoadBytes(lbm);
      if no.None? { return None; }
      var outs := LoadNums(lbm, no.value);
      if outs.None? { return None; }
      var instrId := LoadBytes(4);
      if instrId.None? { return None; }
      var flag := LoadBytes(1);
      if flag.None? { return None; }
      var ids := LoadIds(lbo, ni.value);
      if ids.None? { return None; }
      var len := LoadBytes(4);
      if len.None? || bcptr + len.value > |code| { return None; }
      r := Some(Mi(inps.value, outs.value, instrId.value, flag.value, ids.value, code[bcptr..bcptr + len.value]));
      bcptr := bcptr + len.value;
    }

    /** `interpret_prog` */
    method LoadListing(lbm: nat, lbo: nat) returns (r: Option<Listing>)
      modifies this`bcptr
      ensures Gives(ReadListing(code, old(bcptr), lbm, lbo), r, bcptr)
    {
      hide ReadUint; hide ReadNums; hide ReadMi;
      var ni := LoadBytes(lbm);
      if ni.None? { return None; }
      var inps := LoadNums(lbm, ni.value);
      if inps.None? { return None; }
      var no := LoadBytes(lbm);
      if no.None? { return None; }
      var outs := LoadNums(lbm, no.value);
      if outs.None? { return None; }
      var n := LoadBytes(4);
      if n.None? { return None; }
      ghost var start := bcptr;
      var mis: seq<Mi> := [];
      for i := 0 to n.value
        invariant ReadMis(code, start, lbm, lbo, i) == Ok(mis, bcptr)
      {
        var mi := LoadMi(lbm, lbo);
        if mi.None? {
          MisFail(code, start, lbm, lbo, i + 1, n.value);
          return None;
        }
        mis := mis + [mi.value];
      }
      return Some(Listing(inps.value, outs.value, mis));
    }
  }

  lemma {:induction false} NumsFail(code: seq<Byte>, pos: nat, width: nat, i: nat, n: nat)
    requires i <= n && ReadNums(code, pos, width, i).Fail?
    ensures ReadNums(code, pos, width, n).Fail?
    decreases n
  {
    if i < n { NumsFail(code, pos, width, i, n - 1); }
  }

  lemma {:induction false} IdsFail(code: seq<Byte>, pos: nat, lbo: nat, i: nat, n: nat)
    requires i <= n && ReadIds(code, pos, lbo, i).Fail?
    ensures ReadIds(code, pos, lbo, n).Fail?
    decreases n
  {
    if i < n { IdsFail(code, pos, lbo, i, n - 1); }
  }

  lemma {:induction false} MisFail(code: seq<Byte>, pos: nat, lbm: nat, lbo: nat, i: nat, n: nat)
    requires i <= n && ReadMis(code, pos, lbm, lbo, i).Fail?
    ensures ReadMis(code, pos, lbm, lbo, n).Fail?
    decreases n
  {
    hide ReadMi;
    if i < n { MisFail(code, pos, lbm, lbo, i, n - 1); }
  }
}
