/** `interpret` of runtime/interpreter.c: parse the bytecode, encrypt the inputs, and have the secure element
    evaluate the multi-instructions one after the other. */
module Interpreter {
  import opened Options
  import opened IR
  import opened ByteView
  import opened BigEndian
  import opened LlsCode
  import opened Bytecode
  import opened Serializer
  import opened SecureElement
  import opened InputPhase
  import opened Simulation
  import opened Reader

  // ----- one multi-instruction -----

  ghost predicate Addressed(ms: seq<nat>, n: nat) {
    forall i :: 0 <= i < |ms| ==> ms[i] < n
  }

  method InBounds(ms: seq<nat>, n: nat) returns (ok: bool)
    ensures ok <==> Addressed(ms, n)
  {
    for i := 0 to |ms|
      invariant forall k :: 0 <= k < i ==> ms[k] < n
    {
      if ms[i] >= n { return false; }
    }
    return true;
  }

  method Load(memory: array<seq<Byte>>, ms: seq<nat>) returns (cx: seq<seq<Byte>>)
    requires Addressed(ms, memory.Length)
    ensures cx == Gather(memory[..], ms)
  {
    cx := [];
    for j := 0 to |ms|
      invariant |cx| == j && forall k :: 0 <= k < j ==> cx[k] == memory[ms[k]]
    {
      cx := cx + [memory[ms[j]]];
    }
  }

  method Save(memory: array<seq<Byte>>, ms: seq<nat>, vs: seq<seq<Byte>>)
    requires Addressed(ms, memory.Length) && |ms| <= |vs|
    modifies memory
    ensures memory[..] == PutAll(old(memory[..]), ms, vs, |ms|)
  {
    for j := 0 to |ms|
      invariant memory[..] == PutAll(old(memory[..]), ms, vs, j)
    {
      memory[ms[j]] := vs[j];
    }
  }

  /** The turn of the loop for one multi-instruction; it fails exactly when an address is out of range or
      something does not open. */
  method RunMi(e: Element, ops: Ops, cfg: Config, lbm: nat, exec: seq<Byte>, ekey: seq<Byte>, mi: Mi, memory: array<seq<Byte>>)
    returns (ok: bool, ghost g: seq<Word>, ghost codes: seq<Code>, ghost vs: seq<Word>, ghost cr: seq<seq<Byte>>)
    requires |mi.ids| == |mi.inps|
    modifies memory
    ensures |g| == cfg.r
    ensures ok ==> MiRan(e, ops, cfg, lbm, exec, ekey, mi, old(memory[..]), g, codes, vs, cr, memory[..])
    ensures !ok ==> !(Addressed(mi.inps, memory.Length) && Addressed(mi.outs, memory.Length) && EvalFits(cfg, mi)
                      && CanOpen(e, cfg, lbm, exec, ekey, mi, Gather(old(memory[..]), mi.inps)))
  {
    hide *;
    AddressedIs(mi.inps, memory.Length);
    AddressedIs(mi.outs, memory.Length);
    ghost var cells := memory[..];
    g := seq(cfg.r, _ => 0);
    codes, vs, cr := [], [], [];
    var inOk := InBounds(mi.inps, memory.Length);
    var outOk := InBounds(mi.outs, memory.Length);
    if !inOk || !outOk { return false, g, codes, vs, cr; }
    var inps := Load(memory, mi.inps);
    var buffer: seq<seq<Byte>> := Allocate(|mi.outs|);
    var r;
    r, g, codes, vs := SeEval(e, ops, cfg, lbm, exec, ekey, mi, inps, buffer);
    if r.None? { return false, g, codes, vs, cr; }
    cr := r.value;
    DoneSize(e, ops, cfg, lbm, exec, ekey, mi, inps, g, codes, vs, cr);
    Save(memory, mi.outs, r.value);
    MakeRan(e, ops, cfg, lbm, exec, ekey, mi, cells, g, codes, vs, cr);
    return true, g, codes, vs, cr;
  }

  lemma AddressedIs(ms: seq<nat>, n: nat)
    ensures Addressed(ms, n) <==> forall i :: 0 <= i < |ms| ==> ms[i] < n
  {
  }

  /** `malloc`: cells of twenty bytes with any contents. */
  method Allocate(n: nat) returns (buffer: seq<seq<Byte>>)
    ensures |buffer| == n && forall j :: 0 <= j < n ==> |buffer[j]| == 20
  {
    var some: seq<Byte> := *;
    var cell: seq<Byte> := if |some| == 20 then some else seq(20, _ => 0);
    buffer := seq(n, _ => cell);
  }

  ghost predicate MiRan(e: Element, ops: Ops, cfg: Config, lbm: nat, exec: seq<Byte>, ekey: seq<Byte>, mi: Mi, cells: seq<seq<Byte>>,
                        g: seq<Word>, codes: seq<Code>, vs: seq<Word>, cr: seq<seq<Byte>>, after: seq<seq<Byte>>)
  {
    && Addressed(mi.inps, |cells|) && Addressed(mi.outs, |cells|) && |cr| == |mi.outs|
    && EvalDone(e, ops, cfg, lbm, exec, ekey, mi, Gather(cells, mi.inps), g, codes, vs, cr)
    && after == PutAll(cells, mi.outs, cr, |mi.outs|)
  }

  lemma DoneSize(e: Element, ops: Ops, cfg: Config, lbm: nat, exec: seq<Byte>, ekey: seq<Byte>, mi: Mi, cx: seq<seq<Byte>>,
                 g: seq<Word>, codes: seq<Code>, vs: seq<Word>, cr: seq<seq<Byte>>)
    requires EvalDone(e, ops, cfg, lbm, exec, ekey, mi, cx, g, codes, vs, cr)
    ensures |cr| == |mi.outs|
  {
    hide EvalOpens; hide Evaluated; hide Holds; hide AllInRange;
  }

  lemma MakeRan(e: Element, ops: Ops, cfg: Config, lbm: nat, exec: seq<Byte>, ekey: seq<Byte>, mi: Mi, cells: seq<seq<Byte>>,
                g: seq<Word>, codes: seq<Code>, vs: seq<Word>, cr: seq<seq<Byte>>)
    requires Addressed(mi.inps, |cells|) && Addressed(mi.outs, |cells|) && |cr| == |mi.outs|
    requires EvalDone(e, ops, cfg, lbm, exec, ekey, mi, Gather(cells, mi.inps), g, codes, vs, cr)
    ensures MiRan(e, ops, cfg, lbm, exec, ekey, mi, cells, g, codes, vs, cr, PutAll(cells, mi.outs, cr, |mi.outs|))
  {
    hide EvalDone; hide PutAll; hide Gather;
  }

  // ----- the program being interpreted -----

  /** The runtime is running `p`: the key opens, and the sizes are those of a runnable program. */
  ghost predicate Running(e: Element, p: Program, cfg: Config, key: Key, exec: seq<Byte>, ekey: seq<Byte>) {
    Runnable(p, cfg) && KeyOpened(e, exec, ekey) == Some(key)
  }

  lemma RunningParts(e: Element, p: Program, cfg: Config, key: Key, exec: seq<Byte>, ekey: seq<Byte>, k: nat)
    requires Running(e, p, cfg, key, exec, ekey)
    ensures cfg.lout >= 1 && AllShaped(p, cfg) && AllMisOk(p, cfg, |p.instrs|) && 2 <= cfg.r <= 0x100_0000
    ensures KeyOpened(e, exec, ekey) == Some(key)
    ensures k < |p.instrs| ==> MiOkAt(p, cfg, k) && MiShape(p.instrs[k], cfg) && HiddenAt(p, k)
  {
    hide MiOkAt; hide MiShape; hide HiddenAt; hide KeyOpened; hide OutputsProduced; hide HeadOk;
  }

  lemma MiAtParts(p: Program, cfg: Config, key: Key, k: nat)
    requires cfg.lout >= 1 && k < |p.instrs| && MiOkAt(p, cfg, k)
    ensures var mi, ids, id := p.instrs[k], IdsAt(p, cfg.lout, k), InstrId(p, cfg.lout, k);
      && MiOk(mi, ids, id, cfg, p.memoryCount) && MiAt(p, cfg, key, k) == MiFor(p, mi, ids, id, cfg, key)
      && Addressed(mi.inputs, p.memoryCount) && Addressed(mi.outputs, p.memoryCount)
  {
    hide IdsFit; hide MiFor; hide IdsAt; hide InstrId; hide Pow256; hide WidthOf; hide LlsBytes; hide AllEncodable;
  }

  lemma HiddenIs(p: Program, k: nat)
    requires k < |p.instrs| && HiddenAt(p, k)
    ensures forall j :: 0 <= j < |p.instrs[k].inputs| ==> p.instrs[k].inputs[j] !in ClearAt(p, k)
  {
  }

  lemma SimParts(e: Element, exec: seq<Byte>, ops: Ops, p: Program, cfg: Config, gs: seq<seq<Word>>, inps: seq<Word>, k: nat, cells: seq<seq<Byte>>)
    requires cfg.lout >= 1 && AllShaped(p, cfg) && k <= |p.instrs| && k <= |gs| && Files(gs, cfg.r) && |inps| == |p.inputs|
    ensures Sim(e, exec, ops, p, cfg, gs, inps, k, cells) <==>
      |cells| == p.memoryCount && Matches(e, exec, IdsAt(p, cfg.lout, k), ClearAt(p, k), MemAt(ops, p, cfg, gs, inps, k), cells)
  {
    hide Matches; hide IdsAt; hide ClearAt; hide MemAt;
  }

  lemma FitsFor(cfg: Config, llmi: Llmi, mi: Mi)
    requires MiShape(llmi, cfg) && mi.inps == llmi.inputs && mi.outs == llmi.outputs && |mi.ids| == |mi.inps|
    ensures EvalFits(cfg, mi)
  {
  }

  /** On simulating memory, multi-instruction `k` opens: no decryption fails. */
  lemma StepOpens(e: Element, exec: seq<Byte>, ekey: seq<Byte>, ops: Ops, p: Program, cfg: Config, key: Key, gs: seq<seq<Word>>, inps: seq<Word>, k: nat, cells: seq<seq<Byte>>)
    requires Running(e, p, cfg, key, exec, ekey) && cfg.lout >= 1 && AllShaped(p, cfg) && k < |p.instrs| && k <= |gs| && Files(gs, cfg.r) && |inps| == |p.inputs|
    requires MiOkAt(p, cfg, k) && Sim(e, exec, ops, p, cfg, gs, inps, k, cells)
    ensures var mi := MiAt(p, cfg, key, k);
      && Addressed(mi.inps, |cells|) && Addressed(mi.outs, |cells|) && EvalFits(cfg, mi) && |mi.ids| == |mi.inps|
      && EvalOpens(e, cfg, WidthOf(p.memoryCount), exec, ekey, mi, Gather(cells, mi.inps), Codes(p.instrs[k].lls),
                   Fetch(MemAt(ops, p, cfg, gs, inps, k), p.instrs[k].inputs))
  {
    hide *;
    RunningParts(e, p, cfg, key, exec, ekey, k);
    MiAtParts(p, cfg, key, k);
    HiddenIs(p, k);
    SimParts(e, exec, ops, p, cfg, gs, inps, k, cells);
    var llmi, ids, id := p.instrs[k], IdsAt(p, cfg.lout, k), InstrId(p, cfg.lout, k);
    MiForIs(p, llmi, ids, id, cfg, key);
    AddressedIs(llmi.inputs, |cells|);
    FitsFor(cfg, llmi, MiAt(p, cfg, key, k));
    MiEvaluates(e, p, llmi, ids, id, cfg, key, exec, ekey, ClearAt(p, k), MemAt(ops, p, cfg, gs, inps, k), cells);
  }

  /** Running multi-instruction `k` keeps the simulation. */
  lemma StepKeeps(e: Element, exec: seq<Byte>, ekey: seq<Byte>, ops: Ops, p: Program, cfg: Config, key: Key, gs: seq<seq<Word>>, inps: seq<Word>, k: nat,
                  cells: seq<seq<Byte>>, g: seq<Word>, codes: seq<Code>, vs: seq<Word>, cr: seq<seq<Byte>>, after: seq<seq<Byte>>)
    requires Running(e, p, cfg, key, exec, ekey) && cfg.lout >= 1 && AllShaped(p, cfg) && k < |p.instrs| && k == |gs| && Files(gs, cfg.r) && |inps| == |p.inputs|
    requires MiOkAt(p, cfg, k) && Sim(e, exec, ops, p, cfg, gs, inps, k, cells) && |g| == cfg.r
    requires MiRan(e, ops, cfg, WidthOf(p.memoryCount), exec, ekey, MiAt(p, cfg, key, k), cells, g, codes, vs, cr, after)
    ensures Files(gs + [g], cfg.r) && Sim(e, exec, ops, p, cfg, gs + [g], inps, k + 1, after)
  {
    hide *;
    RunningParts(e, p, cfg, key, exec, ekey, k);
    StepOpens(e, exec, ekey, ops, p, cfg, key, gs, inps, k, cells);
    SimParts(e, exec, ops, p, cfg, gs, inps, k, cells);
    MiAtParts(p, cfg, key, k);
    var llmi, ids, id := p.instrs[k], IdsAt(p, cfg.lout, k), InstrId(p, cfg.lout, k);
    MiForIs(p, llmi, ids, id, cfg, key);
    var mi, mem := MiAt(p, cfg, key, k), MemAt(ops, p, cfg, gs, inps, k);
    RanParts(e, ops, cfg, WidthOf(p.memoryCount), exec, ekey, mi, cells, g, codes, vs, cr, after);
    AddressedIs(mi.inps, |cells|);
    OpensUnique(e, cfg, WidthOf(p.memoryCount), exec, ekey, mi, Gather(cells, mi.inps), codes, vs, Codes(llmi.lls), Fetch(mem, llmi.inputs));
    ShapeParts(llmi, cfg);
    MiOutputsIs(ops, llmi, cfg, mem, g);
    var ws := MiOutputs(ops, llmi, cfg, mem, g);
    AddressedIs(mi.outs, |cells|);
    OutputsMatch(e, exec, ids, ClearAt(p, k), mem, cells, mi, ws, cr, |mi.outs|);
    FilesNext(gs, g, cfg.r);
    NextState(ops, p, cfg, gs, g, inps, k);
    SimParts(e, exec, ops, p, cfg, gs + [g], inps, k + 1, after);
  }

  lemma MiOutputsIs(ops: Ops, mi: Llmi, cfg: Config, mem: Memory, g: seq<Word>)
    requires MiShape(mi, cfg) && |g| == cfg.r && AllInRange(Codes(mi.lls), cfg.r) && |mi.inputs| <= cfg.r && |mi.outputs| <= cfg.lout <= cfg.r
    ensures MiOutputs(ops, mi, cfg, mem, g) == Evaluated(ops, Codes(mi.lls), cfg.lout, |mi.outputs|, Fetch(mem, mi.inputs), g)
  {
    hide Evaluated; hide AllInRange;
  }

  lemma FilesNext(gs: seq<seq<Word>>, g: seq<Word>, r: nat)
    requires Files(gs, r) && |g| == r
    ensures Files(gs + [g], r)
  {
  }

  lemma RanParts(e: Element, ops: Ops, cfg: Config, lbm: nat, exec: seq<Byte>, ekey: seq<Byte>, mi: Mi, cells: seq<seq<Byte>>,
                 g: seq<Word>, codes: seq<Code>, vs: seq<Word>, cr: seq<seq<Byte>>, after: seq<seq<Byte>>)
    requires MiRan(e, ops, cfg, lbm, exec, ekey, mi, cells, g, codes, vs, cr, after)
    ensures Addressed(mi.inps, |cells|) && Addressed(mi.outs, |cells|) && |cr| == |mi.outs| && after == PutAll(cells, mi.outs, cr, |mi.outs|)
    ensures EvalOpens(e, cfg, lbm, exec, ekey, mi, Gather(cells, mi.inps), codes, vs)
    ensures |vs| == |mi.ids| <= |g| == cfg.r && |mi.outs| <= cfg.lout <= cfg.r && AllInRange(codes, |g|)
    ensures AllHold(e, exec, mi, Evaluated(ops, codes, cfg.lout, |mi.outs|, vs, g), cr)
  {
    hide EvalOpens; hide AllHold; hide Evaluated; hide AllInRange; hide PutAll; hide Gather;
  }

  /** How numbering, clear cells and memory move from `k` to `k + 1`. */
  lemma NextState(ops: Ops, p: Program, cfg: Config, gs: seq<seq<Word>>, g: seq<Word>, inps: seq<Word>, k: nat)
    requires cfg.lout >= 1 && AllShaped(p, cfg) && k < |p.instrs| && k == |gs| && Files(gs, cfg.r) && |g| == cfg.r && |inps| == |p.inputs|
    requires Files(gs + [g], cfg.r) && MiShape(p.instrs[k], cfg)
    ensures var mi, mem := p.instrs[k], MemAt(ops, p, cfg, gs, inps, k);
      && IdsAt(p, cfg.lout, k + 1) == OutputIds(IdsAt(p, cfg.lout, k), mi.outputs, InstrId(p, cfg.lout, k), |mi.outputs|)
      && ClearAt(p, k + 1) == ClearAfter(ClearAt(p, k), Flag(p, mi) != 0, mi.outputs, |mi.outputs|)
      && MemAt(ops, p, cfg, gs + [g], inps, k + 1) == Store(mem, mi.outputs, MiOutputs(ops, mi, cfg, mem, g), |mi.outputs|)
  {
    hide MiShape; hide MiOutputs; hide Store; hide OutputIds; hide Reveals; hide InstrId;
    MemAtPrefix(ops, p, cfg, gs, g, inps, k);
    var mi := p.instrs[k];
    assert mi.outputs[..|mi.outputs|] == mi.outputs;
    assert (gs + [g])[k] == g;
  }

  lemma {:induction false} MemAtPrefix(ops: Ops, p: Program, cfg: Config, gs: seq<seq<Word>>, g: seq<Word>, inps: seq<Word>, k: nat)
    requires AllShaped(p, cfg) && k <= |p.instrs| && k <= |gs| && Files(gs, cfg.r) && Files(gs + [g], cfg.r) && |inps| == |p.inputs|
    ensures MemAt(ops, p, cfg, gs + [g], inps, k) == MemAt(ops, p, cfg, gs, inps, k)
    decreases k
  {
    hide MiShape; hide MiOutputs; hide Store;
    if k > 0 {
      MemAtPrefix(ops, p, cfg, gs, g, inps, k - 1);
      assert (gs + [g])[k - 1] == gs[k - 1];
    }
  }

  // ----- all multi-instructions -----

  /** The memory before multi-instruction `k` of the running program `p`, whose serialized form is `mis`. */
  ghost predicate Reached(e: Element, exec: seq<Byte>, ekey: seq<Byte>, ops: Ops, p: Program, cfg: Config, key: Key, mis: seq<Mi>,
                      gs: seq<seq<Word>>, inps: seq<Word>, k: nat, cells: seq<seq<Byte>>)
  {
    && Running(e, p, cfg, key, exec, ekey) && cfg.lout >= 1 && AllShaped(p, cfg) && AllMisOk(p, cfg, |p.instrs|)
    && mis == MisFor(p, cfg, key, |p.instrs|) && k <= |p.instrs| && k == |gs| && Files(gs, cfg.r) && |inps| == |p.inputs|
    && Sim(e, exec, ops, p, cfg, gs, inps, k, cells)
  }

  lemma AtParts(e: Element, exec: seq<Byte>, ekey: seq<Byte>, ops: Ops, p: Program, cfg: Config, key: Key, mis: seq<Mi>,
                gs: seq<seq<Word>>, inps: seq<Word>, k: nat, cells: seq<seq<Byte>>)
    requires Reached(e, exec, ekey, ops, p, cfg, key, mis, gs, inps, k, cells)
    ensures Running(e, p, cfg, key, exec, ekey) && cfg.lout >= 1 && AllShaped(p, cfg) && k <= |p.instrs| == |mis|
    ensures k == |gs| && Files(gs, cfg.r) && |inps| == |p.inputs| && Sim(e, exec, ops, p, cfg, gs, inps, k, cells)
    ensures k < |mis| ==> MiOkAt(p, cfg, k) && mis[k] == MiAt(p, cfg, key, k)
  {
    hide Running; hide AllShaped; hide Files; hide Sim; hide MiOkAt; hide MiAt;
  }

  lemma AtNext(e: Element, exec: seq<Byte>, ekey: seq<Byte>, ops: Ops, p: Program, cfg: Config, key: Key, mis: seq<Mi>,
               gs: seq<seq<Word>>, inps: seq<Word>, k: nat, cells: seq<seq<Byte>>, g: seq<Word>, after: seq<seq<Byte>>)
    requires Reached(e, exec, ekey, ops, p, cfg, key, mis, gs, inps, k, cells) && k < |p.instrs|
    requires cfg.lout >= 1 && AllShaped(p, cfg) && Files(gs + [g], cfg.r) && k == |gs| && |inps| == |p.inputs|
    requires Sim(e, exec, ops, p, cfg, gs + [g], inps, k + 1, after)
    ensures Reached(e, exec, ekey, ops, p, cfg, key, mis, gs + [g], inps, k + 1, after)
  {
    hide Running; hide AllShaped; hide Files; hide Sim; hide AllMisOk; hide MisFor;
  }

  /** One turn of the loop, seen from the program. */
  lemma TurnOpens(e: Element, exec: seq<Byte>, ekey: seq<Byte>, ops: Ops, p: Program, cfg: Config, key: Key, mis: seq<Mi>,
                  gs: seq<seq<Word>>, inps: seq<Word>, k: nat, cells: seq<seq<Byte>>)
    requires Reached(e, exec, ekey, ops, p, cfg, key, mis, gs, inps, k, cells) && k < |mis|
    ensures var mi := mis[k];
      && Addressed(mi.inps, |cells|) && Addressed(mi.outs, |cells|) && EvalFits(cfg, mi)
      && CanOpen(e, cfg, WidthOf(p.memoryCount), exec, ekey, mi, Gather(cells, mi.inps))
  {
    hide *;
    AtParts(e, exec, ekey, ops, p, cfg, key, mis, gs, inps, k, cells);
    StepOpens(e, exec, ekey, ops, p, cfg, key, gs, inps, k, cells);
    AddressedIs(mis[k].inps, |cells|);
    MakeCanOpen(e, cfg, WidthOf(p.memoryCount), exec, ekey, mis[k], Gather(cells, mis[k].inps), Codes(p.instrs[k].lls),
                Fetch(MemAt(ops, p, cfg, gs, inps, k), p.instrs[k].inputs));
  }

  lemma MakeCanOpen(e: Element, cfg: Config, lbm: nat, exec: seq<Byte>, ekey: seq<Byte>, mi: Mi, cx: seq<seq<Byte>>, codes: seq<Code>, vs: seq<Word>)
    requires EvalOpens(e, cfg, lbm, exec, ekey, mi, cx, codes, vs)
    ensures CanOpen(e, cfg, lbm, exec, ekey, mi, cx)
  {
    hide EvalOpens;
  }

  lemma TurnKeeps(e: Element, exec: seq<Byte>, ekey: seq<Byte>, ops: Ops, p: Program, cfg: Config, key: Key, mis: seq<Mi>,
                  gs: seq<seq<Word>>, inps: seq<Word>, k: nat, cells: seq<seq<Byte>>,
                  g: seq<Word>, codes: seq<Code>, vs: seq<Word>, cr: seq<seq<Byte>>, after: seq<seq<Byte>>)
    requires Reached(e, exec, ekey, ops, p, cfg, key, mis, gs, inps, k, cells) && k < |mis| && |g| == cfg.r
    requires MiRan(e, ops, cfg, WidthOf(p.memoryCount), exec, ekey, mis[k], cells, g, codes, vs, cr, after)
    ensures Reached(e, exec, ekey, ops, p, cfg, key, mis, gs + [g], inps, k + 1, after)
  {
    hide *;
    AtParts(e, exec, ekey, ops, p, cfg, key, mis, gs, inps, k, cells);
    StepKeeps(e, exec, ekey, ops, p, cfg, key, gs, inps, k, cells, g, codes, vs, cr, after);
    AtNext(e, exec, ekey, ops, p, cfg, key, mis, gs, inps, k, cells, g, after);
  }

  ghost predicate Consistent(mis: seq<Mi>) {
    forall k :: 0 <= k < |mis| ==> |mis[k].ids| == |mis[k].inps|
  }

  /** Step 4: all multi-instructions. When the memory simulates a runnable program, none fails. */
  method RunAll(e: Element, ops: Ops, cfg: Config, lbm: nat, exec: seq<Byte>, ekey: seq<Byte>, mis: seq<Mi>, memory: array<seq<Byte>>,
                ghost p: Program, ghost key: Key, ghost inps: seq<Word>)
    returns (ok: bool, ghost gs: seq<seq<Word>>)
    requires Consistent(mis)
    modifies memory
    ensures lbm == WidthOf(p.memoryCount) && Reached(e, exec, ekey, ops, p, cfg, key, mis, [], inps, 0, old(memory[..])) ==>
      ok && Reached(e, exec, ekey, ops, p, cfg, key, mis, gs, inps, |mis|, memory[..])
  {
    hide *;
    ghost var linked := lbm == WidthOf(p.memoryCount) && Reached(e, exec, ekey, ops, p, cfg, key, mis, [], inps, 0, memory[..]);
    gs := [];
    for k := 0 to |mis|
      invariant linked ==> lbm == WidthOf(p.memoryCount) && Reached(e, exec, ekey, ops, p, cfg, key, mis, gs, inps, k, memory[..])
    {
      ghost var cells := memory[..];
      if linked { TurnOpens(e, exec, ekey, ops, p, cfg, key, mis, gs, inps, k, cells); }
      ConsistentAt(mis, k);
      var done, g, codes, vs, cr := RunMi(e, ops, cfg, lbm, exec, ekey, mis[k], memory);
      if !done { return false, gs; }
      if linked { TurnKeeps(e, exec, ekey, ops, p, cfg, key, mis, gs, inps, k, cells, g, codes, vs, cr, memory[..]); }
      gs := gs + [g];
    }
    return true, gs;
  }

  lemma ConsistentAt(mis: seq<Mi>, k: nat)
    requires Consistent(mis) && k < |mis|
    ensures |mis[k].ids| == |mis[k].inps|
  {
  }

  // ----- the outputs -----

  /** The program's outputs. */
  ghost function Results(ops: Ops, p: Program, cfg: Config, gs: seq<seq<Word>>, inps: seq<Word>): (r: seq<Word>)
    requires AllShaped(p, cfg) && |p.instrs| <= |gs| && Files(gs, cfg.r) && |inps| == |p.inputs|
    ensures |r| == |p.outputs|
  {
    Fetch(MemAt(ops, p, cfg, gs, inps, |p.instrs|), p.outputs)
  }

  /** A program output stands in clear in its cell. */
  lemma OutputCell(e: Element, exec: seq<Byte>, ekey: seq<Byte>, ops: Ops, p: Program, cfg: Config, key: Key, mis: seq<Mi>,
                   gs: seq<seq<Word>>, inps: seq<Word>, cells: seq<seq<Byte>>, i: nat)
    requires Reached(e, exec, ekey, ops, p, cfg, key, mis, gs, inps, |mis|, cells) && i < |p.outputs|
    ensures AllShaped(p, cfg) && |p.instrs| == |gs| && Files(gs, cfg.r) && |inps| == |p.inputs|
    ensures var o := p.outputs[i];
      o < |cells| && |cells[o]| == 20 && LoadU32(cells[o][..4]) == Some(Results(ops, p, cfg, gs, inps)[i])
  {
    hide *;
    AtParts(e, exec, ekey, ops, p, cfg, key, mis, gs, inps, |mis|, cells);
    var n := |p.instrs|;
    SimParts(e, exec, ops, p, cfg, gs, inps, n, cells);
    var o := p.outputs[i];
    var k := Producer(e, p, cfg, key, exec, ekey, o);
    OutputClear(p, k, n, o);
    ProducedNumbered(p, cfg.lout, k, n, o);
    ResultsIs(ops, p, cfg, gs, inps, i);
    ClearCell(e, exec, IdsAt(p, cfg.lout, n), ClearAt(p, n), MemAt(ops, p, cfg, gs, inps, n), cells, o);
  }

  lemma Producer(e: Element, p: Program, cfg: Config, key: Key, exec: seq<Byte>, ekey: seq<Byte>, o: nat) returns (k: nat)
    requires Running(e, p, cfg, key, exec, ekey) && o in p.outputs
    ensures k < |p.instrs| && Produces(p.instrs[k], o)
  {
    hide Serializable; hide AllShaped; hide ReadsHidden; hide KeyOpened; hide Produces;
    k :| 0 <= k < |p.instrs| && Produces(p.instrs[k], o);
  }

  lemma ResultsIs(ops: Ops, p: Program, cfg: Config, gs: seq<seq<Word>>, inps: seq<Word>, i: nat)
    requires AllShaped(p, cfg) && |p.instrs| <= |gs| && Files(gs, cfg.r) && |inps| == |p.inputs| && i < |p.outputs|
    ensures var mem := MemAt(ops, p, cfg, gs, inps, |p.instrs|);
      p.outputs[i] in mem ==> Results(ops, p, cfg, gs, inps)[i] == mem[p.outputs[i]]
  {
    hide MemAt; hide Files; hide AllShaped;
  }

  lemma ClearCell(e: Element, exec: seq<Byte>, ids: map<nat, Id>, clear: set<nat>, mem: Memory, cells: seq<seq<Byte>>, o: nat)
    requires Matches(e, exec, ids, clear, mem, cells) && o in ids && o in clear
    ensures o in mem && o < |cells| && |cells[o]| == 20 && LoadU32(cells[o][..4]) == Some(mem[o])
  {
    hide EncWord; hide ToBytes; hide LoadU32;
    assert Holds(e, exec, ids[o], true, mem[o], cells[o]);
    WordRoundTrip(e, exec, ids[o], mem[o]);
  }

  lemma {:induction false} OutputNumbered(ids: map<nat, Id>, outs: seq<nat>, instrId: nat, j: nat, o: nat)
    requires j <= |outs| && (o in ids || o in outs[..j])
    ensures o in OutputIds(ids, outs, instrId, j)
    decreases j
  {
    if j > 0 && o != outs[j - 1] {
      assert outs[..j] == outs[..j - 1] + [outs[j - 1]];
      OutputNumbered(ids, outs, instrId, j - 1, o);
    }
  }

  /** A cell that some multi-instruction writes has an ID from then on. */
  lemma {:induction false} ProducedNumbered(p: Program, lout: nat, k: nat, n: nat, o: nat)
    requires lout >= 1 && k < n <= |p.instrs| && Produces(p.instrs[k], o)
    ensures o in IdsAt(p, lout, n)
    decreases n
  {
    hide OutputIds; hide InstrId;
    if k < n - 1 { ProducedNumbered(p, lout, k, n - 1, o); }
    var outs := p.instrs[n - 1].outputs;
    assert outs[..|outs|] == outs;
    OutputNumbered(IdsAt(p, lout, n - 1), outs, InstrId(p, lout, n - 1), |outs|, o);
  }

  /** The outputs are read from the first bytes of their cells. */
  method ReadOutputs(memory: array<seq<Byte>>, outs: seq<nat>) returns (r: Option<seq<Word>>)
    ensures r.Some? ==> |r.value| == |outs|
    ensures forall ws: seq<Word> :: |ws| == |outs| && AllRead(memory[..], outs, ws) ==> r == Some(ws)
  {
    hide LoadU32;
    var got: seq<Word> := [];
    for i := 0 to |outs|
      invariant |got| == i
      invariant forall ws: seq<Word> :: |ws| == |outs| && AllRead(memory[..], outs, ws) ==> ws[..i] == got
    {
      var m := outs[i];
      if m >= memory.Length || |memory[m]| < 4 { return None; }
      var w := LoadU32(memory[m][..4]);
      if w.None? { return None; }
      forall ws: seq<Word> | |ws| == |outs| && AllRead(memory[..], outs, ws) ensures ws[..i + 1] == got + [w.value] {
        assert ReadAs(memory[..], outs[i], ws[i]);
        assert ws[..i + 1] == ws[..i] + [ws[i]];
      }
      got := got + [w.value];
    }
    forall ws: seq<Word> | |ws| == |outs| && AllRead(memory[..], outs, ws) ensures ws == got {
      assert ws[..|outs|] == ws;
    }
    return Some(got);
  }

  ghost predicate ReadAs(cells: seq<seq<Byte>>, m: nat, w: Word) {
    m < |cells| && |cells[m]| >= 4 && LoadU32(cells[m][..4]) == Some(w)
  }

  ghost predicate AllRead(cells: seq<seq<Byte>>, outs: seq<nat>, ws: seq<Word>)
    requires |ws| == |outs|
  {
    forall i :: 0 <= i < |outs| ==> ReadAs(cells, outs[i], ws[i])
  }

  // ----- the whole run -----

  /** The bytecode is what `serialize` wrote for `p`, and its header opens. */
  ghost predicate Linked(e: Element, cfg: Config, bytecode: seq<Byte>, inps: seq<Word>, p: Program, key: Key, sealedKey: seq<Byte>) {
    && Runnable(p, cfg) && |sealedKey| == 64 && e.open(sealedKey) == Some(key) && |inps| == |p.inputs|
    && bytecode == ProgramBytes(p, cfg, key, sealedKey)
  }

  /** What the parser sees. */
  ghost predicate Parses(cfg: Config, bytecode: seq<Byte>, p: Program, key: Key, sealedKey: seq<Byte>)
    requires Serializable(p, cfg)
  {
    var lbm := WidthOf(p.memoryCount);
    && ReadNums(bytecode, 0, 4, 7) == Ok(Meta(p, cfg), 28)
    && |bytecode| >= 92 + lbm && bytecode[28..92] == sealedKey && bytecode[92..92 + lbm] == ToBytes(|p.inputs|, lbm)
    && ReadListing(bytecode, 92, lbm, cfg.LbO()) == Ok(ListingFor(p, cfg, key), |bytecode|)
    && LoadU32(ToBytes(|p.inputs|, lbm)) == Some(|p.inputs|) && |p.inputs| < 0x100_0000
  }

  lemma LinkedParts(e: Element, cfg: Config, bytecode: seq<Byte>, inps: seq<Word>, p: Program, key: Key, sealedKey: seq<Byte>)
    requires Linked(e, cfg, bytecode, inps, p, key, sealedKey)
    ensures Runnable(p, cfg) && Serializable(p, cfg) && HeadOk(p, cfg) && |sealedKey| == 64 && e.open(sealedKey) == Some(key)
    ensures |inps| == |p.inputs| && bytecode == ProgramBytes(p, cfg, key, sealedKey)
    ensures 2 <= cfg.lout <= 0x100_0000 && 2 <= p.memoryCount <= 0x100_0000 && CellsKnown(p.inputs, p.memoryCount)
    ensures forall i :: 0 <= i < 7 ==> Meta(p, cfg)[i] < Pow256(4)
  {
    hide AllShaped; hide ReadsHidden; hide OutputsProduced; hide AllMisOk; hide ProgramBytes; hide CellsKnown; hide Pow256;
  }

  lemma CountFits(p: Program)
    requires 2 <= p.memoryCount <= 0x100_0000 && CellsKnown(p.inputs, p.memoryCount)
    ensures var lbm := WidthOf(p.memoryCount);
      1 <= lbm <= 3 && |p.inputs| < Pow256(lbm) && |p.inputs| < 0x100_0000 && LoadU32(ToBytes(|p.inputs|, lbm)) == Some(|p.inputs|)
  {
    hide WidthOf; hide Pow256; hide ToBytes; hide LoadU32; hide FromBytes;
    var lbm := WidthOf(p.memoryCount);
    WidthFits(p.memoryCount);
    Pow256Of3();
    Pow256Monotone(lbm, 3);
    FromToBytes(|p.inputs|, lbm);
    LoadU32Is(ToBytes(|p.inputs|, lbm));
  }

  lemma AtWhole(a: seq<Byte>, b: seq<Byte>)
    ensures At(a + b, 0, a) && At(a + b, |a|, b)
  {
    assert (a + b)[0..|a|] == a && (a + b)[|a|..|a| + |b|] == b;
  }

  lemma ListingHead(l: Listing, lbm: nat, lbo: nat)
    ensures var tail := NumsBytes(l.inps, lbm) + (ToBytes(|l.outs|, lbm) + (NumsBytes(l.outs, lbm) + (ToBytes(|l.mis|, 4) + MisBytes(l.mis, lbm, lbo))));
      ListingBytes(l, lbm, lbo) == ToBytes(|l.inps|, lbm) + tail
  {
    hide NumsBytes; hide ToBytes; hide MisBytes;
  }

  /** The parser gets back what was serialized, and stops at the end of the file. */
  lemma ParsesBack(e: Element, cfg: Config, bytecode: seq<Byte>, inps: seq<Word>, p: Program, key: Key, sealedKey: seq<Byte>)
    requires Linked(e, cfg, bytecode, inps, p, key, sealedKey)
    ensures Serializable(p, cfg) && Parses(cfg, bytecode, p, key, sealedKey)
  {
    hide *;
    LinkedParts(e, cfg, bytecode, inps, p, key, sealedKey);
    CountFits(p);
    var lbm, lbo := WidthOf(p.memoryCount), cfg.LbO();
    var l := ListingFor(p, cfg, key);
    var m := NumsBytes(Meta(p, cfg), 4);
    var body := ListingBytes(l, lbm, lbo);
    FileIs(p, cfg, key, sealedKey);
    AtWhole(m + sealedKey, body);
    AtSplit(bytecode, 0, m, sealedKey);
    MetaSize(p, cfg);
    ReadWrittenNums(bytecode, 0, 4, Meta(p, cfg));
    AtIs(bytecode, 28, sealedKey);
    ListingHead(l, lbm, lbo);
    var tail := NumsBytes(l.inps, lbm) + (ToBytes(|l.outs|, lbm) + (NumsBytes(l.outs, lbm) + (ToBytes(|l.mis|, 4) + MisBytes(l.mis, lbm, lbo))));
    AtSplit(bytecode, 92, ToBytes(|l.inps|, lbm), tail);
    AtIs(bytecode, 92, ToBytes(|l.inps|, lbm));
    ListingForFits(p, cfg, key);
    OutputWidth(cfg);
    ReadWrittenListing(bytecode, 92, lbm, lbo, l);
    MakeParses(cfg, bytecode, p, key, sealedKey);
  }

  lemma OutputWidth(cfg: Config)
    requires 2 <= cfg.lout <= 0x100_0000
    ensures 1 <= cfg.LbO() <= 3
  {
    hide WidthOf;
    WidthFits(cfg.lout);
  }

  lemma MetaSize(p: Program, cfg: Config)
    ensures |Meta(p, cfg)| == 7
  {
  }

  lemma FileIs(p: Program, cfg: Config, key: Key, sealedKey: seq<Byte>)
    requires Serializable(p, cfg)
    ensures ProgramBytes(p, cfg, key, sealedKey) ==
      NumsBytes(Meta(p, cfg), 4) + sealedKey + ListingBytes(ListingFor(p, cfg, key), WidthOf(p.memoryCount), cfg.LbO())
    ensures ListingFor(p, cfg, key).inps == p.inputs
  {
    hide Serializable; hide NumsBytes; hide ListingBytes; hide MisFor; hide AllMisOk;
  }

  lemma MakeParses(cfg: Config, bytecode: seq<Byte>, p: Program, key: Key, sealedKey: seq<Byte>)
    requires Serializable(p, cfg)
    requires var lbm := WidthOf(p.memoryCount);
      && ReadNums(bytecode, 0, 4, 7) == Ok(Meta(p, cfg), 28)
      && |bytecode| >= 92 + lbm && bytecode[28..92] == sealedKey && bytecode[92..92 + lbm] == ToBytes(|p.inputs|, lbm)
      && ReadListing(bytecode, 92, lbm, cfg.LbO()) == Ok(ListingFor(p, cfg, key), |bytecode|)
      && LoadU32(ToBytes(|p.inputs|, lbm)) == Some(|p.inputs|) && |p.inputs| < 0x100_0000
    ensures Parses(cfg, bytecode, p, key, sealedKey)
  {
    hide Serializable; hide ReadNums; hide Meta; hide ToBytes; hide ReadListing; hide ListingFor; hide LoadU32; hide WidthOf;
  }

  lemma {:induction false} ReadMisConsistent(code: seq<Byte>, pos: nat, lbm: nat, lbo: nat, n: nat)
    ensures ReadMis(code, pos, lbm, lbo, n).Ok? ==> Consistent(ReadMis(code, pos, lbm, lbo, n).value)
  {
    hide ReadUint; hide ReadNums; hide ReadIds;
    if n > 0 { ReadMisConsistent(code, pos, lbm, lbo, n - 1); }
  }

  lemma ListingConsistent(code: seq<Byte>, pos: nat, lbm: nat, lbo: nat)
    ensures ReadListing(code, pos, lbm, lbo).Ok? ==> Consistent(ReadListing(code, pos, lbm, lbo).value.mis)
  {
    hide ReadUint; hide ReadNums; hide ReadMis; hide Consistent;
    forall n: nat, q: nat ensures ReadMis(code, q, lbm, lbo, n).Ok? ==> Consistent(ReadMis(code, q, lbm, lbo, n).value) {
      ReadMisConsistent(code, q, lbm, lbo, n);
    }
  }

  lemma HeaderOpens(e: Element, cfg: Config, bytecode: seq<Byte>, inps: seq<Word>, p: Program, key: Key, sealedKey: seq<Byte>, header: seq<Byte>)
    requires Linked(e, cfg, bytecode, inps, p, key, sealedKey) && |bytecode| >= 92 + WidthOf(p.memoryCount)
    requires header == bytecode[28..92 + WidthOf(p.memoryCount)]
    ensures HeaderOk(e, header, inps, key) && |inps| < 0x100_0000
  {
    hide *;
    LinkedParts(e, cfg, bytecode, inps, p, key, sealedKey);
    ParsesBack(e, cfg, bytecode, inps, p, key, sealedKey);
    ParsesIs(cfg, bytecode, p, key, sealedKey);
    var lbm := WidthOf(p.memoryCount);
    assert header[..64] == bytecode[28..92] && header[64..] == bytecode[92..92 + lbm];
    MakeHeaderOk(e, header, inps, key);
  }

  lemma MakeHeaderOk(e: Element, header: seq<Byte>, inps: seq<Word>, key: Key)
    requires |header| >= 64 && e.open(header[..64]) == Some(key) && |inps| < 0x100_0000 && LoadU32(header[64..]) == Some(|inps|)
    ensures HeaderOk(e, header, inps, key)
  {
    hide LoadU32;
  }

  lemma ParsesIs(cfg: Config, bytecode: seq<Byte>, p: Program, key: Key, sealedKey: seq<Byte>)
    requires Serializable(p, cfg) && Parses(cfg, bytecode, p, key, sealedKey)
    ensures var lbm := WidthOf(p.memoryCount);
      && ReadNums(bytecode, 0, 4, 7) == Ok(Meta(p, cfg), 28)
      && |bytecode| >= 92 + lbm && bytecode[28..92] == sealedKey && bytecode[92..92 + lbm] == ToBytes(|p.inputs|, lbm)
      && ReadListing(bytecode, 92, lbm, cfg.LbO()) == Ok(ListingFor(p, cfg, key), |bytecode|)
      && LoadU32(ToBytes(|p.inputs|, lbm)) == Some(|p.inputs|) && |p.inputs| < 0x100_0000
  {
    hide Serializable; hide ReadNums; hide Meta; hide ToBytes; hide ReadListing; hide ListingFor; hide LoadU32; hide WidthOf;
  }

  lemma MetaIs(p: Program, cfg: Config)
    ensures Meta(p, cfg) == [cfg.version, 32, cfg.lin, cfg.lout, cfg.r, cfg.s, p.memoryCount]
  {
  }

  lemma ListingIs(p: Program, cfg: Config, key: Key)
    requires Serializable(p, cfg)
    ensures var l := ListingFor(p, cfg, key);
      && l.inps == p.inputs && l.outs == p.outputs && cfg.lout >= 1 && AllMisOk(p, cfg, |p.instrs|) && l.mis == MisFor(p, cfg, key, |p.instrs|)
      && Addressed(p.inputs, p.memoryCount)
  {
    hide AllMisOk; hide MisFor; hide WidthOf; hide Pow256;
  }

  /** After the inputs are stored, the memory simulates the program before its first multi-instruction. */
  lemma InitiallyReached(e: Element, ops: Ops, cfg: Config, bytecode: seq<Byte>, inps: seq<Word>, p: Program, key: Key, sealedKey: seq<Byte>,
                         enc: Encrypted, mis: seq<Mi>, cells: seq<seq<Byte>>)
    requires Linked(e, cfg, bytecode, inps, p, key, sealedKey) && cfg.lout >= 1 && InputsDone(e, cfg.lout, inps, key, enc)
    requires |inps| < 0x100_0000 && |cells| == p.memoryCount && Addressed(p.inputs, |cells|)
    requires Serializable(p, cfg) && mis == ListingFor(p, cfg, key).mis
    ensures |inps| <= |enc.c|
    ensures |p.inputs| <= |enc.c| && Addressed(p.inputs, |cells|) &&
            Reached(e, enc.exec, enc.ekey, ops, p, cfg, key, mis, [], inps, 0, PutAll(cells, p.inputs, enc.c, |p.inputs|))
  {
    hide *;
    LinkedParts(e, cfg, bytecode, inps, p, key, sealedKey);
    DoneParts(e, cfg.lout, inps, key, enc);
    EnoughBatches(|inps|, cfg.lout);
    ListingIs(p, cfg, key);
    AddressedIs(p.inputs, |cells|);
    InputsMatch(e, enc.exec, p.inputs, inps, cfg.lout, cells, enc.c, |p.inputs|);
    MakeRunning(e, p, cfg, key, enc.exec, enc.ekey);
    RunningParts(e, p, cfg, key, enc.exec, enc.ekey, 0);
    NoFiles(cfg.r);
    StartState(ops, p, cfg, inps);
    var after := PutAll(cells, p.inputs, enc.c, |p.inputs|);
    SimParts(e, enc.exec, ops, p, cfg, [], inps, 0, after);
    MakeReached(e, enc.exec, enc.ekey, ops, p, cfg, key, mis, [], inps, 0, after);
  }

  lemma DoneParts(e: Element, lout: nat, inps: seq<Word>, key: Key, r: Encrypted)
    requires lout >= 1 && |inps| < 0x100_0000 && InputsDone(e, lout, inps, key, r)
    ensures KeyOpened(e, r.exec, r.ekey) == Some(key) && |r.c| == lout * BatchCount(|inps|, lout) && CellsFrom(e, r.exec, inps, lout, 0, r.c)
  {
    hide KeyOpened; hide BatchCount; hide CellsFrom;
  }

  lemma MakeRunning(e: Element, p: Program, cfg: Config, key: Key, exec: seq<Byte>, ekey: seq<Byte>)
    requires Runnable(p, cfg) && KeyOpened(e, exec, ekey) == Some(key)
    ensures Running(e, p, cfg, key, exec, ekey)
  {
    hide Runnable; hide KeyOpened;
  }

  lemma NoFiles(r: nat)
    ensures Files([], r)
  {
  }

  lemma StartState(ops: Ops, p: Program, cfg: Config, inps: seq<Word>)
    requires cfg.lout >= 1 && AllShaped(p, cfg) && Files([], cfg.r) && |inps| == |p.inputs|
    ensures IdsAt(p, cfg.lout, 0) == InputIds(p.inputs, cfg.lout, |p.inputs|) && ClearAt(p, 0) == {}
    ensures MemAt(ops, p, cfg, [], inps, 0) == Store(map[], p.inputs, inps, |inps|)
  {
    hide AllShaped; hide Store; hide InputIds;
  }

  lemma MakeReached(e: Element, exec: seq<Byte>, ekey: seq<Byte>, ops: Ops, p: Program, cfg: Config, key: Key, mis: seq<Mi>,
                    gs: seq<seq<Word>>, inps: seq<Word>, k: nat, cells: seq<seq<Byte>>)
    requires Running(e, p, cfg, key, exec, ekey) && cfg.lout >= 1 && AllShaped(p, cfg) && AllMisOk(p, cfg, |p.instrs|)
    requires mis == MisFor(p, cfg, key, |p.instrs|) && k <= |p.instrs| && k == |gs| && Files(gs, cfg.r) && |inps| == |p.inputs|
    requires Sim(e, exec, ops, p, cfg, gs, inps, k, cells)
    ensures Reached(e, exec, ekey, ops, p, cfg, key, mis, gs, inps, k, cells)
  {
    hide Running; hide AllShaped; hide AllMisOk; hide MisFor; hide Files; hide Sim;
  }

  lemma AllOutputsRead(e: Element, exec: seq<Byte>, ekey: seq<Byte>, ops: Ops, p: Program, cfg: Config, key: Key, mis: seq<Mi>,
                       gs: seq<seq<Word>>, inps: seq<Word>, cells: seq<seq<Byte>>)
    requires Reached(e, exec, ekey, ops, p, cfg, key, mis, gs, inps, |mis|, cells)
    ensures AllShaped(p, cfg) && |p.instrs| == |gs| && Files(gs, cfg.r) && |inps| == |p.inputs|
    ensures AllRead(cells, p.outputs, Results(ops, p, cfg, gs, inps))
  {
    hide *;
    AtParts(e, exec, ekey, ops, p, cfg, key, mis, gs, inps, |mis|, cells);
    var ws := Results(ops, p, cfg, gs, inps);
    forall i | 0 <= i < |p.outputs| ensures ReadAs(cells, p.outputs[i], ws[i]) {
      OutputCell(e, exec, ekey, ops, p, cfg, key, mis, gs, inps, cells, i);
      MakeReadAs(cells, p.outputs[i], ws[i]);
    }
    MakeAllRead(cells, p.outputs, ws);
  }

  lemma MakeReadAs(cells: seq<seq<Byte>>, m: nat, w: Word)
    requires m < |cells| && |cells[m]| >= 4 && LoadU32(cells[m][..4]) == Some(w)
    ensures ReadAs(cells, m, w)
  {
    hide LoadU32;
  }

  lemma MakeAllRead(cells: seq<seq<Byte>>, outs: seq<nat>, ws: seq<Word>)
    requires |ws| == |outs| && forall i :: 0 <= i < |outs| ==> ReadAs(cells, outs[i], ws[i])
    ensures AllRead(cells, outs, ws)
  {
    hide ReadAs;
  }

  /** The parsed program, its memory size, and the header; `None` where the C code exits. */
  method ParseFile(cfg: Config, bytecode: seq<Byte>, inpCount: nat, outCount: nat) returns (r: Option<(Listing, nat, seq<Byte>)>)
    ensures r.Some? ==> Consistent(r.value.0.mis) && |r.value.0.inps| == inpCount && |r.value.0.outs| == outCount && |r.value.2| >= 64
    ensures forall p, key, sealedKey ::
      Serializable(p, cfg) && Parses(cfg, bytecode, p, key, sealedKey) && inpCount == |p.inputs| && outCount == |p.outputs| ==>
        r == Some((ListingFor(p, cfg, key), p.memoryCount, bytecode[28..92 + WidthOf(p.memoryCount)]))
  {
    hide *;
    forall p, key, sealedKey | Serializable(p, cfg) && Parses(cfg, bytecode, p, key, sealedKey)
      ensures |bytecode| >= 92 + WidthOf(p.memoryCount) && ReadNums(bytecode, 0, 4, 7) == Ok(Meta(p, cfg), 28)
      ensures ReadListing(bytecode, 92, WidthOf(p.memoryCount), cfg.LbO()) == Ok(ListingFor(p, cfg, key), |bytecode|)
      ensures Meta(p, cfg) == [cfg.version, 32, cfg.lin, cfg.lout, cfg.r, cfg.s, p.memoryCount]
      ensures |ListingFor(p, cfg, key).inps| == |p.inputs| && |ListingFor(p, cfg, key).outs| == |p.outputs|
    {
      ParsesIs(cfg, bytecode, p, key, sealedKey);
      MetaIs(p, cfg);
      ListingIs(p, cfg, key);
    }
    var cursor := new Cursor(bytecode);
    var meta := cursor.LoadNums(4, 7);
    GivesIs(ReadNums(bytecode, 0, 4, 7), meta, cursor.bcptr);
    if meta.None? || cursor.bcptr != 28 { return None; }
    var memoryCount := meta.value[6];
    if meta.value != [cfg.version, 32, cfg.lin, cfg.lout, cfg.r, cfg.s, memoryCount] { return None; }
    var lbm := WidthOf(memoryCount);
    cursor.bcptr := cursor.bcptr + 64;
    var listing := cursor.LoadListing(lbm, cfg.LbO());
    GivesIs(ReadListing(bytecode, 92, lbm, cfg.LbO()), listing, cursor.bcptr);
    ListingConsistent(bytecode, 92, lbm, cfg.LbO());
    if listing.None? || cursor.bcptr != |bytecode| || 92 + lbm > |bytecode| { return None; }
    if |listing.value.inps| != inpCount || |listing.value.outs| != outCount { return None; }
    return Some((listing.value, memoryCount, bytecode[28..92 + lbm]));
  }

  lemma GivesIs<T(!new)>(p: Parsed<T>, r: Option<T>, pos: nat)
    requires Gives(p, r, pos)
    ensures p.Fail? ==> r.None?
    ensures p.Ok? ==> r == Some(p.value) && pos == p.pos
  {
  }

  /** The program's outputs, for some contents of the registers when they were allocated. */
  ghost predicate IsResult(ops: Ops, p: Program, cfg: Config, inps: seq<Word>, r: Option<seq<Word>>) {
    exists gs: seq<seq<Word>> :: ResultFor(ops, p, cfg, gs, inps, r)
  }

  ghost predicate ResultFor(ops: Ops, p: Program, cfg: Config, gs: seq<seq<Word>>, inps: seq<Word>, r: Option<seq<Word>>) {
    AllShaped(p, cfg) && |gs| == |p.instrs| && Files(gs, cfg.r) && |inps| == |p.inputs| && r == Some(Results(ops, p, cfg, gs, inps))
  }

  lemma MakeResult(ops: Ops, p: Program, cfg: Config, gs: seq<seq<Word>>, inps: seq<Word>)
    requires AllShaped(p, cfg) && |gs| == |p.instrs| && Files(gs, cfg.r) && |inps| == |p.inputs|
    ensures IsResult(ops, p, cfg, inps, Some(Results(ops, p, cfg, gs, inps)))
  {
    hide AllShaped; hide Files; hide Results;
    assert ResultFor(ops, p, cfg, gs, inps, Some(Results(ops, p, cfg, gs, inps)));
  }

  /** `interpret`: on what `serialize` wrote for a runnable program, no decryption fails, and the outputs are those
      of the program, whatever the registers held when they were allocated. */
  method Interpret(e: Element, ops: Ops, cfg: Config, bytecode: seq<Byte>, inps: seq<Word>, outCount: nat,
                   ghost p: Program, ghost key: Key, ghost sealedKey: seq<Byte>)
    returns (r: Option<seq<Word>>)
    requires cfg.lout >= 1 && |inps| < 0x1_0000_0000
    ensures Linked(e, cfg, bytecode, inps, p, key, sealedKey) && outCount == |p.outputs| ==> IsResult(ops, p, cfg, inps, r)
  {
    hide *;
    ghost var linked := Linked(e, cfg, bytecode, inps, p, key, sealedKey) && outCount == |p.outputs|;
    var file := ParseFile(cfg, bytecode, |inps|, outCount);
    if linked {
      LinkedParts(e, cfg, bytecode, inps, p, key, sealedKey);
      ParsesBack(e, cfg, bytecode, inps, p, key, sealedKey);
      ParsesIs(cfg, bytecode, p, key, sealedKey);
      HeaderOpens(e, cfg, bytecode, inps, p, key, sealedKey, file.value.2);
      ListingIs(p, cfg, key);
    }
    if file.None? { return None; }
    var listing, memoryCount, header := file.value.0, file.value.1, file.value.2;
    var enc := EncryptInputs(e, cfg.lout, header, inps);
    if enc.None? { return None; }
    var memory := new seq<Byte>[memoryCount];
    if linked { InitiallyReached(e, ops, cfg, bytecode, inps, p, key, sealedKey, enc.value, listing.mis, memory[..]); }
    var known := InBounds(listing.inps, memoryCount);
    if !known || |listing.inps| > |enc.value.c| { return None; }
    Save(memory, listing.inps, enc.value.c);
    var ok;
    ghost var gs;
    ok, gs := RunAll(e, ops, cfg, WidthOf(memoryCount), enc.value.exec, enc.value.ekey, listing.mis, memory, p, key, inps);
    if !ok { return None; }
    if linked { AllOutputsRead(e, enc.value.exec, enc.value.ekey, ops, p, cfg, key, listing.mis, gs, inps, memory[..]); }
    r := ReadOutputs(memory, listing.outs);
    if linked { MakeResult(ops, p, cfg, gs, inps); }
  }

  /** The compiler's file, interpreted: a runnable program is written, and running the file gives the program's outputs. */
  method SerializeAndInterpret(e: Element, ops: Ops, cfg: Config, p: Program, key: Key, sealedKey: seq<Byte>, inps: seq<Word>)
    returns (r: Option<seq<Word>>)
    requires Runnable(p, cfg) && |sealedKey| == 64 && e.open(sealedKey) == Some(key) && |inps| == |p.inputs| && |inps| < 0x1_0000_0000
    ensures IsResult(ops, p, cfg, inps, r)
  {
    hide *;
    RunnableParts(p, cfg);
    var file := Serialize(p, cfg, key, sealedKey);
    MakeLinked(e, cfg, inps, p, key, sealedKey);
    r := Interpret(e, ops, cfg, file.value, inps, |p.outputs|, p, key, sealedKey);
  }

  lemma RunnableParts(p: Program, cfg: Config)
    requires Runnable(p, cfg)
    ensures Serializable(p, cfg) && cfg.lout >= 1
  {
    hide Serializable; hide AllShaped; hide ReadsHidden; hide OutputsProduced;
  }

  lemma MakeLinked(e: Element, cfg: Config, inps: seq<Word>, p: Program, key: Key, sealedKey: seq<Byte>)
    requires Runnable(p, cfg) && Serializable(p, cfg) && |sealedKey| == 64 && e.open(sealedKey) == Some(key) && |inps| == |p.inputs|
    ensures Linked(e, cfg, ProgramBytes(p, cfg, key, sealedKey), inps, p, key, sealedKey)
  {
    hide Runnable; hide Serializable; hide ProgramBytes;
  }
}
