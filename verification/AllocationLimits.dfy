/** Two inputs on which the linear-scan allocator of compiler/src/lowering/reg_alloc.py hands out a register that is still
    needed: the conditions `Exposed` and `Safe` are met by real multi-instructions. */
module AllocationLimits {
  import opened IR
  import opened RegAlloc

  /** `10 := 0 + 1; 11 := 10 ^ 0; 12 := 11 & 1`, with outputs 10 and 12. */
  ghost function ReadOutput(): Problem {
    Problem([Instr(ADD, 10, Loc(0), Loc(1), Absent), Instr(XOR, 11, Loc(10), Loc(0), Absent), Instr(AND, 12, Loc(11), Loc(1), Absent)],
            [0, 1], [10, 12], 5, 2)
  }

  lemma ReadOutputUses()
    ensures UsedInputs(ReadOutput()) == {0, 1} && FirstIndex([0, 1], 0) == 0 && FirstIndex([0, 1], 1) == 1
  {
    var p := ReadOutput();
    assert p.instrs[0].Reads(0) && p.instrs[0].Reads(1);
    assert LastRead(p.instrs, 0) >= 0 && LastRead(p.instrs, 1) >= 0;
    forall m ensures m in UsedInputs(p) <==> m in {0, 1} { }
  }

  lemma ReadOutputWellFormed()
    ensures WellFormed(ReadOutput(), 2)
  {
    ReadOutputUses();
    var p := ReadOutput();
    hide LastRead; hide UsedInputs; hide FirstIndex;
    assert Defines(p.instrs, 10, 1) by { assert p.instrs[0].dst == 10; }
    assert Defines(p.instrs, 11, 2) by { assert p.instrs[1].dst == 11; }
    assert Defines(p.instrs, 10, 3) by { assert p.instrs[0].dst == 10; }
    assert Defines(p.instrs, 12, 3) by { assert p.instrs[2].dst == 12; }
    hide Defines;
    assert |{0, 1}| == 2;
  }

  lemma ReadOutputEnough()
    ensures Enough(ReadOutput(), 2)
  {
    var p := ReadOutput();
    hide Freed;
    assert FreeCount(p, 2, 0) == 1;
    assert FreeCount(p, 2, 1) == 1 + |Freed(p, 2, 0)|;
    forall i | 0 <= i < |p.instrs| && p.instrs[i].dst !in p.outputs ensures FreeCount(p, 2, i) + |Freed(p, 2, i)| > 0 { assert i == 1; }
  }

  /** Output 10 is read by the second instruction, which defines a variable that is no output: for some choice of registers
      the output is lost. */
  lemma OutputCanBeLost() returns (run: seq<State>)
    ensures WellFormed(ReadOutput(), 2) && IsRun(ReadOutput(), 2, run) && |run| == 4 && Overwritten(ReadOutput(), run[3].regs, 0, 10)
  {
    var p := ReadOutput();
    ReadOutputWellFormed();
    ReadOutputEnough();
    assert LastRead(p.instrs, 10) == 1 by { assert p.instrs[1].Reads(10); }
    assert p.instrs[1].dst !in p.outputs;
    assert Exposed(p, 10);
    run := ExposedCanBeOverwritten(p, 2, 0, 0);
  }

  /** `10 := 1; 11 := 10 + 0`, with inputs 9, which is not used, and 0. */
  ghost function UnusedFirst(): Problem {
    Problem([Instr(MOV, 10, Imm(1), Absent, Absent), Instr(ADD, 11, Loc(10), Loc(0), Absent)], [9, 0], [11], 3, 1)
  }

  lemma UnusedFirstUses()
    ensures UsedInputs(UnusedFirst()) == {0} && FirstIndex([9, 0], 0) == 1 && LastRead(UnusedFirst().instrs, 0) == 1
  {
    var p := UnusedFirst();
    assert p.instrs[1].Reads(0);
    forall m ensures m in UsedInputs(p) <==> m in {0} { }
  }

  /** The register of input 0 counts as free, and the first instruction is given it: in the mapping the allocator returns,
      variable 10 and input 0, which is read after 10 is written, share a register. */
  lemma InputCanBeLost() returns (run: seq<State>)
    ensures Regular(UnusedFirst(), 1) && IsRun(UnusedFirst(), 1, run) && |run| == 3 && Clash(UnusedFirst(), 0, run[2])
  {
    var p := UnusedFirst();
    UnusedFirstUses();
    hide LastRead; hide UsedInputs; hide FirstIndex;
    assert Defines(p.instrs, 10, 1) by { assert p.instrs[0].dst == 10; }
    assert Defines(p.instrs, 11, 2) by { assert p.instrs[1].dst == 11; }
    assert |{0}| == 1;
    assert Regular(p, 1) by { hide Defines; }
    UnpackedIs(p, 1, 0);
    assert 0 in Unpacked(p, 1) && p.instrs[0].dst !in p.outputs;
    assert !Safe(p, 1);
    var i;
    run, i := UnsafeCanClash(p, 1);
    OnlyFirst(i, run);
  }

  /** The second instruction defines an output, so it is not the one given the register, and cannot be stuck. */
  lemma OnlyFirst(i: nat, run: seq<State>)
    requires Regular(UnusedFirst(), 1) && IsRun(UnusedFirst(), 1, run) && |run| >= i + 2 && Clash(UnusedFirst(), i, run[|run| - 1]) && Ended(UnusedFirst(), 1, run)
    ensures i == 0 && |run| == 3
  {
    var p := UnusedFirst();
    hide Regular; hide IsRun; hide Step; hide LastRead;
    RunLength(p, 1, run);
    UnusedFirstUses();
    hide UsedInputs;
    assert i == 0;
    if |run| == 2 {
      RunMapped(p, 1, run, 1);
      assert p.outputs[0] == 11;
      CanStepWhen(p, 1, run[1]);
    }
  }
}
