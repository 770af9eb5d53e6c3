/** Encoding inverts disassembly: a word that reads as an instruction is that instruction's word, bit for bit. */
module Reassembly {
  import opened InstructionSet
  import opened CodeGenerator
  import opened Disassembly

  // ------------------------------------------------------------ the mnemonics' constants

  lemma BaseOpSound(op: bv32, f3: bv32)
    ensures FindROp(op, f3, 0).Some? ==>
              var e := ROpEncoding(FindROp(op, f3, 0).value); e.opcode == op && e.funct3 == f3 && e.funct7 == 0
  {
  }

  lemma MultiplyOpSound33(f3: bv32)
    ensures FindROp(0x33, f3, 1).Some? ==>
              var e := ROpEncoding(FindROp(0x33, f3, 1).value); e.opcode == 0x33 && e.funct3 == f3 && e.funct7 == 1
  {
  }

  lemma MultiplyOpSound(op: bv32, f3: bv32)
    ensures FindROp(op, f3, 1).Some? ==>
              var e := ROpEncoding(FindROp(op, f3, 1).value); e.opcode == op && e.funct3 == f3 && e.funct7 == 1
  {
    if op == 0x33 {
      MultiplyOpSound33(f3);
    } else if op == 0x3B {
    } else {
      assert FindROp(op, f3, 1).None?;
    }
  }

  lemma ROpSound(op: bv32, f3: bv32, f7: bv32)
    ensures FindROp(op, f3, f7).Some? ==>
              var e := ROpEncoding(FindROp(op, f3, f7).value); e.opcode == op && e.funct3 == f3 && e.funct7 == f7
  {
    if f7 == 0 {
      BaseOpSound(op, f3);
    } else if f7 == 1 {
      MultiplyOpSound(op, f3);
    } else if f7 == 0x20 {
    } else {
      assert FindROp(op, f3, f7).None?;
    }
  }

  lemma I1OpSound(op: bv32, f3: bv32)
    ensures FindI1Op(op, f3).Some? ==>
              var e := I1OpEncoding(FindI1Op(op, f3).value); e.opcode == op && e.funct3 == f3
  {
  }

  lemma I2OpSound(op: bv32, f3: bv32, f6: bv32)
    ensures FindI2Op(op, f3, f6).Some? ==>
              var e := I2OpEncoding(FindI2Op(op, f3, f6).value); e.opcode == op && e.funct3 == f3 && e.funct6 == f6
  {
  }

  lemma SOpSound(f3: bv32)
    ensures FindSOp(f3).Some? ==> var e := SOpEncoding(FindSOp(f3).value); e.opcode == 0x23 && e.funct3 == f3
  {
  }

  lemma BOpSound(f3: bv32)
    ensures FindBOp(f3).Some? ==> var e := BOpEncoding(FindBOp(f3).value); e.opcode == 0x63 && e.funct3 == f3
  {
  }

  lemma UOpSound(op: bv32)
    ensures FindUOp(op).Some? ==> UOpEncoding(FindUOp(op).value).opcode == op
  {
  }

  lemma CsrOpSound(f3: bv32)
    ensures FindCsrROp(f3).Some? ==>
              var e := CsrROpEncoding(FindCsrROp(f3).value); e.opcode == 0x73 && e.funct3 == f3
    ensures FindCsrIOp(f3).Some? ==>
              var e := CsrIOpEncoding(FindCsrIOp(f3).value); e.opcode == 0x73 && e.funct3 == f3
  {
  }

  lemma FdROpSound(f3: bv32, f7: bv32)
    ensures FindFdROp(f3, f7).Some? ==>
              var e := FdROpEncoding(FindFdROp(f3, f7).value); e.opcode == 0x53 && e.funct3 == f3 && e.funct7 == f7
  {
  }

  lemma FdR1OpSound(f7: bv32)
    ensures FindFdR1Op(f7).Some? ==> var e := FdR1OpEncoding(FindFdR1Op(f7).value); e.opcode == 0x53 && e.funct7 == f7
  {
  }

  lemma FdR2OpSound(f5: bv32, f7: bv32)
    ensures FindFdR2Op(f5, f7).Some? ==>
              var e := FdR2OpEncoding(FindFdR2Op(f5, f7).value); e.opcode == 0x53 && e.funct5 == f5 && e.funct7 == f7
  {
  }

  lemma FdR3OpSound(f3: bv32, f5: bv32, f7: bv32)
    ensures FindFdR3Op(f3, f5, f7).Some? ==>
              var e := FdR3OpEncoding(FindFdR3Op(f3, f5, f7).value);
              e.opcode == 0x53 && e.funct3 == f3 && e.funct5 == f5 && e.funct7 == f7
  {
  }

  lemma FdR4OpSound(op: bv32, f2: bv32)
    ensures FindFdR4Op(op, f2).Some? ==>
              var e := FdR4OpEncoding(FindFdR4Op(op, f2).value); e.opcode == op && e.funct2 == f2
  {
  }

  lemma FdMemorySound(f3: bv32)
    ensures FindFdIOp(f3).Some? ==> var e := FdIOpEncoding(FindFdIOp(f3).value); e.opcode == 0x07 && e.funct3 == f3
    ensures FindFdSOp(f3).Some? ==> var e := FdSOpEncoding(FindFdSOp(f3).value); e.opcode == 0x27 && e.funct3 == f3
  {
  }

  // ------------------------------------------------------------ the fields make up the word

  lemma Fields(w: bv32)
    ensures Reg(Rd(w)) && Reg(Rs1(w)) && Reg(Rs2(w)) && Reg(Rs3(w))
    ensures F3(w) < 8 && Shamt(w) < 64 && Csr(w) < 0x1000 && ImmU(w) < 0x10_0000
  {
  }

  lemma PackOfFields(w: bv32)
    ensures Pack(F7(w), Rs2(w), Rs1(w), F3(w), Rd(w), Op(w)) == w
  {
  }

  lemma FusedOfFields(w: bv32)
    ensures FusedWord(Rs3(w), F2(w), Rs2(w), Rs1(w), F3(w), Rd(w), Op(w)) == w
  {
  }

  lemma TopImmOfFields(w: bv32)
    ensures TopImm(ImmI(w), Rs1(w), F3(w), Rd(w), Op(w)) == w
  {
  }

  lemma CsrOfFields(w: bv32)
    ensures TopImm(Csr(w), Rs1(w), F3(w), Rd(w), Op(w)) == w
  {
  }

  lemma ShiftOfFields(w: bv32)
    ensures ShiftWord(F6(w), Shamt(w), Rs1(w), F3(w), Rd(w), Op(w)) == w
  {
  }

  lemma StoreOfFields(w: bv32)
    ensures StoreWord(ImmS(w), Rs2(w), Rs1(w), F3(w), Op(w)) == w
  {
  }

  lemma BranchOfFields(w: bv32)
    ensures BranchWord(ImmB(w), Rs2(w), Rs1(w), F3(w), Op(w)) == w
  {
  }

  lemma UpperOfFields(w: bv32)
    ensures UpperWord(ImmU(w), Rd(w), Op(w)) == w
  {
  }

  lemma JumpOfFields(w: bv32)
    ensures JumpWord(ImmJ(w), Rd(w), Op(w)) == w
  {
  }

  lemma ImmediateRanges(w: bv32)
    ensures Signed12(ImmI(w)) && Signed12(ImmS(w))
    ensures Signed13(ImmB(w)) && Even(ImmB(w))
  {
  }

  lemma JumpRange(w: bv32)
    ensures Signed21(ImmJ(w)) && Even(ImmJ(w))
  {
  }

  // ------------------------------------------------------------ word by word

  /** If w reads as an instruction, its operands are in range and w is its word. */
  predicate Reassembles(w: bv32) {
    Disassemble(w).Some? ==> InRange(Disassemble(w).value) && Encode(Disassemble(w).value) == w
  }

  lemma ReassemblesR(w: bv32)
    requires Op(w) == 0x33 || Op(w) == 0x3B || Op(w) == 0x2A
    ensures Reassembles(w)
  {
    hide Pack, Op, Rd, F3, Rs1, Rs2, F7, ROpEncoding, FindROp, Reg, DisassembleOpImm, DisassembleSystem, DisassembleFd;
    hide DisassembleFused;
    Fields(w);
    PackOfFields(w);
    ROpSound(Op(w), F3(w), F7(w));
  }

  lemma ReassemblesS(w: bv32)
    requires Op(w) == 0x23 || Op(w) == 0x3F
    ensures Reassembles(w)
  {
    hide StoreWord, Op, Rd, F3, Rs1, Rs2, F7, ImmS, SOpEncoding, FindSOp, Reg, Signed12;
    hide DisassembleOpImm, DisassembleSystem, DisassembleFd, DisassembleFused, EncodeS;
    Fields(w);
    StoreOfFields(w);
    ImmediateRanges(w);
    SOpSound(F3(w));
    if Disassemble(w).Some? { EncodeSIsStoreWord(Disassemble(w).value); }
  }

  // The opcodes whose words are read by a function of their own.

  lemma OwnReaders(w: bv32)
    ensures Op(w) == 0x13 || Op(w) == 0x1B ==> Disassemble(w) == DisassembleOpImm(w)
    ensures Op(w) == 0x73 ==> Disassemble(w) == DisassembleSystem(w)
    ensures Op(w) == 0x53 ==> Disassemble(w) == DisassembleFd(w)
    ensures Op(w) == 0x37 || Op(w) == 0x17 ==> Disassemble(w) == DisassembleUpper(w)
    ensures Op(w) == 0x07 ==> Disassemble(w) == DisassembleFdLoad(w)
    ensures Op(w) == 0x27 ==> Disassemble(w) == DisassembleFdStore(w)
    ensures Op(w) == 0x6F ==> Disassemble(w) == Some(Unit(Jal, Rd(w), 0, 0, ImmJ(w)))
  {
    hide Rd, ImmJ;
    hide Op, DisassembleOpImm, DisassembleSystem, DisassembleFd, DisassembleFused, DisassembleUpper;
    hide DisassembleFdLoad, DisassembleFdStore;
  }

  lemma ReassemblesOpImm(w: bv32)
    requires Op(w) == 0x13 || Op(w) == 0x1B
    requires F3(w) != 1 && F3(w) != 5
    ensures Reassembles(w)
  {
    hide TopImm, Op, Rd, F3, Rs1, F6, Shamt, ImmI, Reg, Signed12, I1OpEncoding, FindI1Op, FindI2Op, EncodeI1;
    OwnReaders(w);
    hide Disassemble;
    Fields(w);
    TopImmOfFields(w);
    ImmediateRanges(w);
    I1OpSound(Op(w), F3(w));
    if Disassemble(w).Some? { EncodeI1IsTopImm(Disassemble(w).value); }
  }

  lemma ReassemblesShift(w: bv32)
    requires Op(w) == 0x13 || Op(w) == 0x1B
    requires F3(w) == 1 || F3(w) == 5
    ensures Reassembles(w)
  {
    hide ShiftWord, Op, Rd, F3, Rs1, F6, Shamt, ImmI, Reg, I2OpEncoding, FindI2Op, FindI1Op, EncodeI2;
    OwnReaders(w);
    hide Disassemble;
    Fields(w);
    ShiftOfFields(w);
    I2OpSound(Op(w), F3(w), F6(w));
    if Disassemble(w).Some? { EncodeI2IsShiftWord(Disassemble(w).value); }
  }

  lemma ReassemblesLoad(w: bv32)
    requires Op(w) == 0x03 || Op(w) == 0x67
    ensures Reassembles(w)
  {
    hide TopImm, Op, Rd, F3, Rs1, ImmI, Reg, Signed12, I1OpEncoding, FindI1Op, EncodeI1;
    hide DisassembleOpImm, DisassembleSystem, DisassembleFd, DisassembleFused;
    Fields(w);
    TopImmOfFields(w);
    ImmediateRanges(w);
    I1OpSound(Op(w), F3(w));
    if Disassemble(w).Some? { EncodeI1IsTopImm(Disassemble(w).value); }
  }

  lemma ReassemblesFdLoad(w: bv32)
    requires Op(w) == 0x07
    ensures Reassembles(w)
  {
    hide TopImm, Op, Rd, F3, Rs1, ImmI, Reg, Signed12, FdIOpEncoding, FindFdIOp, EncodeI1, Disassemble;
    OwnReaders(w);
    Fields(w);
    TopImmOfFields(w);
    ImmediateRanges(w);
    FdMemorySound(F3(w));
    if Disassemble(w).Some? { EncodeI1IsTopImm(Disassemble(w).value); }
  }

  lemma ReassemblesFdS(w: bv32)
    requires Op(w) == 0x27
    ensures Reassembles(w)
  {
    hide StoreWord, Op, Rd, F3, Rs1, Rs2, ImmS, Reg, Signed12, FdSOpEncoding, FindFdSOp, EncodeS, Disassemble;
    OwnReaders(w);
    Fields(w);
    StoreOfFields(w);
    ImmediateRanges(w);
    FdMemorySound(F3(w));
    if Disassemble(w).Some? { EncodeSIsStoreWord(Disassemble(w).value); }
  }

  lemma ReassemblesCsrR(w: bv32)
    requires Op(w) == 0x73 && FindCsrROp(F3(w)).Some?
    ensures Reassembles(w)
  {
    hide TopImm, Op, Rd, F3, Rs1, Csr, Reg, CsrROpEncoding, FindCsrROp, FindCsrIOp, EncodeCsrR, Disassemble;
    OwnReaders(w);
    Fields(w);
    CsrOfFields(w);
    CsrOpSound(F3(w));
    CsrNotZero();
    EncodeCsrIsTopImm(Disassemble(w).value);
  }

  lemma ReassemblesSystem(w: bv32)
    requires Op(w) == 0x73 && FindCsrROp(F3(w)).None?
    ensures Reassembles(w)
  {
    hide TopImm, Op, Rd, F3, Rs1, Csr, Reg, FindCsrROp, CsrIOpEncoding, FindCsrIOp, EncodeCsrI, Disassemble;
    OwnReaders(w);
    Fields(w);
    CsrOfFields(w);
    CsrOpSound(F3(w));
    Rs1Small(w);
    if F3(w) == 0 {
      EcallWord();
    } else if Disassemble(w).Some? {
      EncodeCsrIsTopImm(Disassemble(w).value);
    }
  }

  lemma EcallWord()
    ensures Encode(Unit(Ecall, 0, 0, 0, 0)) == 0x73
  {
  }

  lemma CsrNotZero()
    ensures FindCsrROp(0).None?
  {
  }

  lemma Rs1Small(w: bv32)
    ensures Rs1(w) < 32
  {
  }

  lemma ReassemblesBranch(w: bv32)
    requires Op(w) == 0x63
    ensures Reassembles(w)
  {
    hide BranchWord, Op, Rd, F3, Rs1, Rs2, ImmB, Reg, Signed13, Even, BOpEncoding, FindBOp, EncodeB;
    hide DisassembleOpImm, DisassembleSystem, DisassembleFd, DisassembleFused;
    Fields(w);
    BranchOfFields(w);
    ImmediateRanges(w);
    BOpSound(F3(w));
    if Disassemble(w).Some? { EncodeBIsBranchWord(Disassemble(w).value); }
  }

  lemma ReassemblesUpper(w: bv32)
    requires Op(w) == 0x37 || Op(w) == 0x17
    ensures Reassembles(w)
  {
    hide UpperWord, Op, Rd, ImmU, Reg, UOpEncoding, FindUOp, EncodeU, Disassemble;
    OwnReaders(w);
    Fields(w);
    UpperOfFields(w);
    UOpSound(Op(w));
    if Disassemble(w).Some? { EncodeUIsUpperWord(Disassemble(w).value); }
  }

  lemma ReassemblesJump(w: bv32)
    requires Op(w) == 0x6F
    ensures Reassembles(w)
  {
    hide JumpWord, Op, Rd, ImmJ, Reg, Signed21, Even, EncodeJ, Disassemble;
    OwnReaders(w);
    Fields(w);
    JumpOfFields(w);
    JumpRange(w);
    EncodeJIsJumpWord(Disassemble(w).value);
  }

  lemma ReassemblesFd(w: bv32)
    requires Op(w) == 0x53 && FindFdROp(F3(w), F7(w)).Some?
    ensures Reassembles(w)
  {
    hide Pack, Op, Rd, F3, Rs1, Rs2, F7, Reg, FdROpEncoding, FindFdROp, FindFdR1Op, FindFdR2Op, FindFdR3Op;
    hide Disassemble;
    OwnReaders(w);
    Fields(w);
    PackOfFields(w);
    FdROpSound(F3(w), F7(w));
  }

  lemma ReassemblesFd1(w: bv32)
    requires Op(w) == 0x53 && FindFdROp(F3(w), F7(w)).None? && FindFdR1Op(F7(w)).Some?
    ensures Reassembles(w)
  {
    hide Pack, Op, Rd, F3, Rs1, Rs2, F7, Reg, FindFdROp, FdR1OpEncoding, FindFdR1Op, FindFdR2Op, FindFdR3Op;
    hide EncodeFdR1, Disassemble;
    OwnReaders(w);
    Fields(w);
    PackOfFields(w);
    FdR1OpSound(F7(w));
    EncodeFdIsPack(Disassemble(w).value);
  }

  lemma ReassemblesFd2(w: bv32)
    requires Op(w) == 0x53 && FindFdROp(F3(w), F7(w)).None? && FindFdR1Op(F7(w)).None?
    requires FindFdR2Op(Rs2(w), F7(w)).Some?
    ensures Reassembles(w)
  {
    hide Pack, Op, Rd, F3, Rs1, Rs2, F7, Reg, FindFdROp, FindFdR1Op, FdR2OpEncoding, FindFdR2Op, FindFdR3Op;
    hide EncodeFdR2, Disassemble;
    OwnReaders(w);
    Fields(w);
    PackOfFields(w);
    FdR2OpSound(Rs2(w), F7(w));
    EncodeFdIsPack(Disassemble(w).value);
  }

  lemma ReassemblesFd3(w: bv32)
    requires Op(w) == 0x53 && FindFdROp(F3(w), F7(w)).None? && FindFdR1Op(F7(w)).None?
    requires FindFdR2Op(Rs2(w), F7(w)).None?
    ensures Reassembles(w)
  {
    hide Pack, Op, Rd, F3, Rs1, Rs2, F7, Reg, FindFdROp, FindFdR1Op, FindFdR2Op, FdR3OpEncoding, FindFdR3Op;
    hide Disassemble;
    OwnReaders(w);
    Fields(w);
    PackOfFields(w);
    FdR3OpSound(F3(w), Rs2(w), F7(w));
  }

  lemma ReassemblesFused(w: bv32)
    requires Op(w) == 0x43 || Op(w) == 0x47 || Op(w) == 0x4B || Op(w) == 0x4F
    ensures Reassembles(w)
  {
    hide FusedWord, Op, Rd, F3, Rs1, Rs2, F2, Rs3, Reg, FdR4OpEncoding, FindFdR4Op, EncodeFdR4, Disassemble;
    Fields(w);
    FusedOfFields(w);
    FusedOpcode(w);
    FdR4OpSound(Op(w), F2(w));
    if Disassemble(w).Some? { EncodeFdR4IsFusedWord(Disassemble(w).value); }
  }

  lemma OtherOpcode(w: bv32)
    requires var op := Op(w);
             && op != 0x33 && op != 0x3B && op != 0x2A && op != 0x23 && op != 0x27 && op != 0x3F && op != 0x13
             && op != 0x1B && op != 0x03 && op != 0x67 && op != 0x07 && op != 0x73 && op != 0x63 && op != 0x37
             && op != 0x17 && op != 0x6F && op != 0x53 && op != 0x43 && op != 0x47 && op != 0x4B && op != 0x4F
    ensures Disassemble(w).None?
  {
    hide Op, DisassembleOpImm, DisassembleSystem, DisassembleFd, DisassembleFused;
  }

  /** Main result: a word that reads as an instruction is the word of that instruction, whose operands are in range. */
  lemma EncodeDisassemble(w: bv32)
    ensures Disassemble(w).Some? ==> InRange(Disassemble(w).value) && Encode(Disassemble(w).value) == w
  {
    hide Op, F3, F7, Rs2, FindFdROp, FindFdR1Op, FindFdR2Op, FindCsrROp, Disassemble, Encode, InRange;
    var op := Op(w);
    assert Reassembles(w) by {
      if op == 0x33 || op == 0x3B || op == 0x2A { ReassemblesR(w); }
      else if op == 0x23 || op == 0x3F { ReassemblesS(w); }
      else if op == 0x27 { ReassemblesFdS(w); }
      else if op == 0x13 || op == 0x1B {
        if F3(w) == 1 || F3(w) == 5 { ReassemblesShift(w); } else { ReassemblesOpImm(w); }
      }
      else if op == 0x03 || op == 0x67 { ReassemblesLoad(w); }
      else if op == 0x07 { ReassemblesFdLoad(w); }
      else if op == 0x73 { if FindCsrROp(F3(w)).Some? { ReassemblesCsrR(w); } else { ReassemblesSystem(w); } }
      else if op == 0x63 { ReassemblesBranch(w); }
      else if op == 0x37 || op == 0x17 { ReassemblesUpper(w); }
      else if op == 0x6F { ReassemblesJump(w); }
      else if op == 0x53 {
        if FindFdROp(F3(w), F7(w)).Some? { ReassemblesFd(w); }
        else if FindFdR1Op(F7(w)).Some? { ReassemblesFd1(w); }
        else if FindFdR2Op(Rs2(w), F7(w)).Some? { ReassemblesFd2(w); }
        else { ReassemblesFd3(w); }
      }
      else if op == 0x43 || op == 0x47 || op == 0x4B || op == 0x4F { ReassemblesFused(w); }
      else { OtherOpcode(w); }
    }
  }

  // ------------------------------------------------------------ where the fields stand

  predicate HasRd(op: Opcode) { !op.Bigmul? && !op.Ecall? && !op.S? && !op.Branch? && !op.FdS? }

  predicate HasRs1(op: Opcode) { !op.Ecall? && !op.U? && !op.Jal? && !op.CsrI? }

  predicate HasRs2(op: Opcode) {
    op.R? || op.Ldbm? || op.Bigmul? || op.S? || op.Branch? || op.FdR? || op.FdR1? || op.FdR4? || op.FdS?
  }

  predicate HasFunct3(op: Opcode) { !op.U? && !op.Jal? && !op.FdR1? && !op.FdR2? && !op.FdR4? }

  predicate HasFunct7(op: Opcode) { op.R? || op.Ldbm? || op.FdR? || op.FdR1? || op.FdR2? || op.FdR3? }

  /** The fixed fields and the register numbers stand where the machine's decoder takes them from. */
  predicate Placed(u: ICUnit) {
    var w, e := Encode(u), EncodingOf(u.op);
    && Op(w) == e.opcode && (HasRd(u.op) ==> Rd(w) == u.rd) && (HasFunct3(u.op) ==> F3(w) == e.funct3)
    && (HasRs1(u.op) ==> Rs1(w) == u.rs1) && (HasRs2(u.op) ==> Rs2(w) == u.rs2)
    && (HasFunct7(u.op) ==> F7(w) == e.funct7)
  }

  lemma Bounds(op: Opcode)
    ensures var e := EncodingOf(op);
            && e.opcode < 128 && (HasFunct3(op) ==> e.funct3 < 8) && (HasFunct7(op) ==> e.funct7 < 128)
            && (op.I2? ==> e.funct6 < 64) && (op.FdR2? || op.FdR3? ==> e.funct5 < 32) && (op.FdR4? ==> e.funct2 < 4)
  {
    hide ROpEncoding, I1OpEncoding, I2OpEncoding, SOpEncoding, BOpEncoding, UOpEncoding, CsrROpEncoding, CsrIOpEncoding;
    hide FdROpEncoding, FdR1OpEncoding, FdR2OpEncoding, FdR3OpEncoding, FdR4OpEncoding, FdIOpEncoding, FdSOpEncoding;
    hide FindROp, FindI1Op, FindI2Op, FindSOp, FindBOp, FindUOp, FindCsrROp, FindCsrIOp, FindFdROp, FindFdR1Op;
    hide FindFdR2Op, FindFdR3Op, FindFdR4Op, FindFdIOp, FindFdSOp;
    match op {
      case R(m) => ROpFound(m);
      case I1(m) => I1OpFound(m);
      case I2(m) => I2OpFound(m);
      case S(m) => SOpFound(m);
      case Branch(m) => BOpFound(m);
      case U(m) => UOpFound(m);
      case CsrR(m) => CsrROpFound(m);
      case CsrI(m) => CsrIOpFound(m);
      case FdR(m) => FdROpFound(m);
      case FdR1(m) => FdR1OpFound(m);
      case FdR2(m) => FdR2OpFound(m);
      case FdR3(m) => FdR3OpFound(m);
      case FdR4(m) => FdR4OpFound(m);
      case FdI(m) => FdIOpFound(m);
      case FdS(m) => FdSOpFound(m);
      case _ =>
    }
  }

  lemma PlacedPack(u: ICUnit)
    requires InRange(u)
    requires u.op.R? || u.op.Ldbm? || u.op.FdR? || u.op.FdR1? || u.op.FdR2? || u.op.FdR3?
    ensures Placed(u)
  {
    hide Pack, Op, Rd, F3, Rs1, Rs2, F7, EncodingOf, EncodeFdR1, EncodeFdR2;
    Bounds(u.op);
    var e := EncodingOf(u.op);
    if u.op.FdR1? || u.op.FdR2? { EncodeFdIsPack(u); }
    var f3 := if u.op.FdR1? || u.op.FdR2? then u.rm else e.funct3;
    var rs2 := if u.op.FdR2? || u.op.FdR3? then e.funct5 else u.rs2;
    PackFields(e.funct7, rs2, u.rs1, f3, u.rd, e.opcode);
  }

  lemma PlacedTopImm(u: ICUnit)
    requires InRange(u)
    requires u.op.I1? || u.op.FdI? || u.op.CsrR? || u.op.CsrI?
    ensures Placed(u)
  {
    hide TopImm, Op, Rd, F3, Rs1, Rs2, F7, EncodingOf, EncodeI1, EncodeCsrR, EncodeCsrI, Signed12, ImmI;
    Bounds(u.op);
    var e := EncodingOf(u.op);
    EncodeI1IsTopImm(u);
    EncodeCsrIsTopImm(u);
    var imm := if u.op.CsrR? || u.op.CsrI? then u.csr else u.imm;
    TopImmFields(imm, if u.op.CsrI? then u.imm else u.rs1, e.funct3, u.rd, e.opcode);
  }

  lemma PlacedSplit(u: ICUnit)
    requires InRange(u)
    requires u.op.S? || u.op.FdS? || u.op.Bigmul? || u.op.Branch? || u.op.I2?
    ensures Placed(u)
  {
    hide StoreWord, BranchWord, ShiftWord, Op, Rd, F3, Rs1, Rs2, F7, EncodingOf, EncodeS, EncodeB, EncodeI2;
    hide Signed12, Signed13, Even, ImmS, Shamt, F6;
    Bounds(u.op);
    var e := EncodingOf(u.op);
    if u.op.Branch? {
      EncodeBIsBranchWord(u);
      BranchFields(u.imm, u.rs2, u.rs1, e.funct3, e.opcode);
    } else if u.op.I2? {
      EncodeI2IsShiftWord(u);
      ShiftFields(e.funct6, u.imm, u.rs1, e.funct3, u.rd, e.opcode);
    } else {
      EncodeSIsStoreWord(u);
      StoreFields(u.imm, u.rs2, u.rs1, e.funct3, e.opcode);
    }
  }

  lemma PlacedOther(u: ICUnit)
    requires InRange(u)
    requires u.op.U? || u.op.Jal? || u.op.FdR4?
    ensures Placed(u)
  {
    hide UpperWord, JumpWord, FusedWord, Op, Rd, F3, Rs1, Rs2, F7, EncodingOf, EncodeU, EncodeJ, EncodeFdR4;
    hide Signed21, Even, ImmU, F2, Rs3;
    Bounds(u.op);
    var e := EncodingOf(u.op);
    if u.op.U? {
      EncodeUIsUpperWord(u);
      UpperFields(u.imm, u.rd, e.opcode);
    } else if u.op.Jal? {
      EncodeJIsJumpWord(u);
      JumpFields(u.imm, u.rd, e.opcode);
    } else {
      EncodeFdR4IsFusedWord(u);
      FusedFields(u.rs3, e.funct2, u.rs2, u.rs1, u.rm, u.rd, e.opcode);
    }
  }

  lemma PlacedEcall(u: ICUnit)
    requires u.op.Ecall?
    ensures Placed(u) && Encode(u) == 0x73
  {
    assert Encode(u) == 0x73;
    assert Op(0x73) == 0x73 && F3(0x73) == 0;
  }

  lemma AllPlaced(u: ICUnit)
    requires InRange(u)
    ensures Placed(u)
  {
    hide Placed, InRange;
    match u.op {
      case R(_) => PlacedPack(u);
      case Ldbm => PlacedPack(u);
      case FdR(_) => PlacedPack(u);
      case FdR1(_) => PlacedPack(u);
      case FdR2(_) => PlacedPack(u);
      case FdR3(_) => PlacedPack(u);
      case I1(_) => PlacedTopImm(u);
      case FdI(_) => PlacedTopImm(u);
      case CsrR(_) => PlacedTopImm(u);
      case CsrI(_) => PlacedTopImm(u);
      case Ecall => PlacedEcall(u);
      case U(_) => PlacedOther(u);
      case Jal => PlacedOther(u);
      case FdR4(_) => PlacedOther(u);
      case _ => PlacedSplit(u);
    }
  }

  /**
   Main result: opcode, register numbers and function fields stand at the bits the base instruction
   formats give them, and ecall leaves every other bit zero.
   */
  lemma WordLayout(u: ICUnit)
    requires InRange(u)
    ensures Encode(u) & 0x7F == EncodingOf(u.op).opcode
    ensures HasRd(u.op) ==> (Encode(u) >> 7) & 0x1F == u.rd
    ensures HasFunct3(u.op) ==> (Encode(u) >> 12) & 7 == EncodingOf(u.op).funct3
    ensures HasRs1(u.op) ==> (Encode(u) >> 15) & 0x1F == u.rs1
    ensures HasRs2(u.op) ==> (Encode(u) >> 20) & 0x1F == u.rs2
    ensures HasFunct7(u.op) ==> (Encode(u) >> 25) & 0x7F == EncodingOf(u.op).funct7
    ensures u.op.Ecall? ==> (Encode(u) >> 7) == 0
  {
    hide Encode, EncodingOf, InRange;
    AllPlaced(u);
    if u.op.Ecall? { PlacedEcall(u); }
  }

  lemma NoImmediateOpcode(op: Opcode)
    requires !HasImmediate(op) && !op.I2?
    ensures EncodingOf(op).opcode in {0x33, 0x3B, 0x2A, 0x3F, 0x73, 0x53, 0x43, 0x47, 0x4B, 0x4F}
  {
    hide ROpEncoding, CsrROpEncoding, CsrIOpEncoding, FdROpEncoding, FdR1OpEncoding, FdR2OpEncoding, FdR3OpEncoding;
    hide FdR4OpEncoding, FindROp, FindCsrROp, FindCsrIOp, FindFdROp, FindFdR1Op, FindFdR2Op, FindFdR3Op, FindFdR4Op;
    match op {
      case R(m) => ROpFound(m);
      case CsrR(m) => CsrROpFound(m);
      case CsrI(m) => CsrIOpFound(m);
      case FdR(m) => FdROpFound(m);
      case FdR1(m) => FdR1OpFound(m);
      case FdR2(m) => FdR2OpFound(m);
      case FdR3(m) => FdR3OpFound(m);
      case FdR4(m) => FdR4OpFound(m);
      case _ =>
    }
  }

  lemma GeneratorElse(w: bv32)
    requires Op(w) in {0x33, 0x3B, 0x2A, 0x3F, 0x73, 0x53, 0x43, 0x47, 0x4B, 0x4F}
    ensures ImmGenerator(w) == 0
  {
    hide Op, ImmI, ImmS, ImmB, ImmU, ImmJ;
  }

  /** The machine reads zero off the word of an instruction whose format has no immediate it knows. */
  lemma NoImmediate(u: ICUnit)
    requires InRange(u) && !HasImmediate(u.op) && !u.op.I2?
    ensures ImmGenerator(Encode(u)) == 0
  {
    hide Encode, EncodingOf, InRange, ImmGenerator;
    AllPlaced(u);
    hide Op;
    NoImmediateOpcode(u.op);
    GeneratorElse(Encode(u));
  }
}
