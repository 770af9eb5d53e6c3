/** Decoding inverts encoding: immediates survive, and no two instructions share a word. */
module Disassembly {
  import opened InstructionSet
  import opened CodeGenerator

  function Rd(w: bv32): bv32 { (w >> 7) & 0x1F }
  function F3(w: bv32): bv32 { (w >> 12) & 7 }
  function Rs1(w: bv32): bv32 { (w >> 15) & 0x1F }
  function Rs2(w: bv32): bv32 { (w >> 20) & 0x1F }
  function F7(w: bv32): bv32 { (w >> 25) & 0x7F }

  // ------------------------------------------------------------ bit layouts

  function ClearLow(imm: bv32): bv32 { imm & 0xFFFF_FFFE }

  lemma EvenMask(imm: bv32)
    ensures Even(imm) <==> ClearLow(imm) == imm
  {
  }

  lemma PackFields(f7: bv32, rs2: bv32, rs1: bv32, f3: bv32, rd: bv32, op: bv32)
    requires f7 < 128 && rs2 < 32 && rs1 < 32 && f3 < 8 && rd < 32 && op < 128
    ensures var w := Pack(f7, rs2, rs1, f3, rd, op);
            Op(w) == op && Rd(w) == rd && F3(w) == f3 && Rs1(w) == rs1 && Rs2(w) == rs2 && F7(w) == f7
  {
  }

  function TopImm(imm: bv32, rs1: bv32, f3: bv32, rd: bv32, op: bv32): bv32 {
    (imm << 20) | (rs1 << 15) | (f3 << 12) | (rd << 7) | op
  }

  lemma TopImmFields(imm: bv32, rs1: bv32, f3: bv32, rd: bv32, op: bv32)
    requires rs1 < 32 && f3 < 8 && rd < 32 && op < 128
    ensures var w := TopImm(imm, rs1, f3, rd, op);
            Op(w) == op && Rd(w) == rd && F3(w) == f3 && Rs1(w) == rs1 && (w >> 20) & 0xFFF == imm & 0xFFF
    ensures Signed12(imm) ==> ImmI(TopImm(imm, rs1, f3, rd, op)) == imm
  {
  }

  lemma SplitImm12(imm: bv32, rs2: bv32, rs1: bv32, f3: bv32, op: bv32)
    requires rs2 < 32 && rs1 < 32 && f3 < 8 && op < 128 && Signed12(imm)
    ensures ImmS(Pack((imm >> 5) & 0x7F, rs2, rs1, f3, imm & 0x1F, op)) == imm
  {
  }

  function BranchWord(imm: bv32, rs2: bv32, rs1: bv32, f3: bv32, op: bv32): bv32 {
    (((imm >> 12) & 1) << 31) | (((imm >> 5) & 0x3F) << 25) | (rs2 << 20) | (rs1 << 15) | (f3 << 12)
    | (((imm >> 1) & 0xF) << 8) | (((imm >> 11) & 1) << 7) | op
  }

  lemma BranchFields(imm: bv32, rs2: bv32, rs1: bv32, f3: bv32, op: bv32)
    requires rs2 < 32 && rs1 < 32 && f3 < 8 && op < 128
    ensures var w := BranchWord(imm, rs2, rs1, f3, op);
            Op(w) == op && F3(w) == f3 && Rs1(w) == rs1 && Rs2(w) == rs2
  {
  }

  /** A branch offset in range comes back, without its lowest bit. */
  lemma BranchImm(imm: bv32, rs2: bv32, rs1: bv32, f3: bv32, op: bv32)
    requires rs2 < 32 && rs1 < 32 && f3 < 8 && op < 128 && Signed13(imm)
    ensures ImmB(BranchWord(imm, rs2, rs1, f3, op)) == ClearLow(imm)
  {
  }

  function JumpWord(imm: bv32, rd: bv32, op: bv32): bv32 {
    ((imm & 0x100000) << 11) | ((imm & 0x7FE) << 20) | ((imm & 0x800) << 9) | (imm & 0xFF000) | (rd << 7) | op
  }

  lemma JumpFields(imm: bv32, rd: bv32, op: bv32)
    requires rd < 32 && op < 128
    ensures Op(JumpWord(imm, rd, op)) == op && Rd(JumpWord(imm, rd, op)) == rd
  {
  }

  lemma JumpParts(imm: bv32, rd: bv32, op: bv32)
    requires rd < 32 && op < 128
    ensures var w := JumpWord(imm, rd, op);
            && Bits10At21(w) == (imm >> 1) & 0x3FF && BitAt20(w) == (imm >> 11) & 1
            && Bits8At12(w) == Bits8At12(imm) && BitAt31(w) == BitAt20(imm)
  {
  }

  lemma JumpJoin(imm: bv32)
    ensures JoinJ((imm >> 1) & 0x3FF, (imm >> 11) & 1, Bits8At12(imm), BitAt20(imm)) == imm & 0x1F_FFFE
  {
  }

  lemma JumpSign(imm: bv32)
    requires Signed21(imm)
    ensures SignExtend21(imm & 0x1F_FFFE) == ClearLow(imm)
  {
  }

  lemma JumpImm(imm: bv32, rd: bv32, op: bv32)
    requires rd < 32 && op < 128 && Signed21(imm)
    ensures ImmJ(JumpWord(imm, rd, op)) == ClearLow(imm)
  {
    hide JumpWord, SignExtend21, ClearLow, Signed21, JoinJ, Bits10At21, BitAt20, Bits8At12, BitAt31;
    JumpParts(imm, rd, op);
    JumpJoin(imm);
    JumpSign(imm);
  }

  lemma UpperFields(imm: bv32, rd: bv32, op: bv32)
    requires rd < 32 && op < 128 && imm < 0x10_0000
    ensures var w := UpperWord(imm, rd, op); Op(w) == op && Rd(w) == rd && ImmU(w) == imm
  {
  }

  lemma ShiftFields(f6: bv32, imm: bv32, rs1: bv32, f3: bv32, rd: bv32, op: bv32)
    requires f6 < 64 && imm < 64 && rs1 < 32 && f3 < 8 && rd < 32 && op < 128
    ensures var w := ShiftWord(f6, imm, rs1, f3, rd, op);
            Op(w) == op && Rd(w) == rd && F3(w) == f3 && Rs1(w) == rs1 && Shamt(w) == imm && F6(w) == f6
  {
  }

  lemma FusedFields(rs3: bv32, f2: bv32, rs2: bv32, rs1: bv32, f3: bv32, rd: bv32, op: bv32)
    requires rs3 < 32 && f2 < 4 && rs2 < 32 && rs1 < 32 && f3 < 8 && rd < 32 && op < 128
    ensures var w := FusedWord(rs3, f2, rs2, rs1, f3, rd, op);
            && Op(w) == op && Rd(w) == rd && F3(w) == f3 && Rs1(w) == rs1 && Rs2(w) == rs2
            && F2(w) == f2 && Rs3(w) == rs3
  {
  }

  lemma Masks(x: bv32)
    ensures x < 0x1000 ==> x & 0xFFF == x
    ensures x < 32 ==> x & 0x1F == x
    ensures x < 8 ==> x & 7 == x
    ensures x & 0x1F < 32 && (x >> 5) & 0x7F < 128
  {
  }

  // ------------------------------------------------------------ disassembly

  function Unit(op: Opcode, rd: bv32, rs1: bv32, rs2: bv32, imm: bv32): ICUnit {
    ICUnit(op, rd, rs1, rs2, 0, 0, imm, 0)
  }

  function DisassembleOpImm(w: bv32): Option<ICUnit> {
    var op, f3 := Op(w), F3(w);
    var i2 := FindI2Op(op, f3, F6(w));
    if f3 == 1 || f3 == 5 then
      if i2.Some? then Some(Unit(I2(i2.value), Rd(w), Rs1(w), 0, Shamt(w))) else None
    else
      var i1 := FindI1Op(op, f3);
      if i1.Some? then Some(Unit(I1(i1.value), Rd(w), Rs1(w), 0, ImmI(w))) else None
  }

  function DisassembleSystem(w: bv32): Option<ICUnit> {
    var f3, csr := F3(w), Csr(w);
    var cr, ci := FindCsrROp(f3), FindCsrIOp(f3);
    if f3 == 0 then (if w == 0x73 then Some(Unit(Ecall, 0, 0, 0, 0)) else None)
    else if cr.Some? then Some(ICUnit(CsrR(cr.value), Rd(w), Rs1(w), 0, 0, csr, 0, 0))
    else if ci.Some? then Some(ICUnit(CsrI(ci.value), Rd(w), 0, 0, 0, csr, Rs1(w), 0))
    else None
  }

  function DisassembleFd(w: bv32): Option<ICUnit> {
    var f3, f5, f7 := F3(w), Rs2(w), F7(w);
    var r, r1, r2, r3 := FindFdROp(f3, f7), FindFdR1Op(f7), FindFdR2Op(f5, f7), FindFdR3Op(f3, f5, f7);
    if r.Some? then Some(ICUnit(FdR(r.value), Rd(w), Rs1(w), Rs2(w), 0, 0, 0, 0))
    else if r1.Some? then Some(ICUnit(FdR1(r1.value), Rd(w), Rs1(w), Rs2(w), 0, 0, 0, f3))
    else if r2.Some? then Some(ICUnit(FdR2(r2.value), Rd(w), Rs1(w), 0, 0, 0, 0, f3))
    else if r3.Some? then Some(ICUnit(FdR3(r3.value), Rd(w), Rs1(w), 0, 0, 0, 0, 0))
    else None
  }

  function DisassembleUpper(w: bv32): Option<ICUnit> {
    var u := FindUOp(Op(w));
    if u.Some? then Some(Unit(U(u.value), Rd(w), 0, 0, ImmU(w))) else None
  }

  function DisassembleFdLoad(w: bv32): Option<ICUnit> {
    var fi := FindFdIOp(F3(w));
    if fi.Some? then Some(Unit(FdI(fi.value), Rd(w), Rs1(w), 0, ImmI(w))) else None
  }

  function DisassembleFdStore(w: bv32): Option<ICUnit> {
    var fs := FindFdSOp(F3(w));
    if fs.Some? then Some(Unit(FdS(fs.value), 0, Rs1(w), Rs2(w), ImmS(w))) else None
  }

  /** Reads an instruction back from its word; a word with a bit set that its format leaves zero is none. */
  function Disassemble(w: bv32): Option<ICUnit> {
    var op, f3 := Op(w), F3(w);
    if op == 0x33 || op == 0x3B then
      var r := FindROp(op, f3, F7(w));
      if r.Some? then Some(Unit(R(r.value), Rd(w), Rs1(w), Rs2(w), 0)) else None
    else if op == 0x2A then
      if f3 == 0 && F7(w) == 0 then Some(Unit(Ldbm, Rd(w), Rs1(w), Rs2(w), 0)) else None
    else if op == 0x3F then
      if f3 == 0 then Some(Unit(Bigmul, 0, Rs1(w), Rs2(w), ImmS(w))) else None
    else if op == 0x13 || op == 0x1B || op == 0x03 || op == 0x67 then
      if op == 0x13 || op == 0x1B then DisassembleOpImm(w)
      else
        var i1 := FindI1Op(op, f3);
        if i1.Some? then Some(Unit(I1(i1.value), Rd(w), Rs1(w), 0, ImmI(w))) else None
    else if op == 0x73 then DisassembleSystem(w)
    else if op == 0x23 then
      var s := FindSOp(f3);
      if s.Some? then Some(Unit(S(s.value), 0, Rs1(w), Rs2(w), ImmS(w))) else None
    else if op == 0x63 then
      var b := FindBOp(f3);
      if b.Some? then Some(Unit(Branch(b.value), 0, Rs1(w), Rs2(w), ImmB(w))) else None
    else if op == 0x37 || op == 0x17 then DisassembleUpper(w)
    else if op == 0x6F then Some(Unit(Jal, Rd(w), 0, 0, ImmJ(w)))
    else if op == 0x53 then DisassembleFd(w)
    else if op == 0x43 || op == 0x47 || op == 0x4B || op == 0x4F then
      DisassembleFused(w)
    else if op == 0x07 then DisassembleFdLoad(w)
    else if op == 0x27 then DisassembleFdStore(w)
    else None
  }

  predicate Inverts(u: ICUnit) { Disassemble(Encode(u)) == Some(Encoded(u)) }

  function StoreWord(imm: bv32, rs2: bv32, rs1: bv32, f3: bv32, op: bv32): bv32 {
    Pack((imm >> 5) & 0x7F, rs2, rs1, f3, imm & 0x1F, op)
  }

  lemma EncodeSIsStoreWord(u: ICUnit)
    ensures EncodeS(u) == StoreWord(u.imm, u.rs2, u.rs1, EncodingOf(u.op).funct3, EncodingOf(u.op).opcode)
  {
    hide EncodingOf, Pack;
  }

  lemma StoreFields(imm: bv32, rs2: bv32, rs1: bv32, f3: bv32, op: bv32)
    requires rs2 < 32 && rs1 < 32 && f3 < 8 && op < 128 && Signed12(imm)
    ensures var w := StoreWord(imm, rs2, rs1, f3, op);
            Op(w) == op && F3(w) == f3 && Rs1(w) == rs1 && Rs2(w) == rs2 && ImmS(w) == imm
  {
    Masks(imm);
    PackFields((imm >> 5) & 0x7F, rs2, rs1, f3, imm & 0x1F, op);
    SplitImm12(imm, rs2, rs1, f3, op);
    hide Pack, Op, Rd, F3, Rs1, Rs2, F7, ImmS;
  }

  lemma InvertsR(u: ICUnit)
    requires InRange(u)
    requires u.op.R? || u.op.Ldbm?
    ensures Inverts(u)
  {
    hide Pack, Op, Rd, F3, Rs1, Rs2, F7, ROpEncoding, FindROp;
    var e := EncodingOf(u.op);
    if u.op.R? { ROpFound(u.op.r); }
    PackFields(e.funct7, u.rs2, u.rs1, e.funct3, u.rd, e.opcode);
  }

  lemma InvertsS(u: ICUnit)
    requires InRange(u)
    requires u.op.S? || u.op.Bigmul?
    ensures Inverts(u)
  {
    hide StoreWord, Op, Rd, F3, Rs1, Rs2, F7, ImmS, Signed12, SOpEncoding, FindSOp;
    EncodeSIsStoreWord(u);
    hide EncodeS;
    var e := EncodingOf(u.op);
    if u.op.S? { SOpFound(u.op.s); }
    StoreFields(u.imm, u.rs2, u.rs1, e.funct3, e.opcode);
  }

  lemma InvertsFdS(u: ICUnit)
    requires InRange(u)
    requires u.op.FdS?
    ensures Inverts(u)
  {
    hide StoreWord, Op, Rd, F3, Rs1, Rs2, F7, ImmS, Signed12, FdSOpEncoding, FindFdSOp;
    EncodeSIsStoreWord(u);
    hide EncodeS;
    FdSOpFound(u.op.fs);
    StoreFields(u.imm, u.rs2, u.rs1, EncodingOf(u.op).funct3, EncodingOf(u.op).opcode);
  }

  lemma InvertsI1(u: ICUnit)
    requires InRange(u)
    requires u.op.I1?
    ensures Inverts(u)
  {
    hide TopImm, Op, Rd, F3, Rs1, ImmI, Signed12, I1OpEncoding, FindI1Op;
    I1OpFound(u.op.i1);
    I1NotShift(u.op.i1);
    EncodeI1IsTopImm(u);
    hide EncodeI1;
    TopImmFields(u.imm, u.rs1, EncodingOf(u.op).funct3, u.rd, EncodingOf(u.op).opcode);
  }

  lemma InvertsFdI(u: ICUnit)
    requires InRange(u)
    requires u.op.FdI?
    ensures Inverts(u)
  {
    hide TopImm, Op, Rd, F3, Rs1, ImmI, Signed12, FdIOpEncoding, FindFdIOp;
    FdIOpFound(u.op.fi);
    EncodeI1IsTopImm(u);
    hide EncodeI1;
    TopImmFields(u.imm, u.rs1, EncodingOf(u.op).funct3, u.rd, EncodingOf(u.op).opcode);
  }

  lemma EncodeI1IsTopImm(u: ICUnit)
    ensures EncodeI1(u) == TopImm(u.imm, u.rs1, EncodingOf(u.op).funct3, u.rd, EncodingOf(u.op).opcode)
  {
    hide EncodingOf;
  }

  lemma I1NotShift(m: I1Op)
    ensures var e := I1OpEncoding(m); e.opcode == 0x13 || e.opcode == 0x1B ==> e.funct3 != 1 && e.funct3 != 5
  {
    match m {
      case Addi => case Xori => case Ori => case Andi => case Sltiu => case Slti => case Addiw =>
      case Lb => case Lh => case Lw => case Ld => case Lbu => case Lhu => case Lwu => case Jalr =>
    }
  }

  function ShiftWord(f6: bv32, imm: bv32, rs1: bv32, f3: bv32, rd: bv32, op: bv32): bv32 {
    (f6 << 26) | (imm << 20) | (rs1 << 15) | (f3 << 12) | (rd << 7) | op
  }

  lemma EncodeI2IsShiftWord(u: ICUnit)
    ensures var e := EncodingOf(u.op); EncodeI2(u) == ShiftWord(e.funct6, u.imm, u.rs1, e.funct3, u.rd, e.opcode)
  {
    hide EncodingOf;
  }

  function Shamt(w: bv32): bv32 { (w >> 20) & 0x3F }
  function F6(w: bv32): bv32 { (w >> 26) & 0x3F }

  lemma I2IsShift(m: I2Op)
    ensures I2OpEncoding(m).funct3 == 1 || I2OpEncoding(m).funct3 == 5
  {
  }

  lemma InvertsI2(u: ICUnit)
    requires InRange(u)
    requires u.op.I2?
    ensures Inverts(u)
  {
    hide ShiftWord, Op, Rd, F3, Rs1, Shamt, F6, I2OpEncoding, FindI2Op;
    I2OpFound(u.op.i2);
    I2IsShift(u.op.i2);
    EncodeI2IsShiftWord(u);
    hide EncodeI2;
    var e := EncodingOf(u.op);
    ShiftFields(e.funct6, u.imm, u.rs1, e.funct3, u.rd, e.opcode);
  }

  lemma InvertsBranch(u: ICUnit)
    requires InRange(u)
    requires u.op.Branch?
    ensures Inverts(u)
  {
    hide ClearLow, BranchWord, Op, F3, Rs1, Rs2, ImmB, Signed13, Even, BOpEncoding, FindBOp;
    BOpFound(u.op.br);
    var e := EncodingOf(u.op);
    EncodeBIsBranchWord(u);
    hide EncodeB;
    BranchFields(u.imm, u.rs2, u.rs1, e.funct3, e.opcode);
    BranchImm(u.imm, u.rs2, u.rs1, e.funct3, e.opcode);
    EvenMask(u.imm);
  }

  lemma EncodeBIsBranchWord(u: ICUnit)
    ensures EncodeB(u) == BranchWord(u.imm, u.rs2, u.rs1, EncodingOf(u.op).funct3, EncodingOf(u.op).opcode)
  {
    hide EncodingOf;
  }

  lemma EncodeJIsJumpWord(u: ICUnit)
    ensures EncodeJ(u) == JumpWord(u.imm, u.rd, EncodingOf(u.op).opcode)
  {
    hide EncodingOf;
  }

  lemma InvertsJal(u: ICUnit)
    requires InRange(u)
    requires u.op.Jal?
    ensures Inverts(u)
  {
    hide ClearLow, JumpWord, Op, Rd, ImmJ, Signed21, Even;
    EncodeJIsJumpWord(u);
    hide EncodeJ;
    JumpFields(u.imm, u.rd, 0x6F);
    JumpImm(u.imm, u.rd, 0x6F);
    EvenMask(u.imm);
  }

  function UpperWord(imm: bv32, rd: bv32, op: bv32): bv32 { ((imm & 0xFFFFF) << 12) | (rd << 7) | op }

  lemma EncodeUIsUpperWord(u: ICUnit)
    ensures EncodeU(u) == UpperWord(u.imm, u.rd, EncodingOf(u.op).opcode)
  {
    hide EncodingOf;
  }

  lemma InvertsU(u: ICUnit)
    requires InRange(u)
    requires u.op.U?
    ensures Inverts(u)
  {
    hide UpperWord, Op, Rd, ImmU, UOpEncoding, FindUOp;
    UOpFound(u.op.u);
    EncodeUIsUpperWord(u);
    hide EncodeU;
    UpperFields(u.imm, u.rd, EncodingOf(u.op).opcode);
  }

  function Csr(w: bv32): bv32 { (w >> 20) & 0xFFF }

  lemma CsrFields(csr: bv32, rs1: bv32, f3: bv32, rd: bv32, op: bv32)
    requires csr < 0x1000 && rs1 < 32 && f3 < 8 && rd < 32 && op < 128
    ensures var w := TopImm(csr, rs1, f3, rd, op);
            Op(w) == op && Rd(w) == rd && F3(w) == f3 && Rs1(w) == rs1 && Csr(w) == csr
  {
  }

  lemma EncodeCsrIsTopImm(u: ICUnit)
    ensures var e := EncodingOf(u.op);
            u.csr < 0x1000 ==>
              && EncodeCsrR(u) == TopImm(u.csr, u.rs1, e.funct3, u.rd, e.opcode)
              && (u.imm < 32 ==> EncodeCsrI(u) == TopImm(u.csr, u.imm, e.funct3, u.rd, e.opcode))
  {
    hide EncodingOf;
    Masks(u.csr);
    Masks(u.imm);
  }

  lemma InvertsSystem(u: ICUnit)
    requires InRange(u)
    requires u.op.CsrR? || u.op.CsrI?
    ensures Inverts(u)
  {
    hide TopImm, Op, Rd, F3, Rs1, Csr, CsrROpEncoding, CsrIOpEncoding, FindCsrROp, FindCsrIOp;
    var e := EncodingOf(u.op);
    EncodeCsrIsTopImm(u);
    hide EncodeCsrR, EncodeCsrI;
    if u.op.CsrR? {
      CsrROpFound(u.op.cr);
      CsrApart(u.op.cr);
      CsrFields(u.csr, u.rs1, e.funct3, u.rd, e.opcode);
    } else {
      CsrIOpFound(u.op.ci);
      CsrIApart(u.op.ci);
      CsrFields(u.csr, u.imm, e.funct3, u.rd, e.opcode);
    }
  }

  lemma CsrApart(m: CsrROp)
    ensures CsrROpEncoding(m).funct3 != 0
  {
  }

  lemma CsrIApart(m: CsrIOp)
    ensures CsrIOpEncoding(m).funct3 != 0 && FindCsrROp(CsrIOpEncoding(m).funct3).None?
  {
  }

  lemma InvertsEcall(u: ICUnit)
    requires u.op.Ecall?
    ensures Inverts(u)
  {
    assert Encode(u) == 0x73;
    assert Op(0x73) == 0x73 && F3(0x73) == 0;
  }

  // The four arithmetic groups of the floating-point opcode differ in funct7.

  lemma FdRApart(m: FdR1Op)
    ensures forall f3: bv32 :: FindFdROp(f3, FdR1OpEncoding(m).funct7).None?
  {
    match m {
      case FaddS => case FsubS => case FmulS => case FdivS => case FaddD => case FsubD => case FmulD => case FdivD =>
    }
  }

  lemma FdR2Apart(m: FdR2Op)
    ensures var f7 := FdR2OpEncoding(m).funct7;
            FindFdR1Op(f7).None? && forall f3: bv32 :: FindFdROp(f3, f7).None?
  {
    match m {
      case FsqrtS => case FcvtWS => case FcvtWuS => case FcvtLS => case FcvtLuS => case FcvtSW =>
      case FcvtSWu => case FcvtSL => case FcvtSLu => case FsqrtD => case FcvtWD => case FcvtWuD =>
      case FcvtLD => case FcvtLuD => case FcvtDW => case FcvtDWu => case FcvtDL => case FcvtDLu =>
      case FcvtSD => case FcvtDS =>
    }
  }

  lemma FdR3Apart(m: FdR3Op)
    ensures var f7 := FdR3OpEncoding(m).funct7;
            && FindFdR1Op(f7).None? && (forall f3: bv32 :: FindFdROp(f3, f7).None?)
            && forall f5: bv32 :: FindFdR2Op(f5, f7).None?
  {
    match m {
      case FmvWX => case FmvXW => case FclassS => case FmvDX => case FmvXD => case FclassD =>
    }
  }

  lemma EncodeFdIsPack(u: ICUnit)
    requires u.rm < 8
    ensures var e := EncodingOf(u.op);
            && EncodeFdR1(u) == Pack(e.funct7, u.rs2, u.rs1, u.rm, u.rd, e.opcode)
            && EncodeFdR2(u) == Pack(e.funct7, e.funct5, u.rs1, u.rm, u.rd, e.opcode)
  {
    hide EncodingOf, Pack;
    Masks(u.rm);
  }

  lemma InvertsFd(u: ICUnit)
    requires InRange(u)
    requires u.op.FdR? || u.op.FdR1?
    ensures Inverts(u)
  {
    hide Pack, Op, Rd, F3, Rs1, Rs2, F7, FdROpEncoding, FindFdROp, FdR1OpEncoding, FindFdR1Op, EncodeFdR1;
    var e := EncodingOf(u.op);
    if u.op.FdR1? { EncodeFdIsPack(u); }
    if u.op.FdR? {
      FdROpFound(u.op.f);
      PackFields(e.funct7, u.rs2, u.rs1, e.funct3, u.rd, e.opcode);
    } else {
      FdR1OpFound(u.op.f1);
      FdRApart(u.op.f1);
      PackFields(e.funct7, u.rs2, u.rs1, u.rm, u.rd, e.opcode);
    }
  }

  lemma InvertsFd2(u: ICUnit)
    requires InRange(u)
    requires u.op.FdR2? || u.op.FdR3?
    ensures Inverts(u)
  {
    hide Pack, Op, Rd, F3, Rs1, Rs2, F7, FindFdROp, FindFdR1Op, EncodeFdR2;
    hide FdR2OpEncoding, FindFdR2Op, FdR3OpEncoding, FindFdR3Op;
    var e := EncodingOf(u.op);
    if u.op.FdR2? { EncodeFdIsPack(u); }
    if u.op.FdR2? {
      FdR2OpFound(u.op.f2);
      FdR2Apart(u.op.f2);
      PackFields(e.funct7, e.funct5, u.rs1, u.rm, u.rd, e.opcode);
    } else {
      FdR3OpFound(u.op.f3);
      FdR3Apart(u.op.f3);
      PackFields(e.funct7, e.funct5, u.rs1, e.funct3, u.rd, e.opcode);
    }
  }

  function FusedWord(rs3: bv32, f2: bv32, rs2: bv32, rs1: bv32, f3: bv32, rd: bv32, op: bv32): bv32 {
    (rs3 << 27) | (f2 << 25) | (rs2 << 20) | (rs1 << 15) | (f3 << 12) | (rd << 7) | op
  }

  function F2(w: bv32): bv32 { (w >> 25) & 3 }
  function Rs3(w: bv32): bv32 { (w >> 27) & 0x1F }

  lemma EncodeFdR4IsFusedWord(u: ICUnit)
    requires u.rm < 8
    ensures var e := EncodingOf(u.op);
            EncodeFdR4(u) == FusedWord(u.rs3, e.funct2, u.rs2, u.rs1, u.rm, u.rd, e.opcode)
  {
    hide EncodingOf;
    Masks(u.rm);
  }

  function DisassembleFused(w: bv32): Option<ICUnit> {
    var r4 := FindFdR4Op(Op(w), F2(w));
    if r4.Some? then Some(ICUnit(FdR4(r4.value), Rd(w), Rs1(w), Rs2(w), Rs3(w), 0, 0, F3(w))) else None
  }

  lemma FusedOpcode(w: bv32)
    requires Op(w) == 0x43 || Op(w) == 0x47 || Op(w) == 0x4B || Op(w) == 0x4F
    ensures Disassemble(w) == DisassembleFused(w)
  {
    hide Op, Rd, F3, Rs1, Rs2, F2, Rs3, FindFdR4Op, DisassembleFused;
  }

  lemma InvertsFdR4(u: ICUnit)
    requires InRange(u)
    requires u.op.FdR4?
    ensures Inverts(u)
  {
    hide FusedWord, Op, Rd, F3, Rs1, Rs2, F2, Rs3, FdR4OpEncoding, FindFdR4Op, EncodeFdR4, Disassemble;
    FdR4OpFound(u.op.f4);
    EncodeFdR4IsFusedWord(u);
    var e := EncodingOf(u.op);
    FusedFields(u.rs3, e.funct2, u.rs2, u.rs1, u.rm, u.rd, e.opcode);
    FusedOpcode(Encode(u));
  }

  /** Main result: every instruction with operands in range is read back from its word. */
  lemma DisassembleEncode(u: ICUnit)
    requires InRange(u)
    ensures Disassemble(Encode(u)) == Some(Encoded(u))
  {
    hide InRange, Disassemble, Encode, Encoded;
    assert Inverts(u) by {
      match u.op {
        case R(_) => InvertsR(u);
        case Ldbm => InvertsR(u);
        case Bigmul => InvertsS(u);
        case I1(_) => InvertsI1(u);
        case I2(_) => InvertsI2(u);
        case Ecall => InvertsEcall(u);
        case S(_) => InvertsS(u);
        case Branch(_) => InvertsBranch(u);
        case U(_) => InvertsU(u);
        case Jal => InvertsJal(u);
        case CsrR(_) => InvertsSystem(u);
        case CsrI(_) => InvertsSystem(u);
        case FdR(_) => InvertsFd(u);
        case FdR1(_) => InvertsFd(u);
        case FdR2(_) => InvertsFd2(u);
        case FdR3(_) => InvertsFd2(u);
        case FdR4(_) => InvertsFdR4(u);
        case FdI(_) => InvertsFdI(u);
        case FdS(_) => InvertsFdS(u);
      }
    }
  }

  /** Encoding is injective over all formats: equal words mean the same mnemonic and encoded operands. */
  lemma EncodeInjective(u: ICUnit, u': ICUnit)
    requires InRange(u) && InRange(u') && Encode(u) == Encode(u')
    ensures Encoded(u) == Encoded(u')
  {
    hide InRange, Disassemble, Encode, Encoded;
    DisassembleEncode(u);
    DisassembleEncode(u');
  }

  // ------------------------------------------------------------ the machine's immediates

  lemma GeneratorFormats(w: bv32)
    ensures var op := Op(w);
            && (op == 0x13 || op == 0x03 || op == 0x67 || op == 0x07 || op == 0x0F ==> ImmGenerator(w) == ImmI(w))
            && (op == 0x23 || op == 0x27 ==> ImmGenerator(w) == ImmS(w))
            && (op == 0x63 ==> ImmGenerator(w) == ImmB(w))
            && (op == 0x37 || op == 0x17 ==> ImmGenerator(w) == ImmU(w))
            && (op == 0x6F ==> ImmGenerator(w) == ImmJ(w))
            && (op == 0x1B ==> ImmGenerator(w) == 0)
  {
    hide Op, ImmI, ImmS, ImmB, ImmU, ImmJ;
  }

  lemma I1Opcode(m: I1Op)
    ensures var op := I1OpEncoding(m).opcode;
            if m == Addiw then op == 0x1B else op == 0x13 || op == 0x03 || op == 0x67
  {
    match m {
      case Addi => case Xori => case Ori => case Andi => case Sltiu => case Slti => case Addiw => case Lb =>
      case Lh => case Lw => case Ld => case Lbu => case Lhu => case Lwu => case Jalr =>
    }
  }

  lemma TopImmediate(u: ICUnit)
    requires InRange(u)
    requires u.op.I1? || u.op.FdI?
    ensures ImmGenerator(Encode(u)) == if u.op == I1(Addiw) then 0 else u.imm
  {
    hide TopImm, Op, Rd, F3, Rs1, ImmI, Signed12, ImmGenerator;
    GeneratorFormats(Encode(u));
    EncodeI1IsTopImm(u);
    hide EncodeI1;
    if u.op.I1? { I1Opcode(u.op.i1); I1OpFound(u.op.i1); hide I1OpEncoding; } else { FdIOpFound(u.op.fi); }
    TopImmFields(u.imm, u.rs1, EncodingOf(u.op).funct3, u.rd, EncodingOf(u.op).opcode);
  }

  lemma StoreImmediate(u: ICUnit)
    requires InRange(u)
    requires u.op.S? || u.op.FdS?
    ensures ImmGenerator(Encode(u)) == u.imm
  {
    hide StoreWord, Op, F3, Rs1, Rs2, ImmS, Signed12, ImmGenerator;
    GeneratorFormats(Encode(u));
    EncodeSIsStoreWord(u);
    hide EncodeS, SOpEncoding, FdSOpEncoding;
    if u.op.S? { SOpFound(u.op.s); } else { FdSOpFound(u.op.fs); }
    StoreFields(u.imm, u.rs2, u.rs1, EncodingOf(u.op).funct3, EncodingOf(u.op).opcode);
  }

  /** Any branch offset in range comes back, without its lowest bit. */
  lemma BranchImmediate(u: ICUnit)
    requires u.op.Branch? && Reg(u.rs1) && Reg(u.rs2) && Signed13(u.imm)
    ensures ImmGenerator(Encode(u)) == ClearLow(u.imm)
  {
    hide ClearLow, BranchWord, Op, F3, Rs1, Rs2, ImmB, Signed13, ImmGenerator;
    GeneratorFormats(Encode(u));
    EncodeBIsBranchWord(u);
    hide EncodeB;
    BOpFound(u.op.br);
    var e := EncodingOf(u.op);
    BranchFields(u.imm, u.rs2, u.rs1, e.funct3, e.opcode);
    BranchImm(u.imm, u.rs2, u.rs1, e.funct3, e.opcode);
  }

  lemma UpperImmediate(u: ICUnit)
    requires InRange(u)
    requires u.op.U?
    ensures ImmGenerator(Encode(u)) == u.imm
  {
    hide UpperWord, Op, Rd, ImmU, ImmGenerator;
    GeneratorFormats(Encode(u));
    EncodeUIsUpperWord(u);
    hide EncodeU;
    UpperFields(u.imm, u.rd, EncodingOf(u.op).opcode);
  }

  lemma JumpImmediate(u: ICUnit)
    requires u.op.Jal? && Reg(u.rd) && Signed21(u.imm)
    ensures ImmGenerator(Encode(u)) == ClearLow(u.imm)
  {
    hide ClearLow, JumpWord, Op, Rd, ImmJ, Signed21, ImmGenerator;
    GeneratorFormats(Encode(u));
    EncodeJIsJumpWord(u);
    hide EncodeJ;
    JumpFields(u.imm, u.rd, 0x6F);
    JumpImm(u.imm, u.rd, 0x6F);
  }

  /**
   Main result: the machine decodes the immediate that was encoded, whatever the register fields,
   except that it has no case for the opcode of addiw and reads zero there.
   */
  lemma ImmediateRoundTrip(u: ICUnit)
    requires InRange(u) && HasImmediate(u.op)
    ensures ImmGenerator(Encode(u)) == u.imm <==> u.op != I1(Addiw) || u.imm == 0
  {
    hide ImmGenerator, Encode, ClearLow, Even, Reg, Signed12, Signed13, Signed21;
    EvenMask(u.imm);
    match u.op {
      case I1(_) => TopImmediate(u);
      case FdI(_) => TopImmediate(u);
      case S(_) => StoreImmediate(u);
      case FdS(_) => StoreImmediate(u);
      case Branch(_) => BranchImmediate(u);
      case U(_) => UpperImmediate(u);
      case Jal => JumpImmediate(u);
    }
  }

  lemma ShamtOfImmI(w: bv32)
    ensures ImmI(w) & 0x3F == Shamt(w)
  {
  }

  /** The low six bits of the decoded immediate are the shift amount, but for the word shifts it reads zero. */
  lemma ShiftAmount(u: ICUnit)
    requires InRange(u)
    requires u.op.I2?
    ensures var word := u.op.i2 == Slliw || u.op.i2 == Srliw || u.op.i2 == Sraiw;
            if word then ImmGenerator(Encode(u)) == 0 else ImmGenerator(Encode(u)) & 0x3F == u.imm
  {
    hide ShiftWord, Op, Rd, F3, Rs1, Shamt, F6, ImmI, ImmGenerator;
    I2OpFound(u.op.i2);
    EncodeI2IsShiftWord(u);
    hide EncodeI2;
    var e := EncodingOf(u.op);
    ShiftFields(e.funct6, u.imm, u.rs1, e.funct3, u.rd, e.opcode);
    ShamtOfImmI(Encode(u));
    GeneratorFormats(Encode(u));
  }
}
