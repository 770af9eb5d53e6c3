/**
 The instruction set of the assembler: mnemonics by format and their encoding constants. A
 constructor is named after its mnemonic, without the dots (fcvt.w.s is FcvtWS).
 */
module InstructionSet {

  datatype Option<+T> = None | Some(value: T)

  /** The fixed fields of a mnemonic; those its format does not have are zero. */
  datatype Encoding = Encoding(opcode: bv32, funct3: bv32, funct7: bv32, funct6: bv32, funct5: bv32, funct2: bv32)

  datatype ROp = | Add | Sub | Xor | Or | And | Sll | Srl | Sra | Slt | Sltu | Addw | Subw | Sllw | Srlw
      | Sraw | Mul | Mulh | Mulhsu | Mulhu | Div | Divu | Rem | Remu | Mulw | Divw | Divuw | Remw | Remuw

  datatype I1Op = | Addi | Xori | Ori | Andi | Sltiu | Slti | Addiw | Lb | Lh | Lw | Ld | Lbu | Lhu | Lwu
      | Jalr

  datatype I2Op = | Slli | Srli | Srai | Slliw | Srliw | Sraiw

  datatype SOp = | Sb | Sh | Sw | Sd

  datatype BOp = | Beq | Bne | Blt | Bge | Bltu | Bgeu

  datatype UOp = | Lui | Auipc

  datatype CsrROp = | Csrrw | Csrrs | Csrrc

  datatype CsrIOp = | Csrrwi | Csrrsi | Csrrci

  datatype FdROp = | FsgnjS | FsgnjnS | FsgnjxS | FminS | FmaxS | FeqS | FltS | FleS | FeqD | FltD | FleD
      | FsgnjD | FsgnjnD | FsgnjxD | FminD | FmaxD

  datatype FdR1Op = | FaddS | FsubS | FmulS | FdivS | FaddD | FsubD | FmulD | FdivD

  datatype FdR2Op = | FsqrtS | FcvtWS | FcvtWuS | FcvtLS | FcvtLuS | FcvtSW | FcvtSWu | FcvtSL | FcvtSLu
      | FsqrtD | FcvtWD | FcvtWuD | FcvtLD | FcvtLuD | FcvtDW | FcvtDWu | FcvtDL | FcvtDLu | FcvtSD | FcvtDS

  datatype FdR3Op = | FmvWX | FmvXW | FclassS | FmvDX | FmvXD | FclassD

  datatype FdR4Op = | FmaddS | FmsubS | FnmsubS | FnmaddS | FmaddD | FmsubD | FnmsubD | FnmaddD

  datatype FdIOp = | Flw | Fld

  datatype FdSOp = | Fsw | Fsd

  /** An instruction of the set: its format and its mnemonic. */
  datatype Opcode =
    | R(r: ROp) | Ldbm | Bigmul | I1(i1: I1Op) | I2(i2: I2Op) | Ecall | S(s: SOp) | Branch(br: BOp) | U(u: UOp) | Jal
    | CsrR(cr: CsrROp) | CsrI(ci: CsrIOp)
    | FdR(f: FdROp) | FdR1(f1: FdR1Op) | FdR2(f2: FdR2Op) | FdR3(f3: FdR3Op) | FdR4(f4: FdR4Op)
    | FdI(fi: FdIOp) | FdS(fs: FdSOp)

  function ROpEncoding(m: ROp): Encoding {
    match m
    case Add => Encoding(0x33, 0x0, 0x0, 0x0, 0x0, 0x0)
    case Sub => Encoding(0x33, 0x0, 0x20, 0x0, 0x0, 0x0)
    case Xor => Encoding(0x33, 0x4, 0x0, 0x0, 0x0, 0x0)
    case Or => Encoding(0x33, 0x6, 0x0, 0x0, 0x0, 0x0)
    case And => Encoding(0x33, 0x7, 0x0, 0x0, 0x0, 0x0)
    case Sll => Encoding(0x33, 0x1, 0x0, 0x0, 0x0, 0x0)
    case Srl => Encoding(0x33, 0x5, 0x0, 0x0, 0x0, 0x0)
    case Sra => Encoding(0x33, 0x5, 0x20, 0x0, 0x0, 0x0)
    case Slt => Encoding(0x33, 0x2, 0x0, 0x0, 0x0, 0x0)
    case Sltu => Encoding(0x33, 0x3, 0x0, 0x0, 0x0, 0x0)
    case Addw => Encoding(0x3b, 0x0, 0x0, 0x0, 0x0, 0x0)
    case Subw => Encoding(0x3b, 0x0, 0x20, 0x0, 0x0, 0x0)
    case Sllw => Encoding(0x3b, 0x1, 0x0, 0x0, 0x0, 0x0)
    case Srlw => Encoding(0x3b, 0x5, 0x0, 0x0, 0x0, 0x0)
    case Sraw => Encoding(0x3b, 0x5, 0x20, 0x0, 0x0, 0x0)
    case Mul => Encoding(0x33, 0x0, 0x1, 0x0, 0x0, 0x0)
    case Mulh => Encoding(0x33, 0x1, 0x1, 0x0, 0x0, 0x0)
    case Mulhsu => Encoding(0x33, 0x2, 0x1, 0x0, 0x0, 0x0)
    case Mulhu => Encoding(0x33, 0x3, 0x1, 0x0, 0x0, 0x0)
    case Div => Encoding(0x33, 0x4, 0x1, 0x0, 0x0, 0x0)
    case Divu => Encoding(0x33, 0x5, 0x1, 0x0, 0x0, 0x0)
    case Rem => Encoding(0x33, 0x6, 0x1, 0x0, 0x0, 0x0)
    case Remu => Encoding(0x33, 0x7, 0x1, 0x0, 0x0, 0x0)
    case Mulw => Encoding(0x3b, 0x0, 0x1, 0x0, 0x0, 0x0)
    case Divw => Encoding(0x3b, 0x4, 0x1, 0x0, 0x0, 0x0)
    case Divuw => Encoding(0x3b, 0x5, 0x1, 0x0, 0x0, 0x0)
    case Remw => Encoding(0x3b, 0x6, 0x1, 0x0, 0x0, 0x0)
    case Remuw => Encoding(0x3b, 0x7, 0x1, 0x0, 0x0, 0x0)
  }

  function I1OpEncoding(m: I1Op): Encoding {
    match m
    case Addi => Encoding(0x13, 0x0, 0x0, 0x0, 0x0, 0x0)
    case Xori => Encoding(0x13, 0x4, 0x0, 0x0, 0x0, 0x0)
    case Ori => Encoding(0x13, 0x6, 0x0, 0x0, 0x0, 0x0)
    case Andi => Encoding(0x13, 0x7, 0x0, 0x0, 0x0, 0x0)
    case Sltiu => Encoding(0x13, 0x3, 0x0, 0x0, 0x0, 0x0)
    case Slti => Encoding(0x13, 0x2, 0x0, 0x0, 0x0, 0x0)
    case Addiw => Encoding(0x1b, 0x0, 0x0, 0x0, 0x0, 0x0)
    case Lb => Encoding(0x3, 0x0, 0x0, 0x0, 0x0, 0x0)
    case Lh => Encoding(0x3, 0x1, 0x0, 0x0, 0x0, 0x0)
    case Lw => Encoding(0x3, 0x2, 0x0, 0x0, 0x0, 0x0)
    case Ld => Encoding(0x3, 0x3, 0x0, 0x0, 0x0, 0x0)
    case Lbu => Encoding(0x3, 0x4, 0x0, 0x0, 0x0, 0x0)
    case Lhu => Encoding(0x3, 0x5, 0x0, 0x0, 0x0, 0x0)
    case Lwu => Encoding(0x3, 0x6, 0x0, 0x0, 0x0, 0x0)
    case Jalr => Encoding(0x67, 0x0, 0x0, 0x0, 0x0, 0x0)
  }

  function I2OpEncoding(m: I2Op): Encoding {
    match m
    case Slli => Encoding(0x13, 0x1, 0x0, 0x0, 0x0, 0x0)
    case Srli => Encoding(0x13, 0x5, 0x0, 0x0, 0x0, 0x0)
    case Srai => Encoding(0x13, 0x5, 0x0, 0x10, 0x0, 0x0)
    case Slliw => Encoding(0x1b, 0x1, 0x0, 0x0, 0x0, 0x0)
    case Srliw => Encoding(0x1b, 0x5, 0x0, 0x0, 0x0, 0x0)
    case Sraiw => Encoding(0x1b, 0x5, 0x0, 0x10, 0x0, 0x0)
  }

  function SOpEncoding(m: SOp): Encoding {
    match m
    case Sb => Encoding(0x23, 0x0, 0x0, 0x0, 0x0, 0x0)
    case Sh => Encoding(0x23, 0x1, 0x0, 0x0, 0x0, 0x0)
    case Sw => Encoding(0x23, 0x2, 0x0, 0x0, 0x0, 0x0)
    case Sd => Encoding(0x23, 0x3, 0x0, 0x0, 0x0, 0x0)
  }

  function BOpEncoding(m: BOp): Encoding {
    match m
    case Beq => Encoding(0x63, 0x0, 0x0, 0x0, 0x0, 0x0)
    case Bne => Encoding(0x63, 0x1, 0x0, 0x0, 0x0, 0x0)
    case Blt => Encoding(0x63, 0x4, 0x0, 0x0, 0x0, 0x0)
    case Bge => Encoding(0x63, 0x5, 0x0, 0x0, 0x0, 0x0)
    case Bltu => Encoding(0x63, 0x6, 0x0, 0x0, 0x0, 0x0)
    case Bgeu => Encoding(0x63, 0x7, 0x0, 0x0, 0x0, 0x0)
  }

  function UOpEncoding(m: UOp): Encoding {
    match m
    case Lui => Encoding(0x37, 0x0, 0x0, 0x0, 0x0, 0x0)
    case Auipc => Encoding(0x17, 0x0, 0x0, 0x0, 0x0, 0x0)
  }

  function CsrROpEncoding(m: CsrROp): Encoding {
    match m
    case Csrrw => Encoding(0x73, 0x1, 0x0, 0x0, 0x0, 0x0)
    case Csrrs => Encoding(0x73, 0x2, 0x0, 0x0, 0x0, 0x0)
    case Csrrc => Encoding(0x73, 0x3, 0x0, 0x0, 0x0, 0x0)
  }

  function CsrIOpEncoding(m: CsrIOp): Encoding {
    match m
    case Csrrwi => Encoding(0x73, 0x5, 0x0, 0x0, 0x0, 0x0)
    case Csrrsi => Encoding(0x73, 0x6, 0x0, 0x0, 0x0, 0x0)
    case Csrrci => Encoding(0x73, 0x7, 0x0, 0x0, 0x0, 0x0)
  }

  function FdROpEncoding(m: FdROp): Encoding {
    match m
    case FsgnjS => Encoding(0x53, 0x0, 0x10, 0x0, 0x0, 0x0)
    case FsgnjnS => Encoding(0x53, 0x1, 0x10, 0x0, 0x0, 0x0)
    case FsgnjxS => Encoding(0x53, 0x2, 0x10, 0x0, 0x0, 0x0)
    case FminS => Encoding(0x53, 0x0, 0x14, 0x0, 0x0, 0x0)
    case FmaxS => Encoding(0x53, 0x1, 0x14, 0x0, 0x0, 0x0)
    case FeqS => Encoding(0x53, 0x2, 0x50, 0x0, 0x0, 0x0)
    case FltS => Encoding(0x53, 0x1, 0x50, 0x0, 0x0, 0x0)
    case FleS => Encoding(0x53, 0x0, 0x50, 0x0, 0x0, 0x0)
    case FeqD => Encoding(0x53, 0x2, 0x51, 0x0, 0x0, 0x0)
    case FltD => Encoding(0x53, 0x1, 0x51, 0x0, 0x0, 0x0)
    case FleD => Encoding(0x53, 0x0, 0x51, 0x0, 0x0, 0x0)
    case FsgnjD => Encoding(0x53, 0x0, 0x11, 0x0, 0x0, 0x0)
    case FsgnjnD => Encoding(0x53, 0x1, 0x11, 0x0, 0x0, 0x0)
    case FsgnjxD => Encoding(0x53, 0x2, 0x11, 0x0, 0x0, 0x0)
    case FminD => Encoding(0x53, 0x0, 0x15, 0x0, 0x0, 0x0)
    case FmaxD => Encoding(0x53, 0x1, 0x15, 0x0, 0x0, 0x0)
  }

  function FdR1OpEncoding(m: FdR1Op): Encoding {
    match m
    case FaddS => Encoding(0x53, 0x0, 0x0, 0x0, 0x0, 0x0)
    case FsubS => Encoding(0x53, 0x0, 0x4, 0x0, 0x0, 0x0)
    case FmulS => Encoding(0x53, 0x0, 0x8, 0x0, 0x0, 0x0)
    case FdivS => Encoding(0x53, 0x0, 0xc, 0x0, 0x0, 0x0)
    case FaddD => Encoding(0x53, 0x0, 0x1, 0x0, 0x0, 0x0)
    case FsubD => Encoding(0x53, 0x0, 0x5, 0x0, 0x0, 0x0)
    case FmulD => Encoding(0x53, 0x0, 0x9, 0x0, 0x0, 0x0)
    case FdivD => Encoding(0x53, 0x0, 0xd, 0x0, 0x0, 0x0)
  }

  function FdR2OpEncoding(m: FdR2Op): Encoding {
    match m
    case FsqrtS => Encoding(0x53, 0x0, 0x2c, 0x0, 0x0, 0x0)
    case FcvtWS => Encoding(0x53, 0x0, 0x60, 0x0, 0x0, 0x0)
    case FcvtWuS => Encoding(0x53, 0x0, 0x60, 0x0, 0x1, 0x0)
    case FcvtLS => Encoding(0x53, 0x0, 0x60, 0x0, 0x2, 0x0)
    case FcvtLuS => Encoding(0x53, 0x0, 0x60, 0x0, 0x3, 0x0)
    case FcvtSW => Encoding(0x53, 0x0, 0x68, 0x0, 0x0, 0x0)
    case FcvtSWu => Encoding(0x53, 0x0, 0x68, 0x0, 0x1, 0x0)
    case FcvtSL => Encoding(0x53, 0x0, 0x68, 0x0, 0x2, 0x0)
    case FcvtSLu => Encoding(0x53, 0x0, 0x68, 0x0, 0x3, 0x0)
    case FsqrtD => Encoding(0x53, 0x0, 0x2d, 0x0, 0x0, 0x0)
    case FcvtWD => Encoding(0x53, 0x0, 0x61, 0x0, 0x0, 0x0)
    case FcvtWuD => Encoding(0x53, 0x0, 0x61, 0x0, 0x1, 0x0)
    case FcvtLD => Encoding(0x53, 0x0, 0x61, 0x0, 0x2, 0x0)
    case FcvtLuD => Encoding(0x53, 0x0, 0x61, 0x0, 0x3, 0x0)
    case FcvtDW => Encoding(0x53, 0x0, 0x69, 0x0, 0x0, 0x0)
    case FcvtDWu => Encoding(0x53, 0x0, 0x69, 0x0, 0x1, 0x0)
    case FcvtDL => Encoding(0x53, 0x0, 0x69, 0x0, 0x2, 0x0)
    case FcvtDLu => Encoding(0x53, 0x0, 0x69, 0x0, 0x3, 0x0)
    case FcvtSD => Encoding(0x53, 0x0, 0x20, 0x0, 0x1, 0x0)
    case FcvtDS => Encoding(0x53, 0x0, 0x21, 0x0, 0x0, 0x0)
  }

  function FdR3OpEncoding(m: FdR3Op): Encoding {
    match m
    case FmvWX => Encoding(0x53, 0x0, 0x78, 0x0, 0x0, 0x0)
    case FmvXW => Encoding(0x53, 0x0, 0x70, 0x0, 0x0, 0x0)
    case FclassS => Encoding(0x53, 0x1, 0x70, 0x0, 0x0, 0x0)
    case FmvDX => Encoding(0x53, 0x0, 0x79, 0x0, 0x0, 0x0)
    case FmvXD => Encoding(0x53, 0x0, 0x71, 0x0, 0x0, 0x0)
    case FclassD => Encoding(0x53, 0x1, 0x71, 0x0, 0x0, 0x0)
  }

  function FdR4OpEncoding(m: FdR4Op): Encoding {
    match m
    case FmaddS => Encoding(0x43, 0x0, 0x0, 0x0, 0x0, 0x0)
    case FmsubS => Encoding(0x47, 0x0, 0x0, 0x0, 0x0, 0x0)
    case FnmsubS => Encoding(0x4b, 0x0, 0x0, 0x0, 0x0, 0x0)
    case FnmaddS => Encoding(0x4f, 0x0, 0x0, 0x0, 0x0, 0x0)
    case FmaddD => Encoding(0x43, 0x0, 0x0, 0x0, 0x0, 0x1)
    case FmsubD => Encoding(0x47, 0x0, 0x0, 0x0, 0x0, 0x1)
    case FnmsubD => Encoding(0x4b, 0x0, 0x0, 0x0, 0x0, 0x1)
    case FnmaddD => Encoding(0x4f, 0x0, 0x0, 0x0, 0x0, 0x1)
  }

  function FdIOpEncoding(m: FdIOp): Encoding {
    match m
    case Flw => Encoding(0x7, 0x2, 0x0, 0x0, 0x0, 0x0)
    case Fld => Encoding(0x7, 0x3, 0x0, 0x0, 0x0, 0x0)
  }

  function FdSOpEncoding(m: FdSOp): Encoding {
    match m
    case Fsw => Encoding(0x27, 0x2, 0x0, 0x0, 0x0, 0x0)
    case Fsd => Encoding(0x27, 0x3, 0x0, 0x0, 0x0, 0x0)
  }

  function EncodingOf(op: Opcode): Encoding {
    match op
    case R(m) => ROpEncoding(m)
    case Ldbm => Encoding(0x2a, 0x0, 0x0, 0x0, 0x0, 0x0)
    case Bigmul => Encoding(0x3f, 0x0, 0x0, 0x0, 0x0, 0x0)
    case I1(m) => I1OpEncoding(m)
    case I2(m) => I2OpEncoding(m)
    case Ecall => Encoding(0x73, 0x0, 0x0, 0x0, 0x0, 0x0)
    case S(m) => SOpEncoding(m)
    case Branch(m) => BOpEncoding(m)
    case U(m) => UOpEncoding(m)
    case Jal => Encoding(0x6f, 0x0, 0x0, 0x0, 0x0, 0x0)
    case CsrR(m) => CsrROpEncoding(m)
    case CsrI(m) => CsrIOpEncoding(m)
    case FdR(m) => FdROpEncoding(m)
    case FdR1(m) => FdR1OpEncoding(m)
    case FdR2(m) => FdR2OpEncoding(m)
    case FdR3(m) => FdR3OpEncoding(m)
    case FdR4(m) => FdR4OpEncoding(m)
    case FdI(m) => FdIOpEncoding(m)
    case FdS(m) => FdSOpEncoding(m)
  }

  // ------------------------------------------------------------ from the constants back to the mnemonic

  function FindROp(op: bv32, f3: bv32, f7: bv32): Option<ROp> {
    if op == 0x33 && f3 == 0x0 && f7 == 0x0 then Some(Add)
    else if op == 0x33 && f3 == 0x0 && f7 == 0x20 then Some(Sub)
    else if op == 0x33 && f3 == 0x4 && f7 == 0x0 then Some(Xor)
    else if op == 0x33 && f3 == 0x6 && f7 == 0x0 then Some(Or)
    else if op == 0x33 && f3 == 0x7 && f7 == 0x0 then Some(And)
    else if op == 0x33 && f3 == 0x1 && f7 == 0x0 then Some(Sll)
    else if op == 0x33 && f3 == 0x5 && f7 == 0x0 then Some(Srl)
    else if op == 0x33 && f3 == 0x5 && f7 == 0x20 then Some(Sra)
    else if op == 0x33 && f3 == 0x2 && f7 == 0x0 then Some(Slt)
    else if op == 0x33 && f3 == 0x3 && f7 == 0x0 then Some(Sltu)
    else if op == 0x3b && f3 == 0x0 && f7 == 0x0 then Some(Addw)
    else if op == 0x3b && f3 == 0x0 && f7 == 0x20 then Some(Subw)
    else if op == 0x3b && f3 == 0x1 && f7 == 0x0 then Some(Sllw)
    else if op == 0x3b && f3 == 0x5 && f7 == 0x0 then Some(Srlw)
    else if op == 0x3b && f3 == 0x5 && f7 == 0x20 then Some(Sraw)
    else if op == 0x33 && f3 == 0x0 && f7 == 0x1 then Some(Mul)
    else if op == 0x33 && f3 == 0x1 && f7 == 0x1 then Some(Mulh)
    else if op == 0x33 && f3 == 0x2 && f7 == 0x1 then Some(Mulhsu)
    else if op == 0x33 && f3 == 0x3 && f7 == 0x1 then Some(Mulhu)
    else if op == 0x33 && f3 == 0x4 && f7 == 0x1 then Some(Div)
    else if op == 0x33 && f3 == 0x5 && f7 == 0x1 then Some(Divu)
    else if op == 0x33 && f3 == 0x6 && f7 == 0x1 then Some(Rem)
    else if op == 0x33 && f3 == 0x7 && f7 == 0x1 then Some(Remu)
    else if op == 0x3b && f3 == 0x0 && f7 == 0x1 then Some(Mulw)
    else if op == 0x3b && f3 == 0x4 && f7 == 0x1 then Some(Divw)
    else if op == 0x3b && f3 == 0x5 && f7 == 0x1 then Some(Divuw)
    else if op == 0x3b && f3 == 0x6 && f7 == 0x1 then Some(Remw)
    else if op == 0x3b && f3 == 0x7 && f7 == 0x1 then Some(Remuw)
    else None
  }

  lemma ROpFound(m: ROp)
    ensures var e := ROpEncoding(m);
            && FindROp(e.opcode, e.funct3, e.funct7) == Some(m)
            && (e.opcode == 0x33 || e.opcode == 0x3b)
            && e.funct3 < 0x8 && e.funct7 < 0x80
  {
    match m {
      case Add => case Sub => case Xor => case Or => case And => case Sll => case Srl => case Sra => case Slt =>
      case Sltu => case Addw => case Subw => case Sllw => case Srlw => case Sraw => case Mul => case Mulh =>
      case Mulhsu => case Mulhu => case Div => case Divu => case Rem => case Remu => case Mulw => case Divw =>
      case Divuw => case Remw => case Remuw =>
    }
  }

  function FindI1Op(op: bv32, f3: bv32): Option<I1Op> {
    if op == 0x13 && f3 == 0x0 then Some(Addi)
    else if op == 0x13 && f3 == 0x4 then Some(Xori)
    else if op == 0x13 && f3 == 0x6 then Some(Ori)
    else if op == 0x13 && f3 == 0x7 then Some(Andi)
    else if op == 0x13 && f3 == 0x3 then Some(Sltiu)
    else if op == 0x13 && f3 == 0x2 then Some(Slti)
    else if op == 0x1b && f3 == 0x0 then Some(Addiw)
    else if op == 0x3 && f3 == 0x0 then Some(Lb)
    else if op == 0x3 && f3 == 0x1 then Some(Lh)
    else if op == 0x3 && f3 == 0x2 then Some(Lw)
    else if op == 0x3 && f3 == 0x3 then Some(Ld)
    else if op == 0x3 && f3 == 0x4 then Some(Lbu)
    else if op == 0x3 && f3 == 0x5 then Some(Lhu)
    else if op == 0x3 && f3 == 0x6 then Some(Lwu)
    else if op == 0x67 && f3 == 0x0 then Some(Jalr)
    else None
  }

  lemma I1OpFound(m: I1Op)
    ensures var e := I1OpEncoding(m);
            && FindI1Op(e.opcode, e.funct3) == Some(m)
            && (e.opcode == 0x3 || e.opcode == 0x13 || e.opcode == 0x1b || e.opcode == 0x67)
            && e.funct3 < 0x8
  {
    match m {
      case Addi => case Xori => case Ori => case Andi => case Sltiu => case Slti => case Addiw => case Lb =>
      case Lh => case Lw => case Ld => case Lbu => case Lhu => case Lwu => case Jalr =>
    }
  }

  function FindI2Op(op: bv32, f3: bv32, f6: bv32): Option<I2Op> {
    if op == 0x13 && f3 == 0x1 && f6 == 0x0 then Some(Slli)
    else if op == 0x13 && f3 == 0x5 && f6 == 0x0 then Some(Srli)
    else if op == 0x13 && f3 == 0x5 && f6 == 0x10 then Some(Srai)
    else if op == 0x1b && f3 == 0x1 && f6 == 0x0 then Some(Slliw)
    else if op == 0x1b && f3 == 0x5 && f6 == 0x0 then Some(Srliw)
    else if op == 0x1b && f3 == 0x5 && f6 == 0x10 then Some(Sraiw)
    else None
  }

  lemma I2OpFound(m: I2Op)
    ensures var e := I2OpEncoding(m);
            && FindI2Op(e.opcode, e.funct3, e.funct6) == Some(m)
            && (e.opcode == 0x13 || e.opcode == 0x1b)
            && e.funct3 < 0x8 && e.funct6 < 0x40
  {
    match m {
      case Slli => case Srli => case Srai => case Slliw => case Srliw => case Sraiw =>
    }
  }

  function FindSOp(f3: bv32): Option<SOp> {
    if f3 == 0x0 then Some(Sb)
    else if f3 == 0x1 then Some(Sh)
    else if f3 == 0x2 then Some(Sw)
    else if f3 == 0x3 then Some(Sd)
    else None
  }

  lemma SOpFound(m: SOp)
    ensures var e := SOpEncoding(m);
            && FindSOp(e.funct3) == Some(m)
            && e.opcode == 0x23
            && e.funct3 < 0x8
  {
    match m {
      case Sb => case Sh => case Sw => case Sd =>
    }
  }

  function FindBOp(f3: bv32): Option<BOp> {
    if f3 == 0x0 then Some(Beq)
    else if f3 == 0x1 then Some(Bne)
    else if f3 == 0x4 then Some(Blt)
    else if f3 == 0x5 then Some(Bge)
    else if f3 == 0x6 then Some(Bltu)
    else if f3 == 0x7 then Some(Bgeu)
    else None
  }

  lemma BOpFound(m: BOp)
    ensures var e := BOpEncoding(m);
            && FindBOp(e.funct3) == Some(m)
            && e.opcode == 0x63
            && e.funct3 < 0x8
  {
    match m {
      case Beq => case Bne => case Blt => case Bge => case Bltu => case Bgeu =>
    }
  }

  function FindUOp(op: bv32): Option<UOp> {
    if op == 0x37 then Some(Lui)
    else if op == 0x17 then Some(Auipc)
    else None
  }

  lemma UOpFound(m: UOp)
    ensures var e := UOpEncoding(m);
            && FindUOp(e.opcode) == Some(m)
            && (e.opcode == 0x17 || e.opcode == 0x37)
            && e.funct3 == 0
  {
    match m {
      case Lui => case Auipc =>
    }
  }

  function FindCsrROp(f3: bv32): Option<CsrROp> {
    if f3 == 0x1 then Some(Csrrw)
    else if f3 == 0x2 then Some(Csrrs)
    else if f3 == 0x3 then Some(Csrrc)
    else None
  }

  lemma CsrROpFound(m: CsrROp)
    ensures var e := CsrROpEncoding(m);
            && FindCsrROp(e.funct3) == Some(m)
            && e.opcode == 0x73
            && e.funct3 < 0x8
  {
    match m {
      case Csrrw => case Csrrs => case Csrrc =>
    }
  }

  function FindCsrIOp(f3: bv32): Option<CsrIOp> {
    if f3 == 0x5 then Some(Csrrwi)
    else if f3 == 0x6 then Some(Csrrsi)
    else if f3 == 0x7 then Some(Csrrci)
    else None
  }

  lemma CsrIOpFound(m: CsrIOp)
    ensures var e := CsrIOpEncoding(m);
            && FindCsrIOp(e.funct3) == Some(m)
            && e.opcode == 0x73
            && e.funct3 < 0x8
  {
    match m {
      case Csrrwi => case Csrrsi => case Csrrci =>
    }
  }

  function FindFdROp(f3: bv32, f7: bv32): Option<FdROp> {
    if f3 == 0x0 && f7 == 0x10 then Some(FsgnjS)
    else if f3 == 0x1 && f7 == 0x10 then Some(FsgnjnS)
    else if f3 == 0x2 && f7 == 0x10 then Some(FsgnjxS)
    else if f3 == 0x0 && f7 == 0x14 then Some(FminS)
    else if f3 == 0x1 && f7 == 0x14 then Some(FmaxS)
    else if f3 == 0x2 && f7 == 0x50 then Some(FeqS)
    else if f3 == 0x1 && f7 == 0x50 then Some(FltS)
    else if f3 == 0x0 && f7 == 0x50 then Some(FleS)
    else if f3 == 0x2 && f7 == 0x51 then Some(FeqD)
    else if f3 == 0x1 && f7 == 0x51 then Some(FltD)
    else if f3 == 0x0 && f7 == 0x51 then Some(FleD)
    else if f3 == 0x0 && f7 == 0x11 then Some(FsgnjD)
    else if f3 == 0x1 && f7 == 0x11 then Some(FsgnjnD)
    else if f3 == 0x2 && f7 == 0x11 then Some(FsgnjxD)
    else if f3 == 0x0 && f7 == 0x15 then Some(FminD)
    else if f3 == 0x1 && f7 == 0x15 then Some(FmaxD)
    else None
  }

  lemma FdROpFound(m: FdROp)
    ensures var e := FdROpEncoding(m);
            && FindFdROp(e.funct3, e.funct7) == Some(m)
            && e.opcode == 0x53
            && e.funct3 < 0x8 && e.funct7 < 0x80
  {
    match m {
      case FsgnjS => case FsgnjnS => case FsgnjxS => case FminS => case FmaxS => case FeqS => case FltS =>
      case FleS => case FeqD => case FltD => case FleD => case FsgnjD => case FsgnjnD => case FsgnjxD =>
      case FminD => case FmaxD =>
    }
  }

  function FindFdR1Op(f7: bv32): Option<FdR1Op> {
    if f7 == 0x0 then Some(FaddS)
    else if f7 == 0x4 then Some(FsubS)
    else if f7 == 0x8 then Some(FmulS)
    else if f7 == 0xc then Some(FdivS)
    else if f7 == 0x1 then Some(FaddD)
    else if f7 == 0x5 then Some(FsubD)
    else if f7 == 0x9 then Some(FmulD)
    else if f7 == 0xd then Some(FdivD)
    else None
  }

  lemma FdR1OpFound(m: FdR1Op)
    ensures var e := FdR1OpEncoding(m);
            && FindFdR1Op(e.funct7) == Some(m)
            && e.opcode == 0x53
            && e.funct7 < 0x80
  {
    match m {
      case FaddS => case FsubS => case FmulS => case FdivS => case FaddD => case FsubD => case FmulD =>
      case FdivD =>
    }
  }

  function FindFdR2Op(f5: bv32, f7: bv32): Option<FdR2Op> {
    if f5 == 0x0 && f7 == 0x2c then Some(FsqrtS)
    else if f5 == 0x0 && f7 == 0x60 then Some(FcvtWS)
    else if f5 == 0x1 && f7 == 0x60 then Some(FcvtWuS)
    else if f5 == 0x2 && f7 == 0x60 then Some(FcvtLS)
    else if f5 == 0x3 && f7 == 0x60 then Some(FcvtLuS)
    else if f5 == 0x0 && f7 == 0x68 then Some(FcvtSW)
    else if f5 == 0x1 && f7 == 0x68 then Some(FcvtSWu)
    else if f5 == 0x2 && f7 == 0x68 then Some(FcvtSL)
    else if f5 == 0x3 && f7 == 0x68 then Some(FcvtSLu)
    else if f5 == 0x0 && f7 == 0x2d then Some(FsqrtD)
    else if f5 == 0x0 && f7 == 0x61 then Some(FcvtWD)
    else if f5 == 0x1 && f7 == 0x61 then Some(FcvtWuD)
    else if f5 == 0x2 && f7 == 0x61 then Some(FcvtLD)
    else if f5 == 0x3 && f7 == 0x61 then Some(FcvtLuD)
    else if f5 == 0x0 && f7 == 0x69 then Some(FcvtDW)
    else if f5 == 0x1 && f7 == 0x69 then Some(FcvtDWu)
    else if f5 == 0x2 && f7 == 0x69 then Some(FcvtDL)
    else if f5 == 0x3 && f7 == 0x69 then Some(FcvtDLu)
    else if f5 == 0x1 && f7 == 0x20 then Some(FcvtSD)
    else if f5 == 0x0 && f7 == 0x21 then Some(FcvtDS)
    else None
  }

  lemma FdR2OpFound(m: FdR2Op)
    ensures var e := FdR2OpEncoding(m);
            && FindFdR2Op(e.funct5, e.funct7) == Some(m)
            && e.opcode == 0x53
            && e.funct5 < 0x20 && e.funct7 < 0x80
  {
    match m {
      case FsqrtS => case FcvtWS => case FcvtWuS => case FcvtLS => case FcvtLuS => case FcvtSW =>
      case FcvtSWu => case FcvtSL => case FcvtSLu => case FsqrtD => case FcvtWD => case FcvtWuD =>
      case FcvtLD => case FcvtLuD => case FcvtDW => case FcvtDWu => case FcvtDL => case FcvtDLu =>
      case FcvtSD => case FcvtDS =>
    }
  }

  function FindFdR3Op(f3: bv32, f5: bv32, f7: bv32): Option<FdR3Op> {
    if f3 == 0x0 && f5 == 0x0 && f7 == 0x78 then Some(FmvWX)
    else if f3 == 0x0 && f5 == 0x0 && f7 == 0x70 then Some(FmvXW)
    else if f3 == 0x1 && f5 == 0x0 && f7 == 0x70 then Some(FclassS)
    else if f3 == 0x0 && f5 == 0x0 && f7 == 0x79 then Some(FmvDX)
    else if f3 == 0x0 && f5 == 0x0 && f7 == 0x71 then Some(FmvXD)
    else if f3 == 0x1 && f5 == 0x0 && f7 == 0x71 then Some(FclassD)
    else None
  }

  lemma FdR3OpFound(m: FdR3Op)
    ensures var e := FdR3OpEncoding(m);
            && FindFdR3Op(e.funct3, e.funct5, e.funct7) == Some(m)
            && e.opcode == 0x53
            && e.funct3 < 0x8 && e.funct5 < 0x20 && e.funct7 < 0x80
  {
    match m {
      case FmvWX => case FmvXW => case FclassS => case FmvDX => case FmvXD => case FclassD =>
    }
  }

  function FindFdR4Op(op: bv32, f2: bv32): Option<FdR4Op> {
    if op == 0x43 && f2 == 0x0 then Some(FmaddS)
    else if op == 0x47 && f2 == 0x0 then Some(FmsubS)
    else if op == 0x4b && f2 == 0x0 then Some(FnmsubS)
    else if op == 0x4f && f2 == 0x0 then Some(FnmaddS)
    else if op == 0x43 && f2 == 0x1 then Some(FmaddD)
    else if op == 0x47 && f2 == 0x1 then Some(FmsubD)
    else if op == 0x4b && f2 == 0x1 then Some(FnmsubD)
    else if op == 0x4f && f2 == 0x1 then Some(FnmaddD)
    else None
  }

  lemma FdR4OpFound(m: FdR4Op)
    ensures var e := FdR4OpEncoding(m);
            && FindFdR4Op(e.opcode, e.funct2) == Some(m)
            && (e.opcode == 0x43 || e.opcode == 0x47 || e.opcode == 0x4b || e.opcode == 0x4f)
            && e.funct2 < 0x4
  {
    match m {
      case FmaddS => case FmsubS => case FnmsubS => case FnmaddS => case FmaddD => case FmsubD =>
      case FnmsubD => case FnmaddD =>
    }
  }

  function FindFdIOp(f3: bv32): Option<FdIOp> {
    if f3 == 0x2 then Some(Flw)
    else if f3 == 0x3 then Some(Fld)
    else None
  }

  lemma FdIOpFound(m: FdIOp)
    ensures var e := FdIOpEncoding(m);
            && FindFdIOp(e.funct3) == Some(m)
            && e.opcode == 0x7
            && e.funct3 < 0x8
  {
    match m {
      case Flw => case Fld =>
    }
  }

  function FindFdSOp(f3: bv32): Option<FdSOp> {
    if f3 == 0x2 then Some(Fsw)
    else if f3 == 0x3 then Some(Fsd)
    else None
  }

  lemma FdSOpFound(m: FdSOp)
    ensures var e := FdSOpEncoding(m);
            && FindFdSOp(e.funct3) == Some(m)
            && e.opcode == 0x27
            && e.funct3 < 0x8
  {
    match m {
      case Fsw => case Fsd =>
    }
  }

  // ------------------------------------------------------------ how the constants are numbered

  /** Integer operations: one operation code per funct3, 32-bit forms on their own opcode, variants in funct7. */
  lemma IntegerNumbering(m: ROp)
    ensures var e := ROpEncoding(m);
            && (e.opcode == if m in {Addw, Subw, Sllw, Srlw, Sraw, Mulw, Divw, Divuw, Remw, Remuw} then 0x3B else 0x33)
            && (e.funct7 == 1 <==>
                m in {Mul, Mulh, Mulhsu, Mulhu, Div, Divu, Rem, Remu, Mulw, Divw, Divuw, Remw, Remuw})
            && (m in {Sub, Sra, Subw, Sraw} <==> e.funct7 == 0x20)
            && (e.funct7 == 0 || e.funct7 == 1 || e.funct7 == 0x20)
            && (e.funct3 == 0 <==> m in {Add, Sub, Mul, Addw, Subw, Mulw})
            && (e.funct3 == 1 <==> m in {Sll, Mulh, Sllw})
            && (e.funct3 == 2 <==> m in {Slt, Mulhsu})
            && (e.funct3 == 3 <==> m in {Sltu, Mulhu})
            && (e.funct3 == 4 <==> m in {Xor, Div, Divw})
            && (e.funct3 == 5 <==> m in {Srl, Sra, Divu, Srlw, Sraw, Divuw})
            && (e.funct3 == 6 <==> m in {Or, Rem, Remw})
            && (e.funct3 == 7 <==> m in {And, Remu, Remuw})
  {
    match m {
      case Add => case Sub => case Xor => case Or => case And => case Sll => case Srl => case Sra => case Slt =>
      case Sltu => case Addw => case Subw => case Sllw => case Srlw => case Sraw => case Mul => case Mulh =>
      case Mulhsu => case Mulhu => case Div => case Divu => case Rem => case Remu => case Mulw => case Divw =>
      case Divuw => case Remw => case Remuw =>
    }
  }

  /** Immediate forms share the funct3 of their register form; loads number width and sign; jalr stands alone. */
  lemma ImmediateNumbering(m: I1Op, s: I2Op)
    ensures var e := I1OpEncoding(m);
            && (m in {Addi, Slti, Sltiu, Xori, Ori, Andi} <==> e.opcode == 0x13)
            && (m in {Lb, Lh, Lw, Ld, Lbu, Lhu, Lwu} <==> e.opcode == 0x03)
            && (m == Addiw <==> e.opcode == 0x1B) && (m == Jalr <==> e.opcode == 0x67)
            && (e.funct3 == 0 <==> m in {Addi, Addiw, Lb, Jalr})
            && (e.funct3 == 1 <==> m == Lh) && (e.funct3 == 2 <==> m in {Slti, Lw})
            && (e.funct3 == 3 <==> m in {Sltiu, Ld}) && (e.funct3 == 4 <==> m in {Xori, Lbu})
            && (e.funct3 == 5 <==> m == Lhu) && (e.funct3 == 6 <==> m in {Ori, Lwu})
            && (e.funct3 == 7 <==> m == Andi)
    ensures var e := I2OpEncoding(s);
            && e.opcode == (if s in {Slliw, Srliw, Sraiw} then 0x1B else 0x13)
            && e.funct3 == (if s in {Slli, Slliw} then 1 else 5)
            && e.funct6 == (if s in {Srai, Sraiw} then 0x10 else 0)
  {
    match m {
      case Addi => case Xori => case Ori => case Andi => case Sltiu => case Slti => case Addiw => case Lb =>
      case Lh => case Lw => case Ld => case Lbu => case Lhu => case Lwu => case Jalr =>
    }
  }

  /** Stores number their width, branches pair a test with its negation, each CSR form its register form plus 4. */
  lemma ControlNumbering()
    ensures SOpEncoding(Sb).funct3 == 0 && SOpEncoding(Sh).funct3 == 1 && SOpEncoding(Sw).funct3 == 2
    ensures SOpEncoding(Sd).funct3 == 3 && FdIOpEncoding(Flw).funct3 == FdSOpEncoding(Fsw).funct3 == 2
    ensures FdIOpEncoding(Fld).funct3 == FdSOpEncoding(Fsd).funct3 == 3
    ensures BOpEncoding(Beq).funct3 == 0 && BOpEncoding(Bne).funct3 == 1 && BOpEncoding(Blt).funct3 == 4
    ensures BOpEncoding(Bge).funct3 == 5 && BOpEncoding(Bltu).funct3 == 6 && BOpEncoding(Bgeu).funct3 == 7
    ensures UOpEncoding(Lui).opcode == 0x37 && UOpEncoding(Auipc).opcode == 0x17
    ensures CsrROpEncoding(Csrrw).funct3 == 1 && CsrIOpEncoding(Csrrwi).funct3 == 5
    ensures CsrROpEncoding(Csrrs).funct3 == 2 && CsrIOpEncoding(Csrrsi).funct3 == 6
    ensures CsrROpEncoding(Csrrc).funct3 == 3 && CsrIOpEncoding(Csrrci).funct3 == 7
    ensures EncodingOf(Ecall) == Encoding(0x73, 0, 0, 0, 0, 0) && EncodingOf(Jal).opcode == 0x6F
    ensures EncodingOf(Ldbm) == Encoding(0x2A, 0, 0, 0, 0, 0) && EncodingOf(Bigmul) == Encoding(0x3F, 0, 0, 0, 0, 0)
  {
  }

  /** Floating-point operations: one funct7 per operation, with bit 0 set for doubles, and funct3 inside it. */
  lemma FloatNumbering(m: FdROp, a: FdR1Op)
    ensures var e := FdROpEncoding(m);
            && (e.funct7 == 0x10 <==> m in {FsgnjS, FsgnjnS, FsgnjxS})
            && (e.funct7 == 0x11 <==> m in {FsgnjD, FsgnjnD, FsgnjxD})
            && (e.funct7 == 0x14 <==> m in {FminS, FmaxS}) && (e.funct7 == 0x15 <==> m in {FminD, FmaxD})
            && (e.funct7 == 0x50 <==> m in {FeqS, FltS, FleS}) && (e.funct7 == 0x51 <==> m in {FeqD, FltD, FleD})
            && (e.funct3 == 0 <==> m in {FsgnjS, FsgnjD, FminS, FminD, FleS, FleD})
            && (e.funct3 == 1 <==> m in {FsgnjnS, FsgnjnD, FmaxS, FmaxD, FltS, FltD})
    ensures var e := FdR1OpEncoding(a);
            && (a in {FaddS, FaddD} <==> e.funct7 < 2) && (a in {FsubS, FsubD} <==> 4 <= e.funct7 < 6)
            && (a in {FmulS, FmulD} <==> 8 <= e.funct7 < 10) && (a in {FdivS, FdivD} <==> 12 <= e.funct7 < 14)
            && (e.funct7 & 1 == 1 <==> a in {FaddD, FsubD, FmulD, FdivD})
  {
    match a {
      case FaddS => case FsubS => case FmulS => case FdivS => case FaddD => case FsubD => case FmulD => case FdivD =>
    }
  }

  /** Conversions: the operation in funct7, the integer type (w, wu, l, lu) or the other width in funct5. */
  lemma ConversionNumbering(c: FdR2Op)
    ensures var e := FdR2OpEncoding(c);
            && (e.funct7 == 0x2C <==> c == FsqrtS) && (e.funct7 == 0x2D <==> c == FsqrtD)
            && (e.funct7 == 0x20 <==> c == FcvtSD) && (e.funct7 == 0x21 <==> c == FcvtDS)
            && (e.funct7 == 0x60 <==> c in {FcvtWS, FcvtWuS, FcvtLS, FcvtLuS})
            && (e.funct7 == 0x61 <==> c in {FcvtWD, FcvtWuD, FcvtLD, FcvtLuD})
            && (e.funct7 == 0x68 <==> c in {FcvtSW, FcvtSWu, FcvtSL, FcvtSLu})
            && (e.funct7 == 0x69 <==> c in {FcvtDW, FcvtDWu, FcvtDL, FcvtDLu})
            && (e.funct5 == 1 <==> c in {FcvtWuS, FcvtWuD, FcvtSWu, FcvtDWu, FcvtSD})
            && (e.funct5 == 2 <==> c in {FcvtLS, FcvtLD, FcvtSL, FcvtDL})
            && (e.funct5 == 3 <==> c in {FcvtLuS, FcvtLuD, FcvtSLu, FcvtDLu})
  {
    match c {
      case FsqrtS => case FcvtWS => case FcvtWuS => case FcvtLS => case FcvtLuS => case FcvtSW =>
      case FcvtSWu => case FcvtSL => case FcvtSLu => case FsqrtD => case FcvtWD => case FcvtWuD =>
      case FcvtLD => case FcvtLuD => case FcvtDW => case FcvtDWu => case FcvtDL => case FcvtDLu =>
      case FcvtSD => case FcvtDS =>
    }
  }

  /** Moves between the register files and classification. */
  lemma MoveNumbering(v: FdR3Op)
    ensures var e := FdR3OpEncoding(v);
            && (e.funct7 == 0x70 <==> v in {FmvXW, FclassS}) && (e.funct7 == 0x71 <==> v in {FmvXD, FclassD})
            && (e.funct7 == 0x78 <==> v == FmvWX) && (e.funct7 == 0x79 <==> v == FmvDX)
            && (e.funct3 == 1 <==> v in {FclassS, FclassD}) && e.funct5 == 0
  {
    match v { case FmvWX => case FmvXW => case FclassS => case FmvDX => case FmvXD => case FclassD => }
  }

  /** Fused operations: one opcode each, with funct2 set for doubles. */
  lemma FusedNumbering(f: FdR4Op)
    ensures var e := FdR4OpEncoding(f);
            && (e.opcode == 0x43 <==> f in {FmaddS, FmaddD}) && (e.opcode == 0x47 <==> f in {FmsubS, FmsubD})
            && (e.opcode == 0x4B <==> f in {FnmsubS, FnmsubD}) && (e.opcode == 0x4F <==> f in {FnmaddS, FnmaddD})
            && e.funct2 == (if f in {FmaddD, FmsubD, FnmsubD, FnmaddD} then 1 else 0)
  {
    match f {
      case FmaddS => case FmsubS => case FnmsubS => case FnmaddS => case FmaddD => case FmsubD =>
      case FnmsubD => case FnmaddD =>
    }
  }
}
