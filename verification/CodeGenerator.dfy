/**
 The encoders of the code generator and the immediate decoder of the machine, as bit operations on
 32-bit words. Immediates are the 32 bits of the int32_t the generator reads.
 */
module CodeGenerator {
  import opened InstructionSet

  /** A unit of intermediate code: register numbers, immediate, CSR number and rounding mode. */
  datatype ICUnit = ICUnit(op: Opcode, rd: bv32, rs1: bv32, rs2: bv32, rs3: bv32, csr: bv32, imm: bv32, rm: bv32)

  // ------------------------------------------------------------ encoders

  function Pack(f7: bv32, rs2: bv32, rs1: bv32, f3: bv32, rd: bv32, op: bv32): bv32 {
    (f7 << 25) | (rs2 << 20) | (rs1 << 15) | (f3 << 12) | (rd << 7) | op
  }

  /** R, RL and F/D-R: two source registers and a function field. */
  function EncodeR(u: ICUnit): bv32 {
    var e := EncodingOf(u.op);
    Pack(e.funct7, u.rs2, u.rs1, e.funct3, u.rd, e.opcode)
  }

  /** I1 and F/D-I: the immediate in the top bits. */
  function EncodeI1(u: ICUnit): bv32 {
    var e := EncodingOf(u.op);
    (u.imm << 20) | (u.rs1 << 15) | (e.funct3 << 12) | (u.rd << 7) | e.opcode
  }

  function EncodeI2(u: ICUnit): bv32 {
    var e := EncodingOf(u.op);
    (e.funct6 << 26) | (u.imm << 20) | (u.rs1 << 15) | (e.funct3 << 12) | (u.rd << 7) | e.opcode
  }

  function EncodeI3(u: ICUnit): bv32 {
    var e := EncodingOf(u.op);
    (e.funct3 << 12) | e.opcode
  }

  /** S, SR and F/D-S: the immediate split around the registers. */
  function EncodeS(u: ICUnit): bv32 {
    var e := EncodingOf(u.op);
    Pack((u.imm >> 5) & 0x7F, u.rs2, u.rs1, e.funct3, u.imm & 0x1F, e.opcode)
  }

  function EncodeB(u: ICUnit): bv32 {
    var e := EncodingOf(u.op);
    var imm12, imm10_5, imm4_1, imm11 := (u.imm >> 12) & 1, (u.imm >> 5) & 0x3F, (u.imm >> 1) & 0xF, (u.imm >> 11) & 1;
    (imm12 << 31) | (imm10_5 << 25) | (u.rs2 << 20) | (u.rs1 << 15) | (e.funct3 << 12) | (imm4_1 << 8) | (imm11 << 7)
    | e.opcode
  }

  function EncodeU(u: ICUnit): bv32 {
    ((u.imm & 0xFFFFF) << 12) | (u.rd << 7) | EncodingOf(u.op).opcode
  }

  function EncodeJ(u: ICUnit): bv32 {
    ((u.imm & 0x100000) << 11) | ((u.imm & 0x7FE) << 20) | ((u.imm & 0x800) << 9) | (u.imm & 0xFF000)
    | (u.rd << 7) | EncodingOf(u.op).opcode
  }

  function EncodeCsrR(u: ICUnit): bv32 {
    var e := EncodingOf(u.op);
    ((u.csr & 0xFFF) << 20) | (u.rs1 << 15) | (e.funct3 << 12) | (u.rd << 7) | e.opcode
  }

  function EncodeCsrI(u: ICUnit): bv32 {
    var e := EncodingOf(u.op);
    ((u.csr & 0xFFF) << 20) | ((u.imm & 0x1F) << 15) | (e.funct3 << 12) | (u.rd << 7) | e.opcode
  }

  function EncodeFdR1(u: ICUnit): bv32 {
    var e := EncodingOf(u.op);
    Pack(e.funct7, u.rs2, u.rs1, u.rm & 7, u.rd, e.opcode)
  }

  function EncodeFdR2(u: ICUnit): bv32 {
    var e := EncodingOf(u.op);
    Pack(e.funct7, e.funct5, u.rs1, u.rm & 7, u.rd, e.opcode)
  }

  function EncodeFdR3(u: ICUnit): bv32 {
    var e := EncodingOf(u.op);
    Pack(e.funct7, e.funct5, u.rs1, e.funct3, u.rd, e.opcode)
  }

  function EncodeFdR4(u: ICUnit): bv32 {
    var e := EncodingOf(u.op);
    (u.rs3 << 27) | (e.funct2 << 25) | (u.rs2 << 20) | (u.rs1 << 15) | ((u.rm & 7) << 12) | (u.rd << 7) | e.opcode
  }

  function Encode(u: ICUnit): bv32 {
    match u.op
    case R(_) => EncodeR(u)
    case Ldbm => EncodeR(u)
    case Bigmul => EncodeS(u)
    case I1(_) => EncodeI1(u)
    case I2(_) => EncodeI2(u)
    case Ecall => EncodeI3(u)
    case S(_) => EncodeS(u)
    case Branch(_) => EncodeB(u)
    case U(_) => EncodeU(u)
    case Jal => EncodeJ(u)
    case CsrR(_) => EncodeCsrR(u)
    case CsrI(_) => EncodeCsrI(u)
    case FdR(_) => EncodeR(u)
    case FdR1(_) => EncodeFdR1(u)
    case FdR2(_) => EncodeFdR2(u)
    case FdR3(_) => EncodeFdR3(u)
    case FdR4(_) => EncodeFdR4(u)
    case FdI(_) => EncodeI1(u)
    case FdS(_) => EncodeS(u)
  }

  /** One word per unit, in order. */
  method GenerateMachineCode(code: seq<ICUnit>) returns (words: seq<bv32>)
    ensures |words| == |code|
    ensures forall i :: 0 <= i < |code| ==> words[i] == Encode(code[i])
  {
    hide Encode;
    words := [];
    for i := 0 to |code|
      invariant |words| == i
      invariant forall t :: 0 <= t < i ==> words[t] == Encode(code[t])
    {
      words := words + [Encode(code[i])];
    }
  }

  // ------------------------------------------------------------ operands

  /** Signed immediates are ranges of int32_t, compared after shifting the range to start at zero. */
  predicate Signed12(imm: bv32) { imm + 0x800 < 0x1000 }
  predicate Signed13(imm: bv32) { imm + 0x1000 < 0x2000 }
  predicate Signed21(imm: bv32) { imm + 0x10_0000 < 0x20_0000 }
  predicate Even(imm: bv32) { imm & 1 == 0 }
  predicate Reg(r: bv32) { r < 32 }

  /** The operands the format encodes are in the ranges the parser admits. */
  predicate InRange(u: ICUnit) {
    match u.op
    case R(_) => Reg(u.rd) && Reg(u.rs1) && Reg(u.rs2)
    case Ldbm => Reg(u.rd) && Reg(u.rs1) && Reg(u.rs2)
    case Bigmul => Reg(u.rs1) && Reg(u.rs2) && Signed12(u.imm)
    case I1(_) => Reg(u.rd) && Reg(u.rs1) && Signed12(u.imm)
    case I2(_) => Reg(u.rd) && Reg(u.rs1) && u.imm < 64
    case Ecall => true
    case S(_) => Reg(u.rs1) && Reg(u.rs2) && Signed12(u.imm)
    case Branch(_) => Reg(u.rs1) && Reg(u.rs2) && Signed13(u.imm) && Even(u.imm)
    case U(_) => Reg(u.rd) && u.imm < 0x10_0000
    case Jal => Reg(u.rd) && Signed21(u.imm) && Even(u.imm)
    case CsrR(_) => Reg(u.rd) && Reg(u.rs1) && u.csr < 0x1000
    case CsrI(_) => Reg(u.rd) && u.imm < 32 && u.csr < 0x1000
    case FdR(_) => Reg(u.rd) && Reg(u.rs1) && Reg(u.rs2)
    case FdR1(_) => Reg(u.rd) && Reg(u.rs1) && Reg(u.rs2) && u.rm < 8
    case FdR2(_) => Reg(u.rd) && Reg(u.rs1) && u.rm < 8
    case FdR3(_) => Reg(u.rd) && Reg(u.rs1)
    case FdR4(_) => Reg(u.rd) && Reg(u.rs1) && Reg(u.rs2) && Reg(u.rs3) && u.rm < 8
    case FdI(_) => Reg(u.rd) && Reg(u.rs1) && Signed12(u.imm)
    case FdS(_) => Reg(u.rs1) && Reg(u.rs2) && Signed12(u.imm)
  }

  /** The unit with everything its format does not encode set to zero. */
  function Encoded(u: ICUnit): ICUnit {
    match u.op
    case R(_) => ICUnit(u.op, u.rd, u.rs1, u.rs2, 0, 0, 0, 0)
    case Ldbm => ICUnit(u.op, u.rd, u.rs1, u.rs2, 0, 0, 0, 0)
    case Bigmul => ICUnit(u.op, 0, u.rs1, u.rs2, 0, 0, u.imm, 0)
    case I1(_) => ICUnit(u.op, u.rd, u.rs1, 0, 0, 0, u.imm, 0)
    case I2(_) => ICUnit(u.op, u.rd, u.rs1, 0, 0, 0, u.imm, 0)
    case Ecall => ICUnit(u.op, 0, 0, 0, 0, 0, 0, 0)
    case S(_) => ICUnit(u.op, 0, u.rs1, u.rs2, 0, 0, u.imm, 0)
    case Branch(_) => ICUnit(u.op, 0, u.rs1, u.rs2, 0, 0, u.imm, 0)
    case U(_) => ICUnit(u.op, u.rd, 0, 0, 0, 0, u.imm, 0)
    case Jal => ICUnit(u.op, u.rd, 0, 0, 0, 0, u.imm, 0)
    case CsrR(_) => ICUnit(u.op, u.rd, u.rs1, 0, 0, u.csr, 0, 0)
    case CsrI(_) => ICUnit(u.op, u.rd, 0, 0, 0, u.csr, u.imm, 0)
    case FdR(_) => ICUnit(u.op, u.rd, u.rs1, u.rs2, 0, 0, 0, 0)
    case FdR1(_) => ICUnit(u.op, u.rd, u.rs1, u.rs2, 0, 0, 0, u.rm)
    case FdR2(_) => ICUnit(u.op, u.rd, u.rs1, 0, 0, 0, 0, u.rm)
    case FdR3(_) => ICUnit(u.op, u.rd, u.rs1, 0, 0, 0, 0, 0)
    case FdR4(_) => ICUnit(u.op, u.rd, u.rs1, u.rs2, u.rs3, 0, 0, u.rm)
    case FdI(_) => ICUnit(u.op, u.rd, u.rs1, 0, 0, 0, u.imm, 0)
    case FdS(_) => ICUnit(u.op, 0, u.rs1, u.rs2, 0, 0, u.imm, 0)
  }

  // ------------------------------------------------------------ immediates

  function SignExtend12(v: bv32): bv32 { (v ^ 0x800) - 0x800 }
  function SignExtend13(v: bv32): bv32 { (v ^ 0x1000) - 0x1000 }
  function SignExtend21(v: bv32): bv32 { (v ^ 0x10_0000) - 0x10_0000 }

  function Op(w: bv32): bv32 { w & 0x7F }

  function ImmI(w: bv32): bv32 { SignExtend12((w >> 20) & 0xFFF) }
  function ImmS(w: bv32): bv32 { SignExtend12(((w >> 7) & 0x1F) | (((w >> 25) & 0x7F) << 5)) }
  function ImmB(w: bv32): bv32 {
    SignExtend13((((w >> 8) & 0xF) | (((w >> 25) & 0x3F) << 4) | (((w >> 7) & 1) << 10) | (((w >> 31) & 1) << 11)) << 1)
  }
  function ImmU(w: bv32): bv32 { (w & 0xFFFF_F000) >> 12 }
  function JoinJ(imm10_1: bv32, imm11: bv32, imm19_12: bv32, imm20: bv32): bv32 {
    (imm10_1 | (imm11 << 10) | (imm19_12 << 11) | (imm20 << 19)) << 1
  }
  function Bits10At21(w: bv32): bv32 { (w >> 21) & 0x3FF }
  function BitAt20(w: bv32): bv32 { (w >> 20) & 1 }
  function Bits8At12(w: bv32): bv32 { (w >> 12) & 0xFF }
  function BitAt31(w: bv32): bv32 { (w >> 31) & 1 }
  function ImmJ(w: bv32): bv32 { SignExtend21(JoinJ(Bits10At21(w), BitAt20(w), Bits8At12(w), BitAt31(w))) }

  /** The immediate the machine reads off an instruction word, by its opcode. */
  function ImmGenerator(w: bv32): bv32 {
    var opcode := Op(w);
    if opcode == 0x13 || opcode == 0x03 || opcode == 0x67 || opcode == 0x0F || opcode == 0x07 then ImmI(w)
    else if opcode == 0x23 || opcode == 0x27 then ImmS(w)
    else if opcode == 0x63 then ImmB(w)
    else if opcode == 0x37 || opcode == 0x17 then ImmU(w)
    else if opcode == 0x6F then ImmJ(w)
    else 0
  }

  /** The formats of the standard instructions that carry an immediate (shift amounts aside). */
  predicate HasImmediate(op: Opcode) {
    match op
    case I1(_) => true
    case S(_) => true
    case Branch(_) => true
    case U(_) => true
    case Jal => true
    case FdI(_) => true
    case FdS(_) => true
    case _ => false
  }
}
