/**
 The text section: label addresses, the offsets of labelled branches and jumps, and where the machine
 goes with them. Addresses are 64-bit numbers; instruction numbers are multiplied by four in 32 bits.
 */
module TextLayout {
  import opened Limbs
  import opened InstructionSet
  import opened CodeGenerator
  import opened Disassembly
  import Reassembly

  // ------------------------------------------------------------ int32_t as bits

  /** The binary digits of a number. */
  function Bits(x: nat): bv32 {
    if x == 0 then 0 else Digit(Bits(x / 2), x % 2 == 1)
  }

  function Digit(v: bv32, one: bool): bv32 { (v << 1) | (if one then 1 else 0) }

  /** The number the digits of a word stand for. */
  function Unsigned(v: bv32): nat {
    if v == 0 then 0 else 2 * Unsigned(Half(v)) + if Odd(v) then 1 else 0
  }

  function Half(v: bv32): (h: bv32)
    ensures v != 0 ==> h < v
  {
    v >> 1
  }

  predicate Odd(v: bv32) { v & 1 == 1 }

  /** Two's complement: the int32_t of a number, and the number of an int32_t. */
  function Int32(x: int): bv32 { if x >= 0 then Bits(x) else Not(Bits(0 - x - 1)) }
  function Signed32(v: bv32): int { if Positive(v) then Unsigned(v) else 0 - Unsigned(Not(v)) - 1 }
  function Not(v: bv32): bv32 { !v }
  predicate Positive(v: bv32) { v < 0x8000_0000 }

  /** w is 2^k. */
  predicate Weight(w: bv32, k: nat) {
    if k == 0 then w == 1 else !Odd(w) && Weight(Half(w), k - 1)
  }

  function Pow2(k: nat): (p: nat)
    ensures p >= 1
  {
    if k == 0 then 1 else 2 * Pow2(k - 1)
  }

  lemma DigitBelow(v: bv32, one: bool, w: bv32)
    requires v < Half(w) && !Odd(w)
    ensures Digit(v, one) < w
  {
  }

  /** A number below 2^k has only k digits. */
  lemma {:induction false} BitsBelow(x: nat, k: nat, w: bv32)
    requires x < Pow2(k) && Weight(w, k)
    ensures Bits(x) < w
  {
    hide Digit, Half, Odd;
    if x == 0 {
      WeightPositive(w, k);
    } else {
      BitsBelow(x / 2, k - 1, Half(w));
      DigitBelow(Bits(x / 2), x % 2 == 1, w);
    }
  }

  lemma {:induction false} WeightPositive(w: bv32, k: nat)
    requires Weight(w, k)
    ensures w != 0
  {
    if k > 0 { WeightPositive(Half(w), k - 1); }
  }

  lemma DigitParts(v: bv32, one: bool)
    requires Positive(v)
    ensures Half(Digit(v, one)) == v && (Odd(Digit(v, one)) <==> one)
    ensures Digit(v, one) == 0 <==> v == 0 && !one
  {
  }

  lemma Weights()
    ensures Weight(0x1000, 12) && Weight(0x10_0000, 20) && Weight(0x8000_0000, 31)
    ensures Pow2(12) == 0x1000 && Pow2(20) == 0x10_0000 && Pow2(31) == 0x8000_0000
  {
  }

  lemma {:induction false} BitsRoundTrip(x: nat)
    requires x < 0x8000_0000
    ensures Positive(Bits(x)) && Unsigned(Bits(x)) == x
  {
    Weights();
    hide Digit, Half, Odd, Weight, Pow2;
    BitsBelow(x, 31, 0x8000_0000);
    if x > 0 {
      BitsRoundTrip(x / 2);
      DigitParts(Bits(x / 2), x % 2 == 1);
    }
  }

  lemma Complement(v: bv32)
    ensures Not(Not(v)) == v && (Positive(v) <==> !Positive(Not(v)))
  {
  }

  lemma Int32RoundTrip(x: int)
    requires -0x8000_0000 <= x < 0x8000_0000
    ensures Signed32(Int32(x)) == x
  {
    hide Bits, Unsigned, Not, Positive;
    var m: nat := if x >= 0 then x else 0 - x - 1;
    BitsRoundTrip(m);
    Complement(Bits(m));
  }

  lemma HalfBelow(v: bv32, w: bv32)
    requires v < w && !Odd(w)
    ensures Half(v) < Half(w)
  {
  }

  lemma {:induction false} UnsignedBelow(v: bv32, w: bv32, k: nat)
    requires v < w && Weight(w, k)
    ensures Unsigned(v) < Pow2(k)
    decreases k
  {
    hide Half, Odd;
    if v != 0 {
      if k == 0 {
        OnlyZeroBelowOne(v);
      } else {
        HalfBelow(v, w);
        UnsignedBelow(Half(v), Half(w), k - 1);
      }
    }
  }

  lemma OnlyZeroBelowOne(v: bv32)
    requires v < 1
    ensures v == 0
  {
  }

  lemma HalfPositive(v: bv32)
    ensures Positive(Half(v))
    ensures Digit(Half(v), Odd(v)) == v
    ensures v != 0 && !Odd(v) ==> Half(v) != 0
  {
  }

  lemma BitsOfDouble(u: nat, one: bool)
    requires u > 0 || one
    ensures Bits(2 * u + if one then 1 else 0) == Digit(Bits(u), one)
  {
    hide Digit;
    var x := 2 * u + if one then 1 else 0;
    assert x / 2 == u && (x % 2 == 1 <==> one);
  }

  lemma UnsignedHalf(v: bv32)
    ensures Unsigned(Half(v)) < 0x8000_0000
  {
    Weights();
    HalfPositive(v);
    PositiveBelow(Half(v));
    hide Half, Weight, Pow2, Unsigned;
    UnsignedBelow(Half(v), 0x8000_0000, 31);
  }

  /** A word is a number below 2^32, and its digits are that number's. */
  lemma {:induction false} WordIsNumber(v: bv32)
    ensures Unsigned(v) < W32 && Bits(Unsigned(v)) == v
    decreases v
  {
    UnsignedHalf(v);
    HalfPositive(v);
    if v != 0 {
      NonZero(v);
      hide Half, Odd, Positive, Digit, Bits;
      WordIsNumber(Half(v));
      BitsOfDouble(Unsigned(Half(v)), Odd(v));
    }
  }

  lemma PositiveBelow(v: bv32)
    requires Positive(v)
    ensures v < 0x8000_0000
  {
  }

  lemma {:induction false} NonZero(v: bv32)
    requires v != 0
    ensures Unsigned(v) > 0
    decreases v
  {
    HalfPositive(v);
    hide Half, Odd, Digit;
    if !Odd(v) { NonZero(Half(v)); }
  }

  // ------------------------------------------------------------ ranges

  lemma ShortRange(v: bv32)
    requires v < 0x1000
    ensures Signed13(v) && Signed13(Not(v))
  {
  }

  lemma LongRange(v: bv32)
    requires v < 0x10_0000
    ensures Signed21(v) && Signed21(Not(v))
  {
  }

  /** The parser's range check admits only immediates of the format. */
  lemma RangeFits(x: int)
    ensures -0x1000 <= x < 0x1000 ==> Signed13(Int32(x))
    ensures -0x10_0000 <= x < 0x10_0000 ==> Signed21(Int32(x))
  {
    Weights();
    hide Bits, Weight, Pow2, Signed13, Signed21, Not;
    var m: nat := if x >= 0 then x else 0 - x - 1;
    if m < 0x1000 { BitsBelow(m, 12, 0x1000); ShortRange(Bits(m)); }
    if m < 0x10_0000 { BitsBelow(m, 20, 0x10_0000); LongRange(Bits(m)); }
  }

  // ------------------------------------------------------------ the lost bit

  function SetLow(v: bv32): bv32 { v | 1 }

  lemma ClearHalf(v: bv32)
    ensures Half(ClearLow(v)) == Half(v)
  {
  }

  lemma SetHalf(v: bv32)
    ensures Half(SetLow(v)) == Half(v)
  {
  }

  lemma ClearNot(v: bv32)
    ensures Not(ClearLow(Not(v))) == SetLow(v)
  {
  }

  lemma LowBits(v: bv32)
    ensures !Odd(ClearLow(v))
    ensures Odd(SetLow(v))
  {
  }

  lemma ClearSign(v: bv32)
    ensures Positive(ClearLow(v)) <==> Positive(v)
  {
  }

  lemma UnsignedStep(v: bv32)
    ensures Unsigned(v) == 2 * Unsigned(Half(v)) + if Odd(v) then 1 else 0
  {
  }

  lemma UnsignedClear(v: bv32)
    ensures Unsigned(ClearLow(v)) == Unsigned(v) - Unsigned(v) % 2
    ensures Unsigned(SetLow(v)) == Unsigned(v) - Unsigned(v) % 2 + 1
  {
    hide Half, Odd, ClearLow, SetLow, Unsigned;
    ClearHalf(v);
    SetHalf(v);
    LowBits(v);
    UnsignedStep(v);
    UnsignedStep(ClearLow(v));
    UnsignedStep(SetLow(v));
  }

  /** Clearing the lowest bit rounds down to an even number, for negative numbers too. */
  lemma ClearLowRounds(v: bv32)
    ensures Signed32(ClearLow(v)) == Signed32(v) - Signed32(v) % 2
  {
    hide Not, Positive, ClearLow, SetLow, Unsigned;
    ClearSign(v);
    UnsignedClear(v);
    var w := Not(v);
    UnsignedClear(w);
    Complement(v);
    ClearNot(w);
  }

  // ------------------------------------------------------------ addresses

  const W63: int := 0x8000_0000_0000_0000

  /** The address of instruction k, an unsigned int product. */
  function Pc(k: nat): u64 { 4 * k % W32 }

  /** static_cast<int64_t>(address - index*4) */
  function Offset(address: u64, k: nat): int {
    var d := (address - Pc(k)) % B;
    if d < W63 then d else d - B
  }

  /** The parser's range check for a branch or a jump. */
  predicate InReach(op: Opcode, offset: int) {
    if op.Branch? then -4096 <= offset <= 4095 else -1048576 <= offset <= 1048575
  }

  function Aim(u: ICUnit, address: u64, k: nat): ICUnit { u.(imm := Int32(Offset(address, k))) }

  predicate RegistersOk(u: ICUnit) { Reg(u.rd) && Reg(u.rs1) && Reg(u.rs2) }

  /** Where instruction k goes when its word is a taken branch or a jump: the program counter plus the immediate. */
  function Landing(k: nat, word: bv32): u64 { (Pc(k) + Signed32(ImmGenerator(word))) % B }

  lemma PcIsMultiple(k: nat)
    ensures Pc(k) == 4 * (Pc(k) / 4)
  {
    assert 4 * k == W32 * (4 * k / W32) + Pc(k);
  }

  lemma ModSmall(d: int)
    requires -B < d < B
    ensures d % B == if d >= 0 then d else d + B
  {
  }

  /** The offset is the distance up to a multiple of 2^64, taken as a signed number. */
  lemma OffsetIsDistance(address: u64, k: nat)
    ensures -0x8000_0000_0000_0000 <= Offset(address, k) <= 0x7FFF_FFFF_FFFF_FFFF
    ensures var d := Offset(address, k) - (address - Pc(k)); d == 0 || d == B || d == 0 - B
  {
    hide Pc;
    ModSmall(address - Pc(k));
  }

  lemma Parity(x: int, t: int)
    ensures (x + 2 * t) % 2 == x % 2
  {
  }

  /**
   Main result: encoded, decoded and taken, an offset in reach leads to the address it was computed
   from, rounded down to an even one.
   */
  lemma Arrives(u: ICUnit, address: u64, k: nat)
    requires u.op.Branch? || u.op.Jal?
    requires RegistersOk(u)
    requires InReach(u.op, Offset(address, k))
    ensures Landing(k, Encode(Aim(u, address, k))) == address - address % 2
  {
    hide ImmGenerator, Encode, Signed13, Signed21, Reg, Pc, Offset, ClearLow, Int32, Signed32;
    var offset, v := Offset(address, k), Aim(u, address, k);
    RangeFits(offset);
    if u.op.Branch? { BranchImmediate(v); } else { JumpImmediate(v); }
    Int32RoundTrip(offset);
    ClearLowRounds(v.imm);
    OffsetIsDistance(address, k);
    PcIsMultiple(k);
    var d := offset - (address - Pc(k));
    Parity(address, (if d == 0 then 0 else if d == B then W63 else 0 - W63) - 2 * (Pc(k) / 4));
    assert ImmGenerator(Encode(v)) == ClearLow(v.imm);
    var x := Pc(k) + offset - offset % 2;
    assert x % B == address - address % 2;
  }

  // ------------------------------------------------------------ the range check is exact

  lemma ShortCases(v: bv32)
    requires Signed13(v)
    ensures v < 0x1000 || Not(v) < 0x1000
    ensures v < 0x1000 ==> Positive(v)
  {
  }

  lemma LongCases(v: bv32)
    requires Signed21(v)
    ensures v < 0x10_0000 || Not(v) < 0x10_0000
    ensures v < 0x10_0000 ==> Positive(v)
  {
  }

  lemma ShortValue(v: bv32)
    requires Signed13(v)
    ensures -4096 <= Signed32(v) <= 4095
  {
    ShortCases(v);
    Weights();
    hide Signed13, Not, Positive, Unsigned, Pow2, Weight;
    Complement(v);
    if Positive(v) && v < 0x1000 { UnsignedBelow(v, 0x1000, 12); }
    if Not(v) < 0x1000 { UnsignedBelow(Not(v), 0x1000, 12); ShortPositive(Not(v)); }
  }

  lemma LongValue(v: bv32)
    requires Signed21(v)
    ensures -1048576 <= Signed32(v) <= 1048575
  {
    LongCases(v);
    Weights();
    hide Signed21, Not, Positive, Unsigned, Pow2, Weight;
    Complement(v);
    if Positive(v) && v < 0x10_0000 { UnsignedBelow(v, 0x10_0000, 20); }
    if Not(v) < 0x10_0000 { UnsignedBelow(Not(v), 0x10_0000, 20); ShortPositive(Not(v)); }
  }

  lemma ShortPositive(v: bv32)
    requires v < 0x10_0000
    ensures Positive(v)
  {
  }

  lemma TransferOpcode(u: ICUnit)
    requires RegistersOk(u) && (u.op.Branch? || u.op.Jal?)
    ensures ImmGenerator(Encode(u)) == if u.op.Branch? then ImmB(Encode(u)) else ImmJ(Encode(u))
  {
    hide BranchWord, JumpWord, Op, F3, Rs1, Rs2, Rd, ImmB, ImmJ, ImmGenerator, EncodeB, EncodeJ;
    GeneratorFormats(Encode(u));
    if u.op.Branch? {
      EncodeBIsBranchWord(u);
      BOpFound(u.op.br);
      BranchFields(u.imm, u.rs2, u.rs1, EncodingOf(u.op).funct3, EncodingOf(u.op).opcode);
    } else {
      EncodeJIsJumpWord(u);
      JumpFields(u.imm, u.rd, 0x6F);
    }
  }

  /**
   Main result: the parser's range check admits exactly the offsets that come back from the word, up
   to the lowest bit.
   */
  lemma ReachIsExact(u: ICUnit, x: int)
    requires RegistersOk(u) && (u.op.Branch? || u.op.Jal?)
    ensures InReach(u.op, x) <==> Signed32(ImmGenerator(Encode(u.(imm := Int32(x))))) == x - x % 2
  {
    hide ImmGenerator, Encode, Signed13, Signed21, Reg, ClearLow, Int32, Signed32, ImmB, ImmJ, Even;
    var v := u.(imm := Int32(x));
    var w := Encode(v);
    if InReach(u.op, x) {
      RangeFits(x);
      if u.op.Branch? { BranchImmediate(v); } else { JumpImmediate(v); }
      Int32RoundTrip(x);
      ClearLowRounds(v.imm);
    } else {
      TransferOpcode(v);
      Reassembly.ImmediateRanges(w);
      Reassembly.JumpRange(w);
      if u.op.Branch? { ShortValue(ImmB(w)); } else { LongValue(ImmJ(w)); }
    }
  }
}
