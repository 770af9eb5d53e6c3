/** The multiply group of the arithmetic unit, with the widths of the casts written out. */
module Alu {
  import opened Limbs

  datatype Op = Mul | Mulh | Mulhsu | Mulhu | Mulw

  const HALF: int := 0x8000_0000_0000_0000
  const WORD: int := 0x1_0000_0000
  const HALF_WORD: int := 0x8000_0000

  /** static_cast<int64_t> of an unsigned word. */
  function Signed(x: u64): int { if x < HALF then x else x - B }

  function Negative(x: u64): int { if x < HALF then 0 else 1 }

  /** static_cast<uint64_t>: two's complement truncation. */
  function Wrap(x: int): u64 { x % B }

  /** An __int128 keeps a product modulo 2^128, as a signed number. */
  function Int128(x: int): int {
    var m := x % (B * B);
    if m < B * HALF then m else m - B * B
  }

  /** static_cast<int32_t>. */
  function Int32(x: int): int {
    var m := x % WORD;
    if m < HALF_WORD then m else m - WORD
  }

  /** static_cast<int64_t>(product >> 64), the shift being arithmetic. */
  function High(product: int): u64 { Wrap(Int128(product) / B) }

  /** The result and the overflow flag. */
  function Execute(op: Op, a: u64, b: u64): (u64, bool) {
    match op
    case Mul => (Wrap(Signed(a) * Signed(b)), !(-HALF <= Signed(a) * Signed(b) < HALF))
    case Mulh => (High(Signed(a) * Signed(b)), false)
    case Mulhsu => (High(Signed(a) * b), false)
    case Mulhu => (High(a * b), false)
    case Mulw =>
      var result := Int32(a) * Int32(b);
      (Wrap(Int32(result)), result != Int32(result))
  }

  // ------------------------------------------------------------ 128-bit products

  lemma ProductRange(x: int, y: int, m: nat, n: nat)
    requires 0 - m <= x <= m && 0 - n <= y <= n
    ensures 0 - m * n <= x * y <= m * n
  {
    var z, t := if x >= 0 then x else 0 - x, if y >= 0 then y else 0 - y;
    MulLe(t, z, m);
    MulLe(m, t, n);
    assert x * y == z * t || x * y == 0 - z * t;
    assert z * t >= 0;
  }

  /** The high word of a product is its floor quotient, modulo 2^64, even where the __int128 wraps. */
  lemma HighIsQuotient(p: int)
    ensures High(p) == Wrap(p / B)
  {
    var q := p / (B * B);
    var m := p % (B * B);
    var lo, hi := m % B, m / B;
    assert p == (q * B + hi) * B + lo;
    DivUnique(p, q * B + hi, lo);
    var t := if m < B * HALF then hi else hi - B;
    assert Int128(p) == t * B + lo;
    DivUnique(Int128(p), t, lo);
    ModShift(hi, q);
    ModShift(hi, if m < B * HALF then 0 else -1);
  }

  lemma DivUnique(x: int, q: int, r: u64)
    requires x == q * B + r
    ensures x / B == q && x % B == r
  {
  }

  lemma ModShift(x: int, k: int)
    ensures Wrap(x + k * B) == Wrap(x)
  {
    DivUnique(x + k * B, x / B + k, x % B);
  }

  // ------------------------------------------------------------ what the group promises

  predicate FitsSigned(p: int) { -HALF * B <= p < HALF * B }

  lemma SignedQuotient(p: int)
    requires FitsSigned(p)
    ensures Signed(Wrap(p / B)) == p / B
  {
    DivUnique(p, p / B, p % B);
    var q := p / B;
    if q < 0 { DivUnique(q, -1, q + B); } else { DivUnique(q, 0, q); }
  }

  lemma SignedFits(a: u64, b: u64)
    ensures FitsSigned(Signed(a) * Signed(b)) && FitsSigned(Signed(a) * b)
  {
    ProductRange(Signed(a), Signed(b), HALF, HALF);
    ProductRange(Signed(a), b, HALF, B - 1);
  }

  /** Main result: mul and mulh together are the exact signed product. */
  lemma MulExact(a: u64, b: u64)
    ensures Signed(Execute(Mulh, a, b).0) * B + Execute(Mul, a, b).0 == Signed(a) * Signed(b)
    ensures !Execute(Mulh, a, b).1
  {
    var p := Signed(a) * Signed(b);
    SignedFits(a, b);
    HighIsQuotient(p);
    SignedQuotient(p);
    hide Signed, High;
  }

  /** The overflow flag of mul is set exactly when mulh is not the sign fill of mul's result. */
  lemma MulOverflow(a: u64, b: u64)
    ensures var low := Execute(Mul, a, b).0;
            Execute(Mul, a, b).1 <==> Execute(Mulh, a, b).0 != if low < HALF then 0 else B - 1
  {
    MulExact(a, b);
    var p, low, high := Signed(a) * Signed(b), Execute(Mul, a, b).0, Execute(Mulh, a, b).0;
    assert p == Signed(high) * B + low;
    assert -HALF <= p < HALF <==> Signed(high) == if low < HALF then 0 else -1;
  }

  /** mulhsu and mul together are the exact product of a signed and an unsigned number. */
  lemma MulhsuExact(a: u64, b: u64)
    ensures Signed(Execute(Mulhsu, a, b).0) * B + Execute(Mul, a, b).0 == Signed(a) * b
    ensures !Execute(Mulhsu, a, b).1
  {
    var p := Signed(a) * b;
    SignedFits(a, b);
    HighIsQuotient(p);
    SignedQuotient(p);
    SameLow(Signed(a), Signed(b), 0, Negative(b));
  }

  lemma SameLow(x: int, y: int, m: int, n: int)
    ensures (x + m * B) * (y + n * B) == x * y + (x * n + m * y + m * n * B) * B
    ensures Wrap((x + m * B) * (y + n * B)) == Wrap(x * y)
  {
    var k := x * n + m * y + m * n * B;
    assert (x + m * B) * (y + n * B) == x * y + k * B by {
      Expand(x, y, m * B, n * B);
      assert x * (n * B) == (x * n) * B && (m * B) * y == (m * y) * B;
      assert (m * B) * (n * B) == (m * n * B) * B;
    }
    ModShift(x * y, k);
  }

  lemma Expand(x: int, y: int, u: int, v: int)
    ensures (x + u) * (y + v) == x * y + x * v + u * y + u * v
  {
  }

  lemma UnsignedProduct(a: u64, b: u64)
    ensures 0 <= a * b < B * B
    ensures 0 <= a * b / B < B
  {
    assert 0 <= a * b;
    assert a * b <= (B - 1) * b;
  }

  /** mulhu and mul together are the exact unsigned product, although the __int128 may overflow. */
  lemma MulhuExact(a: u64, b: u64)
    ensures Execute(Mulhu, a, b).0 * B + Execute(Mul, a, b).0 == a * b
    ensures !Execute(Mulhu, a, b).1
  {
    var p := a * b;
    HighIsQuotient(p);
    SameLow(Signed(a), Signed(b), Negative(a), Negative(b));
    UnsignedProduct(a, b);
    assert Execute(Mul, a, b).0 == Wrap(p);
    hide High, Signed;
    DivUnique(p, p / B, p % B);
    DivUnique(p / B, 0, p / B);
  }

  /** A high word h whose signed value is x - k * B for the sum x is x modulo 2^64. */
  lemma WrapSum(h: u64, x: int, k: int)
    requires h == x + k * B
    ensures h == Wrap(x)
  {
    DivUnique(x, -k, h);
  }

  lemma MulhsuCorrection(a: u64, b: u64)
    ensures Execute(Mulhsu, a, b).0 == Wrap(Execute(Mulh, a, b).0 + Negative(b) * a)
  {
    hide Execute;
    MulExact(a, b);
    MulhsuExact(a, b);
    SameLow(Signed(a), Signed(b), 0, Negative(b));
    var h, s := Execute(Mulh, a, b).0, Execute(Mulhsu, a, b).0;
    assert Signed(s) == Signed(h) + Signed(a) * Negative(b);
    WrapSum(s, h + Negative(b) * a, Negative(s) - Negative(h) - Negative(a) * Negative(b));
  }

  lemma MulhuCorrection(a: u64, b: u64)
    ensures Execute(Mulhu, a, b).0 == Wrap(Execute(Mulh, a, b).0 + Negative(a) * b + Negative(b) * a)
  {
    hide Execute;
    MulExact(a, b);
    MulhuExact(a, b);
    var x, y, m, n := Signed(a), Signed(b), Negative(a), Negative(b);
    SameLow(x, y, m, n);
    var h, u := Execute(Mulh, a, b).0, Execute(Mulhu, a, b).0;
    assert u == Signed(h) + x * n + m * y + m * n * B;
    WrapSum(u, h + m * b + n * a, 0 - Negative(h) - m * n);
  }

  /** Main result: the unsigned high words differ from mulh by the usual sign corrections, modulo 2^64. */
  lemma SignCorrections(a: u64, b: u64)
    ensures var h := Execute(Mulh, a, b).0;
            && Execute(Mulhsu, a, b).0 == Wrap(h + Negative(b) * a)
            && Execute(Mulhu, a, b).0 == Wrap(h + Negative(a) * b + Negative(b) * a)
  {
    hide Execute;
    MulhsuCorrection(a, b);
    MulhuCorrection(a, b);
  }

  // ------------------------------------------------------------ the word product

  lemma Int32Range(x: int)
    ensures -HALF_WORD <= Int32(x) < HALF_WORD
    ensures -HALF_WORD <= x < HALF_WORD <==> Int32(x) == x
  {
  }

  /** mulw gives the low words' product modulo 2^32, sign-extended, and flags exactly the products that do not fit. */
  lemma MulwExact(a: u64, b: u64)
    ensures var p, r := Int32(a) * Int32(b), Execute(Mulw, a, b);
            && (r.1 <==> !(-HALF_WORD <= p < HALF_WORD))
            && (!r.1 ==> Signed(r.0) == p)
            && Signed(r.0) % WORD == p % WORD
            && -HALF_WORD <= Signed(r.0) < HALF_WORD
  {
    var p, r := Int32(a) * Int32(b), Execute(Mulw, a, b);
    Int32Range(p);
    hide Int32;
    var v := Int32(p);
    if v < 0 { DivUnique(v, -1, v + B); } else { DivUnique(v, 0, v); }
    assert Signed(r.0) == v;
    Int32Congruent(p);
  }

  lemma Int32Congruent(p: int)
    ensures Int32(p) % WORD == p % WORD
  {
  }
}
