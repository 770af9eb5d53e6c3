/** Little-endian numbers in base 2^64: the value of a limb array and its uniqueness. */
module Limbs {

  const B: int := 0x1_0000_0000_0000_0000
  const B2: int := 0x1_0000_0000_0000_0000_0000_0000_0000_0000
  const B3: int := 0x1_0000_0000_0000_0000_0000_0000_0000_0000_0000_0000_0000_0000

  const W32: int := 0x1_0000_0000

  /** uint32_t */
  type u32 = x: int | 0 <= x < W32

  /** uint64_t */
  type u64 = x: int | 0 <= x < B

  /** unsigned __int128 */
  type u128 = x: int | 0 <= x < B2

  /** B^n, the weight of limb n */
  function Pow(n: nat): (p: nat)
    ensures p >= 1
  {
    if n == 0 then 1 else B * Pow(n - 1)
  }

  lemma PowAdd(m: nat, n: nat)
    ensures Pow(m + n) == Pow(m) * Pow(n)
  {
    if m > 0 {
      PowAdd(m - 1, n);
      calc {
        Pow(m + n);
        B * Pow(m - 1 + n);
        B * (Pow(m - 1) * Pow(n));
        (B * Pow(m - 1)) * Pow(n);
        Pow(m) * Pow(n);
      }
    }
  }

  /** The number a limb array stands for, least significant limb first. */
  function Val(s: seq<u64>): (v: nat)
  {
    if s == [] then 0
    else
      var n := |s| - 1;
      Mul0(Pow(n), s[n]);
      Val(s[..n]) + Pow(n) * s[n]
  }

  lemma Mul0(x: nat, y: nat)
    ensures x * y >= 0
  {
  }

  lemma MulLe(x: nat, y: int, z: int)
    requires y <= z
    ensures x * y <= x * z
  {
  }

  lemma Distribute(x: int, y: int, z: int)
    ensures x * (y + z) == x * y + x * z
  {
  }

  lemma Regroup(p: int, q: int, x: int, y: int)
    ensures (p * q) * (x * y) == (p * x) * (q * y)
  {
  }

  lemma ValAppend(s: seq<u64>, x: u64)
    ensures Val(s + [x]) == Val(s) + Pow(|s|) * x
  {
    assert (s + [x])[..|s|] == s;
  }

  /** The value of a prefix one limb longer. */
  lemma ValPrefix(s: seq<u64>, n: nat)
    requires n < |s|
    ensures Val(s[..n + 1]) == Val(s[..n]) + Pow(n) * s[n]
  {
    assert s[..n + 1] == s[..n] + [s[n]];
    ValAppend(s[..n], s[n]);
  }

  lemma {:induction false} ValBound(s: seq<u64>)
    ensures Val(s) < Pow(|s|)
  {
    if s != [] {
      var n := |s| - 1;
      ValBound(s[..n]);
      MulLe(Pow(n), s[n], B - 1);
      assert Pow(n) * (B - 1) == Pow(n + 1) - Pow(n);
    }
  }

  lemma ShiftSum(x: int, v: int, p: int, d: int)
    ensures (x + B * v) + (B * p) * d == x + B * (v + p * d)
  {
    assert (B * p) * d == B * (p * d);
  }

  lemma {:induction false} ValPrepend(x: u64, s: seq<u64>)
    ensures Val([x] + s) == x + B * Val(s)
  {
    if s == [] {
      assert [x] + s == [] + [x];
      ValAppend([], x);
    } else {
      var n := |s| - 1;
      ValAppend(s[..n], s[n]);
      assert s == s[..n] + [s[n]] && Pow(n + 1) == B * Pow(n);
      hide Val, Pow;
      ValPrepend(x, s[..n]);
      assert [x] + s == ([x] + s[..n]) + [s[n]];
      ValAppend([x] + s[..n], s[n]);
      ShiftSum(x, Val(s[..n]), Pow(n), s[n]);
    }
  }

  /** The low len limbs of a number. */
  function ToLimbs(n: nat, len: nat): (s: seq<u64>)
    ensures |s| == len
    decreases len
  {
    if len == 0 then [] else [n % B] + ToLimbs(n / B, len - 1)
  }

  lemma MulLt(x: int, y: int, x': int, y': int)
    requires 0 <= x < x' && 0 <= y < y'
    ensures x * y < x' * y'
  {
    MulLe(x, y, y');
    MulLe(y', x + 1, x');
  }

  /** Writing out the value of a limb array gives the array back: base-B digits are unique. */
  lemma HeadAndTail(x: u64, v: nat)
    ensures (x + B * v) % B == x && (x + B * v) / B == v
  {
  }

  lemma {:induction false} ToLimbsVal(s: seq<u64>)
    ensures ToLimbs(Val(s), |s|) == s
  {
    if s != [] {
      assert s == [s[0]] + s[1..];
      hide Val;
      ValPrepend(s[0], s[1..]);
      HeadAndTail(s[0], Val(s[1..]));
      ToLimbsVal(s[1..]);
    }
  }

  /** A number below B^len survives being written with len limbs. */
  lemma {:induction false} ValToLimbs(n: nat, len: nat)
    requires n < Pow(len)
    ensures Val(ToLimbs(n, len)) == n
    decreases len
  {
    if len > 0 {
      ValToLimbs(n / B, len - 1);
      ValPrepend(n % B, ToLimbs(n / B, len - 1));
    }
  }

  lemma {:induction false} ZerosVal(s: seq<u64>)
    requires forall i :: 0 <= i < |s| ==> s[i] == 0
    ensures Val(s) == 0
  {
    if s != [] { ZerosVal(s[..|s| - 1]); }
  }

  lemma {:induction false} ZeroLimbs(len: nat)
    ensures forall i :: 0 <= i < len ==> ToLimbs(0, len)[i] == 0
  {
    if len > 0 { ZeroLimbs(len - 1); }
  }
}
