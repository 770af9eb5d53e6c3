/** Diagonal sums of the partial products A[i]*B[j] and their relation to the full product. */
module Convolution {
  import opened Limbs

  /** The exact 64x64 product. */
  function Times(x: int, y: int): (p: int)
    ensures x >= 0 && y >= 0 ==> p >= 0
  {
    x * y
  }

  /** The partial product of row i on diagonal s, zero when the pair (i, s-i) is not a pair of limbs. */
  function Term(a: seq<u64>, b: seq<u64>, s: int, i: int): (t: nat)
  {
    if 0 <= i < |a| && 0 <= s - i < |b| then Times(a[i], b[s - i]) else 0
  }

  /** The partial products of rows lo..hi-1 on diagonal s. */
  function RangeSum(a: seq<u64>, b: seq<u64>, s: int, lo: int, hi: int): (t: nat)
    decreases hi - lo
  {
    if hi <= lo then 0 else RangeSum(a, b, s, lo, hi - 1) + Term(a, b, s, hi - 1)
  }

  lemma {:induction false} RangeSplit(a: seq<u64>, b: seq<u64>, s: int, lo: int, mid: int, hi: int)
    requires lo <= mid <= hi
    ensures RangeSum(a, b, s, lo, hi) == RangeSum(a, b, s, lo, mid) + RangeSum(a, b, s, mid, hi)
    decreases hi - mid
  {
    if mid < hi {
      RangeSplit(a, b, s, lo, mid, hi - 1);
    }
  }

  lemma {:induction false} RangeZero(a: seq<u64>, b: seq<u64>, s: int, lo: int, hi: int)
    requires forall i :: lo <= i < hi ==> Term(a, b, s, i) == 0
    ensures RangeSum(a, b, s, lo, hi) == 0
    decreases hi - lo
  {
    if lo < hi {
      RangeZero(a, b, s, lo, hi - 1);
    }
  }

  lemma TermBound(x: u64, y: u64)
    ensures x * y <= (B - 1) * (B - 1)
  {
    MulLe(x, y, B - 1);
    MulLe(B - 1, x, B - 1);
  }

  lemma {:induction false} RangeBound(a: seq<u64>, b: seq<u64>, s: int, lo: int, hi: int)
    requires lo <= hi
    ensures RangeSum(a, b, s, lo, hi) <= (hi - lo) * ((B - 1) * (B - 1))
    decreases hi - lo
  {
    if lo < hi {
      RangeBound(a, b, s, lo, hi - 1);
      if 0 <= hi - 1 < |a| && 0 <= s - (hi - 1) < |b| {
        TermBound(a[hi - 1], b[s - (hi - 1)]);
      }
    }
  }

  /** First and last row that meet diagonal s of an n-limb product (i_min and i_max). */
  function IMin(n: int, s: int): int { if s > n - 1 then s - (n - 1) else 0 }
  function IMax(n: int, s: int): int { if s < n - 1 then s else n - 1 }

  /** The exact sum of diagonal s. */
  function Diag(a: seq<u64>, b: seq<u64>, s: int): (t: nat)
  {
    RangeSum(a, b, s, IMin(|a|, s), IMax(|a|, s) + 1)
  }

  /** Rows outside i_min..i_max add nothing to their diagonal. */
  lemma DiagAllRows(a: seq<u64>, b: seq<u64>, s: nat)
    requires |a| == |b| > 0 && s <= 2 * |a| - 2
    ensures RangeSum(a, b, s, 0, |a|) == Diag(a, b, s)
  {
    var n := |a|;
    var lo, hi := IMin(n, s), IMax(n, s) + 1;
    RangeSplit(a, b, s, 0, lo, n);
    RangeSplit(a, b, s, lo, hi, n);
    RangeZero(a, b, s, 0, lo);
    RangeZero(a, b, s, hi, n);
  }

  /** Diagonals 0..m-1, each with its weight. */
  function Partial(a: seq<u64>, b: seq<u64>, m: nat): (t: nat)
  {
    if m == 0 then 0
    else
      Mul0(Pow(m - 1), Diag(a, b, m - 1));
      Partial(a, b, m - 1) + Pow(m - 1) * Diag(a, b, m - 1)
  }

  /** The first r rows only, spread over diagonals 0..m-1. */
  ghost function RowsByDiag(a: seq<u64>, b: seq<u64>, r: nat, m: nat): int
  {
    if m == 0 then 0
    else RowsByDiag(a, b, r, m - 1) + Pow(m - 1) * RangeSum(a, b, m - 1, 0, r)
  }

  lemma {:induction false} RowsByDiagNone(a: seq<u64>, b: seq<u64>, m: nat)
    ensures RowsByDiag(a, b, 0, m) == 0
  {
    if m > 0 { RowsByDiagNone(a, b, m - 1); }
  }

  /** One more row adds that row's multiple of the part of b the first m diagonals have seen. */
  lemma {:induction false} RowsByDiagStep(a: seq<u64>, b: seq<u64>, r: nat, m: nat)
    requires r < |a|
    ensures var seen := if m <= r then 0 else if m - r <= |b| then m - r else |b|;
            RowsByDiag(a, b, r + 1, m) == RowsByDiag(a, b, r, m) + Pow(r) * a[r] * Val(b[..seen])
  {
    if m > 0 {
      RowsByDiagStep(a, b, r, m - 1);
      var t := m - 1;
      var x := Term(a, b, t, r);
      assert RangeSum(a, b, t, 0, r + 1) == RangeSum(a, b, t, 0, r) + x;
      Distribute(Pow(t), RangeSum(a, b, t, 0, r), x);
      if r <= t < r + |b| {
        var j := t - r;
        ValPrefix(b, j);
        PowAdd(r, j);
        Regroup(Pow(r), Pow(j), a[r], b[j]);
        Distribute(Pow(r) * a[r], Val(b[..j]), Pow(j) * b[j]);
      }
    }
  }

  lemma AddTimes(x: int, y: int, z: int)
    ensures (x + y) * z == x * z + y * z
  {
  }

  lemma {:induction false} RowsByDiagFull(a: seq<u64>, b: seq<u64>, r: nat)
    requires |a| == |b| > 0 && r <= |a|
    ensures RowsByDiag(a, b, r, 2 * |a| - 1) == Val(a[..r]) * Val(b)
  {
    var m := 2 * |a| - 1;
    if r == 0 {
      RowsByDiagNone(a, b, m);
    } else {
      RowsByDiagFull(a, b, r - 1);
      RowsByDiagStep(a, b, r - 1, m);
      assert b[..|b|] == b;
      ValPrefix(a, r - 1);
      AddTimes(Val(a[..r - 1]), Pow(r - 1) * a[r - 1], Val(b));
    }
  }

  lemma {:induction false} PartialIsAllRows(a: seq<u64>, b: seq<u64>, m: nat)
    requires |a| == |b| > 0 && m <= 2 * |a| - 1
    ensures Partial(a, b, m) == RowsByDiag(a, b, |a|, m)
  {
    if m > 0 {
      PartialIsAllRows(a, b, m - 1);
      DiagAllRows(a, b, m - 1);
    }
  }

  /** The convolution theorem: the weighted diagonal sums add up to the product. */
  lemma ConvolutionIsProduct(a: seq<u64>, b: seq<u64>)
    requires |a| == |b| > 0
    ensures Partial(a, b, 2 * |a| - 1) == Val(a) * Val(b)
  {
    PartialIsAllRows(a, b, 2 * |a| - 1);
    RowsByDiagFull(a, b, |a|);
    assert a[..|a|] == a;
  }

  /** The product of two n-limb numbers fits 2n limbs. */
  lemma ProductBound(a: seq<u64>, b: seq<u64>)
    requires |a| == |b|
    ensures Val(a) * Val(b) < Pow(2 * |a|)
  {
    ValBound(a);
    ValBound(b);
    PowAdd(|a|, |b|);
    MulLt(Val(a), Val(b), Pow(|a|), Pow(|b|));
  }
}
