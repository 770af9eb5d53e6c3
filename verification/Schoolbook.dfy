/** The reference multiplication the unit is compared with: row by row, carries in place. */
module Schoolbook {
  import opened Limbs
  import opened Convolution
  import opened Machine
  import opened MachineProofs
  import opened MachineRuns

  /** prod + word + carry never overflows 128 bits, and the carry out is again one word. */
  lemma SumFits(x: u64, y: u64, word: u64, carry: u64)
    ensures 0 <= Times(x, y) + word + carry < B2
  {
    TermBound(x, y);
  }

  /** One limb of a row: what is written plus what is carried grows by that limb's product. */
  lemma LimbOfRow(v: int, p: int, carry: int, old_v: int, word: int, row: int, weight: int, x: int, y: int, sum: int)
    requires v + p * carry == old_v + row
    requires p * (x * y) == weight
    requires sum == x * y + word + carry
    ensures v + p * (sum % B) + (B * p) * (sum / B) == (old_v + p * word) + (row + weight)
  {
    ShiftOut(v, p, sum);
    Distribute(p, x * y + word, carry);
    Distribute(p, x * y, word);
  }

  lemma RowWeight(i: nat, j: nat, x: int, y: int)
    ensures Pow(i + j) * (x * y) == (Pow(i) * x) * (Pow(j) * y)
  {
    PowAdd(i, j);
    Regroup(Pow(i), Pow(j), x, y);
  }

  /** The inner loop's account: the words written, and the carry, hold the old words plus the row so far. */
  ghost predicate RowAccount(now: seq<u64>, before: seq<u64>, carry: int, i: nat, x: int, b: seq<u64>, j: nat)
    requires i + j <= |now| == |before| && j <= |b|
  {
    Val(now[..i + j]) + Pow(i + j) * carry == Val(before[..i + j]) + Pow(i) * x * Val(b[..j])
  }

  lemma RowGoesOn(now: seq<u64>, before: seq<u64>, carry: u64, i: nat, x: u64, b: seq<u64>, j: nat, sum: nat)
    requires i + j < |now| == |before| && j < |b|
    requires RowAccount(now, before, carry, i, x, b, j)
    requires sum == Times(x, b[j]) + before[i + j] + carry
    ensures var word: u64 := sum % B;
            RowAccount(now[i + j := word], before, sum / B, i, x, b, j + 1)
  {
    var word: u64 := sum % B;
    var after := now[i + j := word];
    var row := Pow(i) * x;
    RowWeight(i, j, x, b[j]);
    LimbOfRow(Val(now[..i + j]), Pow(i + j), carry, Val(before[..i + j]), before[i + j],
              row * Val(b[..j]), row * (Pow(j) * b[j]), x, b[j], sum);
    assert after[..i + j] == now[..i + j];
    ValPrefix(after, i + j);
    ValPrefix(before, i + j);
    ValPrefix(b, j);
    Distribute(row, Val(b[..j]), Pow(j) * b[j]);
  }

  /** The inner loop: fold a[i] * b into the words from i on, up to the carry out of the row. */
  method RowLoop(a: array<u64>, b: array<u64>, result: array<u64>, i: nat) returns (carry: u128)
    requires a.Length == b.Length && result.Length == 2 * a.Length && result != a && result != b
    requires i < a.Length
    modifies result
    ensures carry < B
    ensures RowAccount(result[..], old(result[..]), carry, i, a[i], b[..], b.Length)
    ensures forall t :: i + b.Length <= t < result.Length ==> result[t] == old(result[t])
  {
    ghost var before := result[..];
    carry := 0;
    var j := 0;
    RowStarts(before, i, a[i], b[..]);
    hide RowAccount;
    while j < b.Length
      invariant 0 <= j <= b.Length && carry < B
      invariant RowAccount(result[..], before, carry, i, a[i], b[..], j)
      invariant forall t :: i + j <= t < result.Length ==> result[t] == before[t]
    {
      SumFits(a[i], b[j], result[i + j], carry);
      var prod: u128 := Times(a[i], b[j]);
      var sum: u128 := prod + result[i + j] + carry;
      RowGoesOn(result[..], before, carry, i, a[i], b[..], j, sum);
      var word: u64 := sum % B;
      ghost var now := result[..];
      result[i + j] := word;
      assert result[..] == now[i + j := word];
      carry := sum / B;
      j := j + 1;
    }
  }

  lemma RowStarts(before: seq<u64>, i: nat, x: int, b: seq<u64>)
    requires i <= |before|
    ensures RowAccount(before, before, 0, i, x, b, 0)
  {
  }

  lemma RowEnds(now: seq<u64>, before: seq<u64>, carry: u64, i: nat, x: int, b: seq<u64>)
    requires i + |b| < |now| == |before|
    requires RowAccount(now, before, carry, i, x, b, |b|)
    ensures Val(now[i + |b| := carry][..i + |b| + 1]) == Val(before[..i + |b|]) + Pow(i) * x * Val(b)
  {
    var after := now[i + |b| := carry];
    assert after[..i + |b|] == now[..i + |b|] && b[..|b|] == b;
    ValPrefix(after, i + |b|);
    hide Val, Pow;
  }

  lemma UpdatedPrefix(after: seq<u64>, now: seq<u64>, k: nat, word: u64)
    requires k < |now| == |after| && after[k] == word
    requires forall t :: 0 <= t < |now| && t != k ==> after[t] == now[t]
    ensures after[..k + 1] == now[k := word][..k + 1]
  {
  }

  /** Add row i: result += a[i] * b * B^i, for a result whose words from i+n on are still zero. */
  method AddRow(a: array<u64>, b: array<u64>, result: array<u64>, i: nat)
    requires a.Length == b.Length && result.Length == 2 * a.Length && result != a && result != b
    requires i < a.Length
    requires forall t :: i + a.Length <= t < result.Length ==> result[t] == 0
    modifies result
    ensures Val(result[..i + a.Length + 1]) == old(Val(result[..i + a.Length])) + Pow(i) * a[i] * Val(b[..])
    ensures forall t :: i + a.Length < t < result.Length ==> result[t] == 0
  {
    hide Val, Pow;
    var n := a.Length;
    ghost var before := result[..];
    var carry := RowLoop(a, b, result, i);
    ghost var now := result[..];
    var word: u64 := carry;
    RowEnds(now, before, word, i, a[i], b[..]);
    hide RowAccount;
    result[i + n] := (result[i + n] + word) % B;
    UpdatedPrefix(result[..], now, i + n, word);
    assert before[..i + n] == old(result[..i + n]);
  }

  /** Leaves exactly the product of the operands, of whatever length. */
  method MultiplyBignum(a: array<u64>, b: array<u64>, result: array<u64>)
    requires a.Length == b.Length && result.Length == 2 * a.Length && result != a && result != b
    modifies result
    ensures Val(result[..]) == Val(a[..]) * Val(b[..])
    ensures result[..] == ToLimbs(Times(Val(a[..]), Val(b[..])), 2 * a.Length)
  {
    var n := a.Length;
    for i := 0 to 2 * n
      invariant forall t :: 0 <= t < i ==> result[t] == 0
    {
      result[i] := 0;
    }
    ZerosVal(result[..n]);
    for i := 0 to n
      invariant Val(result[..i + n]) == Val(a[..i]) * Val(b[..])
      invariant forall t :: i + n <= t < 2 * n ==> result[t] == 0
    {
      RowOfProduct(a[..], Val(b[..]), i);
      assert a[..][..i] == a[..i] && a[..][..i + 1] == a[..i + 1];
      AddRow(a, b, result, i);
    }
    assert result[..n + n] == result[..] && a[..n] == a[..];
    ToLimbsVal(result[..]);
  }

  lemma RowOfProduct(a: seq<u64>, y: int, i: nat)
    requires i < |a|
    ensures Val(a[..i + 1]) * y == Val(a[..i]) * y + Pow(i) * a[i] * y
  {
    ValPrefix(a, i);
    AddTimes(Val(a[..i]), Pow(i) * a[i], y);
  }

  /** The reference and every engine of the unit write the same words. */
  lemma ReferenceMatchesUnit(e: Engine, a: seq<u64>, b: seq<u64>, st: State, reference: seq<u64>)
    requires |a| == |b| >= 1 && |st.res| >= 2 * |a|
    requires |reference| == 2 * |a| && Val(reference) == Val(a) * Val(b)
    ensures Inv(e, a, b, Start(st))
    ensures Run(e, a, b, Start(st)).res == reference + st.res[2 * |a|..]
  {
    RunComputesProduct(e, a, b, st);
    ToLimbsVal(reference);
  }
}
