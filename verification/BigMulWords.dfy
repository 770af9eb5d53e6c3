/** The words and registers of the bigmul unit, and three-word arithmetic with carries by hand. */
module BigMulWords {
  import opened Limbs
  import opened Convolution
  import opened Machine
  import opened MachineProofs

  /** The decode stage takes operand sizes below this. */
  const SIZES := 512

  const LIMBS := 64
  const SLOTS := 5

  datatype GenBatch = GenBatch(count: int, i: seq<int>, j: seq<int>, valid: bool) {
    predicate Valid() {
      0 <= count <= BATCH && |i| == |j| == BATCH && (valid <==> count > 0)
    }
    function Held(): seq<(int, int)>
      requires Valid()
    {
      if valid then seq(count, t requires 0 <= t < count => (i[t], j[t])) else []
    }
  }

  datatype LoadBatch = LoadBatch(count: int, ai: seq<u64>, bj: seq<u64>, valid: bool) {
    predicate Valid() {
      0 <= count <= BATCH && |ai| == |bj| == BATCH && (valid <==> count > 0)
    }
    function Held(): seq<(u64, u64)>
      requires Valid()
    {
      if valid then seq(count, t requires 0 <= t < count => (ai[t], bj[t])) else []
    }
  }

  datatype MulBatch = MulBatch(lo: u64, hi: u64, hi2: u64, valid: bool) {
    function Held(): Slot { if valid then Full(V3(lo, hi, hi2)) else Empty }
  }

  datatype DelayItem = DelayItem(mb: MulBatch, remain: int, valid: bool) {
    function Held(): Item
      requires remain >= 0
    {
      Item(V3(mb.lo, mb.hi, mb.hi2), remain)
    }
  }

  /** What undo keeps of the unit; the hidden pipeline state and the operand size are not part of it. */
  datatype BigmulState = BigmulState(
    bigmulDone: bool, ldbmDone: bool, writeDone: bool,
    ldbmOffset: u64, bigmulProg: u64, writeOffset: u64,
    baseAddrA: u64, baseAddrB: u64, baseAddrRes: u64,
    cacheA: seq<u64>, cacheB: seq<u64>, resultCache: seq<u64>) {
    predicate Sized() { |cacheA| == LIMBS && |cacheB| == LIMBS && |resultCache| == 2 * LIMBS }
  }

  datatype Acc = Acc(a0: u64, a1: u64, a2: u64) {
    function Value(): nat { V3(a0, a1, a2) }
  }

  function Items(d: seq<DelayItem>): (q: seq<Item>)
    requires forall i :: 0 <= i < |d| ==> 0 <= d[i].remain
    ensures |q| == |d|
  {
    seq(|d|, i requires 0 <= i < |d| => d[i].Held())
  }

  /** The number three words stand for. */
  function V3(w0: u64, w1: u64, w2: u64): nat { w0 + B * w1 + B2 * w2 }

  function EmptyGen(): GenBatch { GenBatch(0, seq(BATCH, _ => 0), seq(BATCH, _ => 0), false) }
  function EmptyLoad(): LoadBatch { LoadBatch(0, seq(BATCH, _ => 0), seq(BATCH, _ => 0), false) }
  const EMPTYMUL := MulBatch(0, 0, 0, false)
  const EMPTYITEM := DelayItem(EMPTYMUL, 0, false)

  lemma V3Unique(x: int, q: int, r: int)
    requires x == B3 * q + r && 0 <= r < B3
    ensures x % B3 == r
  {
  }

  lemma V3Exact(x: int)
    ensures 0 <= x < B3 ==> x % B3 == x
  {
  }

  /** Shifting three words down by one divides by the base and gives out the low word. */
  lemma V3Shift(w0: u64, w1: u64, w2: u64)
    ensures V3(w0, w1, w2) % B == w0
    ensures V3(w0, w1, w2) / B == V3(w1, w2, 0)
  {
    LowHigh(V3(w0, w1, w2), w1 + B * w2, w0);
  }

  lemma LowHigh(x: int, q: int, r: u64)
    requires x == B * q + r
    ensures x % B == r && x / B == q
  {
  }

  /** Add a 128-bit number to a 192-bit one; the top word wraps. */
  method AddWide(w0: u64, w1: u64, w2: u64, lo: u64, hi: u64) returns (r0: u64, r1: u64, r2: u64)
    ensures V3(r0, r1, r2) == (V3(w0, w1, w2) + lo + B * hi) % B3
  {
    var t0: u128 := w0 + lo;
    r0 := t0 % B;
    var c0 := t0 / B;
    assert t0 == B * c0 + r0;
    var t1: u128 := w1 + hi + c0;
    r1 := t1 % B;
    var c1 := t1 / B;
    assert t1 == B * c1 + r1;
    r2 := (w2 + c1) % B;
    assert w2 + c1 == B * ((w2 + c1) / B) + r2;
    V3Unique(V3(w0, w1, w2) + lo + B * hi, (w2 + c1) / B, V3(r0, r1, r2));
  }

  /** Multiply two limbs and add the product to a 192-bit sum. */
  lemma HalvesOf(p: u128)
    ensures p % B + B * (p / B) == p && p / B < B
  {
  }

  method AddProduct(w0: u64, w1: u64, w2: u64, x: u64, y: u64) returns (r0: u64, r1: u64, r2: u64)
    ensures V3(r0, r1, r2) == (V3(w0, w1, w2) + Times(x, y)) % B3
    ensures V3(w0, w1, w2) + Times(x, y) < B3 ==> V3(r0, r1, r2) == V3(w0, w1, w2) + Times(x, y)
  {
    TermBound(x, y);
    var p: u128 := Times(x, y);
    hide V3, Times;
    HalvesOf(p);
    V3Exact(V3(w0, w1, w2) + p);
    r0, r1, r2 := AddWide(w0, w1, w2, p % B, p / B);
  }

  /** Twenty-five products fit three words. */
  lemma BatchFits(a: seq<u64>, b: seq<u64>, s: int, lo: int, hi: int)
    requires lo <= hi <= lo + BATCH
    ensures RangeSum(a, b, s, lo, hi) < B3
  {
    RangeBound(a, b, s, lo, hi);
  }

  lemma {:induction false} DotBound(load: seq<(u64, u64)>)
    ensures Dot(load) <= |load| * ((B - 1) * (B - 1))
  {
    if load != [] {
      var m := |load| - 1;
      DotBound(load[..m]);
      TermBound(load[m].0, load[m].1);
    }
  }

  lemma DotFits(load: seq<(u64, u64)>)
    requires |load| <= BATCH
    ensures Dot(load) < B3
  {
    DotBound(load);
  }

  /** No accumulator wrap: during a run of at most 64 limbs the next accumulator value fits three words. */
  lemma AccumulatorFits(e: Engine, a: seq<u64>, b: seq<u64>, st: State)
    requires Inv(e, a, b, st)
    requires |a| <= LIMBS
    ensures st.acc <= Advance(e, a, b, st).acc < B3
  {
    AdvanceKeepsShape(e, a, b, st);
    AdvanceConserves(e, a, b, st);
  }

  /** At most three batches of a 64-pair diagonal are in flight, so dq_push always finds a slot. */
  lemma QueueHasRoom(a: seq<u64>, b: seq<u64>, st: State)
    requires Inv(Stage7, a, b, st)
    requires |a| <= LIMBS
    ensures BatchesInFlight(st) <= 3
    ensures st.mul.Full? ==> |st.queue| < SLOTS
  {
  }

  predicate RegistersOk(gen: GenBatch, load: LoadBatch, s: int, k: int, pending: int) {
    0 <= s && 0 <= k && 0 <= pending && gen.Valid() && load.Valid()
  }

  predicate QueueOk(slots: seq<DelayItem>, len: int) {
    && |slots| == SLOTS && 0 <= len <= SLOTS
    && forall i :: 0 <= i < len ==> slots[i].valid && 0 <= slots[i].remain
  }

  /** The unit's buffers have their fixed sizes and do not overlap. */
  predicate ArraysOk(cacheA: array<u64>, cacheB: array<u64>, resultCache: array<u64>,
                     accum: array<Acc>, accumValid: array<bool>) {
    && cacheA.Length == LIMBS && cacheB.Length == LIMBS && resultCache.Length == 2 * LIMBS
    && resultCache != cacheA && resultCache != cacheB && cacheA != cacheB
    && accum.Length == 4 && accumValid.Length == 4
  }
}
