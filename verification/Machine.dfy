/**
 The big multiplier as a clocked machine over mathematical values: the accumulator is one
 unbounded number, a pipeline register is a batch or empty, the delay queue is a sequence.
 The four engines differ in what stands between the pair generator and the accumulator.
 */
module Machine {
  import opened Limbs
  import opened Convolution

  /** Partial products generated per clock. */
  const BATCH := 25

  datatype Engine = SingleCycle | CsaOnly | Staged3 | Stage7

  /** A register that may hold the sum of one batch. */
  datatype Slot = Empty | Full(sum: nat) {
    function Sum(): nat { if Full? then sum else 0 }
  }

  /** A batch in the delay queue with the clocks it still has to wait. */
  datatype Item = Item(sum: nat, remain: nat)

  datatype State = State(
    running: bool,              // bigmul_prog != 0
    writeDone: bool,            // write_done
    s: nat, k: nat,             // s_diag and k_iter
    acc: nat,                   // acc2:acc1:acc0
    res: seq<u64>,              // resultCache
    stages: seq<Slot>,          // accum[0..3]
    gen: seq<(int, int)>,       // pGEN
    load: seq<(u64, u64)>,      // pLOAD
    mul: Slot,                  // pMUL
    depth: nat,                 // pending_depth_for_pMUL
    queue: seq<Item>)           // dq[0..dq_len)

  const NOSTAGES: seq<Slot> := [Empty, Empty, Empty, Empty]

  /** The first call of a run: everything but the result words and the stale depth is cleared. */
  function Start(st: State): State {
    State(true, true, 0, 0, 0, st.res, NOSTAGES, [], [], Empty, st.depth, [])
  }

  // ------------------------------------------------------------ front end

  /** Pairs of the current diagonal not generated yet. */
  function Left(n: int, st: State): int { IMax(n, st.s) + 1 - st.k }

  function Count(n: int, st: State): int {
    if Left(n, st) < BATCH then Left(n, st) else BATCH
  }

  /** count pairs of diagonal s from row k on. */
  function Pairs(s: int, k: int, count: nat): (p: seq<(int, int)>)
    ensures |p| == count
  {
    seq(count, t => (k + t, s - (k + t)))
  }

  predicate InRange(n: int, pairs: seq<(int, int)>) {
    forall t :: 0 <= t < |pairs| ==> 0 <= pairs[t].0 < n && 0 <= pairs[t].1 < n
  }

  function Fetch(a: seq<u64>, b: seq<u64>, pairs: seq<(int, int)>): (l: seq<(u64, u64)>)
    requires |a| == |b| && InRange(|a|, pairs)
    ensures |l| == |pairs|
  {
    seq(|pairs|, t requires 0 <= t < |pairs| => (a[pairs[t].0], b[pairs[t].1]))
  }

  /** Sum of the products of a batch of loaded limb pairs. */
  function Dot(load: seq<(u64, u64)>): (d: nat) {
    if load == [] then 0
    else var m := |load| - 1; Dot(load[..m]) + Times(load[m].0, load[m].1)
  }

  /** The loaded batch of consecutive pairs of a diagonal sums to that range of the diagonal. */
  lemma {:induction false} DotOfPairs(a: seq<u64>, b: seq<u64>, s: int, k: int, count: nat)
    requires |a| == |b| && InRange(|a|, Pairs(s, k, count))
    ensures Dot(Fetch(a, b, Pairs(s, k, count))) == RangeSum(a, b, s, k, k + count)
  {
    if count > 0 {
      var p, m := Pairs(s, k, count), count - 1;
      assert p[..m] == Pairs(s, k, m);
      forall t | 0 <= t < m ensures 0 <= p[..m][t].0 < |a| && 0 <= p[..m][t].1 < |b| {
        assert p[..m][t] == p[t];
      }
      DotOfPairs(a, b, s, k, m);
      assert Fetch(a, b, p)[..m] == Fetch(a, b, Pairs(s, k, m));
      assert p[m] == (k + m, s - (k + m));
    }
  }

  // ------------------------------------------------------------ delay queue

  function QueueSum(q: seq<Item>): (t: nat) {
    if q == [] then 0 else q[0].sum + QueueSum(q[1..])
  }

  lemma {:induction false} QueueSumAppend(q: seq<Item>, x: Item)
    ensures QueueSum(q + [x]) == QueueSum(q) + x.sum
  {
    if q != [] {
      QueueSumAppend(q[1..], x);
      assert (q + [x])[1..] == q[1..] + [x];
    } else {
      assert QueueSum([x]) == x.sum + QueueSum([]);
      assert q + [x] == [x];
    }
  }

  /** One clock of waiting for every queued batch. */
  function Age(q: seq<Item>): (r: seq<Item>)
    ensures |r| == |q|
  {
    seq(|q|, i requires 0 <= i < |q| =>
      if q[i].remain > 0 then Item(q[i].sum, q[i].remain - 1) else q[i])
  }

  lemma {:induction false} AgeKeepsSum(q: seq<Item>)
    ensures QueueSum(Age(q)) == QueueSum(q)
  {
    if q != [] {
      AgeKeepsSum(q[1..]);
      assert Age(q)[1..] == Age(q[1..]);
    }
  }

  function Popped(q: seq<Item>): seq<Item> {
    if q != [] && q[0].remain == 0 then q[1..] else q
  }

  function PoppedSum(q: seq<Item>): nat {
    if q != [] && q[0].remain == 0 then q[0].sum else 0
  }

  /** Adder-tree levels a batch of this size waits for: one less than the base-2 logarithm, rounded up. */
  function CsaDepth(count: int): nat {
    if count <= 2 then 0
    else if count <= 4 then 1
    else if count <= 8 then 2
    else if count <= 16 then 3
    else 4
  }

  // ------------------------------------------------------------ one clock

  predicate Shape(a: seq<u64>, b: seq<u64>, st: State) {
    var n := |a|;
    && n == |b| && n >= 1
    && st.s <= 2 * n - 2
    && IMin(n, st.s) <= st.k <= IMax(n, st.s) + 1
    && |st.res| >= 2 * n
    && |st.stages| == 4
    && InRange(n, st.gen)
  }

  /** The clock up to the test for a finished diagonal. */
  function Advance(e: Engine, a: seq<u64>, b: seq<u64>, st: State): State
    requires Shape(a, b, st)
  {
    var c := Count(|a|, st);
    var st1 := st.(k := st.k + c);
    match e
    case SingleCycle =>
      st1.(acc := st.acc + RangeSum(a, b, st.s, st.k, st.k + c))
    case CsaOnly =>
      var batch := if c > 0 then Full(RangeSum(a, b, st.s, st.k, st.k + c)) else Empty;
      st1.(acc := st.acc + st.stages[3].Sum(),
           stages := [batch, st.stages[0], st.stages[1], st.stages[2]])
    case Staged3 =>
      st1.(acc := st.acc + st.mul.Sum(),
           mul := if st.load != [] then Full(Dot(st.load)) else Empty,
           load := Fetch(a, b, st.gen),
           gen := Pairs(st.s, st.k, c))
    case Stage7 =>
      var q := Age(Popped(st.queue));
      var direct := if st.depth == 0 then st.mul.Sum() else 0;
      st1.(acc := st.acc + PoppedSum(st.queue) + direct,
           queue := if st.mul.Full? && st.depth > 0 then q + [Item(st.mul.sum, st.depth)] else q,
           mul := if st.load != [] then Full(Dot(st.load)) else Empty,
           depth := if st.load != [] then CsaDepth(|st.load|) else 0,
           load := Fetch(a, b, st.gen),
           gen := Pairs(st.s, st.k, c))
  }

  /** No batch of the engine is between the generator and the accumulator. */
  predicate Drained(e: Engine, st: State) {
    match e
    case SingleCycle => true
    case CsaOnly => forall i :: 0 <= i < |st.stages| ==> st.stages[i].Empty?
    case Staged3 => st.gen == [] && st.load == [] && st.mul.Empty?
    case Stage7 => st.gen == [] && st.load == [] && st.mul.Empty? && st.queue == []
  }

  predicate DiagonalDone(e: Engine, n: int, st: State) {
    st.k > IMax(n, st.s) && Drained(e, st)
  }

  /** Emit the low word of the accumulator, keep the rest as carry, go to the next diagonal or stop. */
  function Emit(n: int, st: State): State
    requires n >= 1 && st.s <= 2 * n - 2 && |st.res| >= 2 * n
  {
    var r, carry := st.res[st.s := st.acc % B], st.acc / B;
    if st.s == 2 * n - 2 then
      st.(res := r[st.s + 1 := carry % B], acc := carry, running := false, writeDone := false)
    else
      st.(res := r, acc := carry, s := st.s + 1, k := IMin(n, st.s + 1))
  }

  /** One call of the engine on a running unit. */
  function Step(e: Engine, a: seq<u64>, b: seq<u64>, st: State): State
    requires Shape(a, b, st)
  {
    var st1 := Advance(e, a, b, st);
    if DiagonalDone(e, |a|, st1) then Emit(|a|, st1) else st1
  }

  // ------------------------------------------------------------ what a run keeps

  /** Everything on the way from the generator to the accumulator. */
  function InFlight(e: Engine, a: seq<u64>, b: seq<u64>, st: State): (t: nat)
    requires Shape(a, b, st)
  {
    match e
    case SingleCycle => 0
    case CsaOnly => st.stages[0].Sum() + st.stages[1].Sum() + st.stages[2].Sum() + st.stages[3].Sum()
    case Staged3 => Dot(Fetch(a, b, st.gen)) + Dot(st.load) + st.mul.Sum()
    case Stage7 => Dot(Fetch(a, b, st.gen)) + Dot(st.load) + st.mul.Sum() + QueueSum(st.queue)
  }

  /** Accumulated, in flight and still to be generated: carry-in plus the whole diagonal. */
  function Total(e: Engine, a: seq<u64>, b: seq<u64>, st: State): (t: nat)
    requires Shape(a, b, st)
  {
    st.acc + InFlight(e, a, b, st) + RangeSum(a, b, st.s, st.k, IMax(|a|, st.s) + 1)
  }

  /** Batches needed for x pairs. */
  function Batches(x: int): int { (x + BATCH - 1) / BATCH }

  function BatchesLeft(n: int, st: State): int { Batches(Left(n, st)) }

  function BatchesInFlight(st: State): nat {
    |st.queue| + (if st.mul.Full? then 1 else 0) + (if st.load != [] then 1 else 0)
               + (if st.gen != [] then 1 else 0)
  }

  function DiagLen(n: int, s: int): int { IMax(n, s) + 1 - IMin(n, s) }

  predicate Inv(e: Engine, a: seq<u64>, b: seq<u64>, st: State) {
    var n := |a|;
    && Shape(a, b, st)
    && Val(st.res[..st.s]) + Pow(st.s) * Total(e, a, b, st) == Partial(a, b, st.s + 1)
    && Total(e, a, b, st) <= n * (B - 1) * B
    && !DiagonalDone(e, n, st)
    && (e.Stage7? ==> BatchesInFlight(st) + BatchesLeft(n, st) <= Batches(DiagLen(n, st.s)))
  }
}
