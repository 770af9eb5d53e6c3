/** The sparse block memory and the flat, zero-initialised byte array it stands for. */
module BlockMemory {
  import opened Limbs

  type byte = x: int | 0 <= x < 256

  /** Flat memory: a byte never written reads as zero. */
  type Flat = map<int, byte>

  function Peek(m: Flat, a: int): byte { if a in m then m[a] else 0 }

  /** What a sized access reports: a value, completion, or a std::out_of_range. */
  datatype Outcome = Loaded(value: nat) | Stored | Fault

  // ------------------------------------------------------------ little-endian values

  function Pow256(n: nat): (p: nat)
    ensures p >= 1
  {
    if n == 0 then 1 else 256 * Pow256(n - 1)
  }

  function LittleEndian(bs: seq<byte>): (v: nat) {
    if bs == [] then 0 else bs[0] + 256 * LittleEndian(bs[1..])
  }

  /** The low w bytes of a value, lowest first. */
  function Bytes(v: nat, w: nat): (bs: seq<byte>)
    ensures |bs| == w
    decreases w
  {
    if w == 0 then [] else [v % 256] + Bytes(v / 256, w - 1)
  }

  lemma {:induction false} LittleEndianAppend(bs: seq<byte>, x: byte)
    ensures LittleEndian(bs + [x]) == LittleEndian(bs) + Pow256(|bs|) * x
  {
    if bs == [] {
      assert bs + [x] == [x];
      assert LittleEndian([x]) == x + 256 * LittleEndian([]);
    } else {
      assert (bs + [x])[1..] == bs[1..] + [x];
      LittleEndianAppend(bs[1..], x);
      Distribute(256, LittleEndian(bs[1..]), Pow256(|bs| - 1) * x);
    }
  }

  /** A value of w bytes survives being stored and loaded. */
  lemma {:induction false} BytesRoundTrip(v: nat, w: nat)
    requires v < Pow256(w)
    ensures LittleEndian(Bytes(v, w)) == v
    decreases w
  {
    if w > 0 {
      BytesRoundTrip(v / 256, w - 1);
    }
  }

  /** Byte i of a value is what a shift by 8*i leaves in the low byte. */
  lemma {:induction false} ByteByShift(v: nat, w: nat, i: nat)
    requires i < w
    ensures Bytes(v, w)[i] == v / Pow256(i) % 256
    decreases i
  {
    if i > 0 {
      ByteByShift(v / 256, w - 1, i - 1);
      ShiftTwice(v, Pow256(i - 1));
    }
  }

  lemma ShiftTwice(v: nat, p: nat)
    requires p >= 1
    ensures v / 256 / p == v / (256 * p)
  {
    var q, r := v / 256, v % 256;
    var q', r' := q / p, q % p;
    assert q == p * q' + r';
    assert v == (256 * p) * q' + (256 * r' + r);
    QuotientIs(v, 256 * p, q', 256 * r' + r);
  }

  lemma QuotientIs(x: int, d: int, q: int, r: int)
    requires d > 0 && x == d * q + r && 0 <= r < d
    ensures x / d == q
  {
    var q' := x / d;
    assert x == d * q' + x % d;
    if q' > q { MulLe(d, q + 1, q'); } else if q' < q { MulLe(d, q' + 1, q); }
  }

  // ------------------------------------------------------------ flat accesses

  /** Bytes bs at addresses a, a+1, ... */
  function Poke(m: Flat, a: int, bs: seq<byte>): Flat
    decreases |bs|
  {
    if bs == [] then m else Poke(m[a := bs[0]], a + 1, bs[1..])
  }

  function PeekAll(m: Flat, a: int, w: nat): (bs: seq<byte>)
    ensures |bs| == w
  {
    seq<byte>(w, i => Peek(m, a + i))
  }

  lemma {:induction false} PeekOfPoke(m: Flat, a: int, bs: seq<byte>, x: int)
    ensures Peek(Poke(m, a, bs), x) == if a <= x < a + |bs| then bs[x - a] else Peek(m, x)
    decreases |bs|
  {
    if bs != [] {
      PeekOfPoke(m[a := bs[0]], a + 1, bs[1..], x);
    }
  }

  /** A sized load of a memory of size bytes: all its bytes must exist. */
  function FlatLoad(size: u64, m: Flat, a: u64, w: nat): Outcome {
    if a + w <= size then Loaded(LittleEndian(PeekAll(m, a, w))) else Fault
  }

  /** A sized store: either it stores all its bytes or it faults and nothing changes. */
  function FlatStore(size: u64, m: Flat, a: u64, w: nat, v: nat): (Flat, Outcome) {
    if a + w <= size then (Poke(m, a, Bytes(v, w)), Stored) else (m, Fault)
  }

  /** What is stored is what is loaded, and bytes elsewhere keep their value, for every overlap. */
  lemma LoadAfterStore(size: u64, m: Flat, a: u64, w: nat, v: nat)
    requires a + w <= size && v < Pow256(w)
    ensures FlatLoad(size, FlatStore(size, m, a, w, v).0, a, w) == Loaded(v)
    ensures forall x :: x < a || a + w <= x ==> Peek(FlatStore(size, m, a, w, v).0, x) == Peek(m, x)
  {
    var m' := Poke(m, a, Bytes(v, w));
    forall x ensures Peek(m', x) == if a <= x < a + w then Bytes(v, w)[x - a] else Peek(m, x) {
      PeekOfPoke(m, a, Bytes(v, w), x);
    }
    assert PeekAll(m', a, w) == Bytes(v, w);
    BytesRoundTrip(v, w);
  }

  // ------------------------------------------------------------ the checks the code makes

  /** memory_size_ - (sizeof(T) - 1) in 64-bit unsigned arithmetic. */
  function Bound(size: u64, w: nat): u64
    requires 1 <= w <= 8
  {
    (size - (w - 1)) % B
  }

  /** A byte loop that stops at the first address outside the memory. */
  function StoreLoop(size: u64, m: Flat, a: int, bs: seq<byte>): (Flat, Outcome)
    decreases |bs|
  {
    if bs == [] then (m, Stored)
    else if a % B >= size then (m, Fault)
    else StoreLoop(size, m[a % B := bs[0]], a + 1, bs[1..])
  }

  predicate Inside(size: u64, a: int, i: int) { (a + i) % B < size }

  function PeekWrapped(m: Flat, a: int, w: nat): (bs: seq<byte>)
    ensures |bs| == w
  {
    seq<byte>(w, i => Peek(m, (a + i) % B))
  }

  function LoadLoop(size: u64, m: Flat, a: int, w: nat): Outcome {
    if forall i :: 0 <= i < w ==> Inside(size, a, i) then Loaded(LittleEndian(PeekWrapped(m, a, w))) else Fault
  }

  function CodeLoad(size: u64, m: Flat, a: u64, w: nat): Outcome
    requires 1 <= w <= 8
  {
    if a >= Bound(size, w) then Fault else LoadLoop(size, m, a, w)
  }

  function CodeStore(size: u64, m: Flat, a: u64, w: nat, v: nat): (Flat, Outcome)
    requires 1 <= w <= 8
  {
    if a >= Bound(size, w) then (m, Fault) else StoreLoop(size, m, a, Bytes(v, w))
  }

  /** Loads are exact for every memory size: the inner check catches what a wrapped bound lets through. */
  lemma LoadIsExact(size: u64, m: Flat, a: u64, w: nat)
    requires 1 <= w <= 8
    ensures CodeLoad(size, m, a, w) == FlatLoad(size, m, a, w)
  {
    if a + w <= size {
      assert PeekWrapped(m, a, w) == PeekAll(m, a, w);
    } else if a < Bound(size, w) {
      var i := if a < size then size - a else 0;
      assert !Inside(size, a, i);
    }
  }

  lemma {:induction false} StoreLoopInside(size: u64, m: Flat, a: int, bs: seq<byte>)
    requires 0 <= a && a + |bs| <= size
    ensures StoreLoop(size, m, a, bs) == (Poke(m, a, bs), Stored)
    decreases |bs|
  {
    if bs != [] {
      StoreLoopInside(size, m[a := bs[0]], a + 1, bs[1..]);
    }
  }

  ghost predicate StoresAtomic(size: u64, w: nat)
    requires 1 <= w <= 8
  {
    forall m: Flat, a: u64, v: nat :: CodeStore(size, m, a, w, v) == FlatStore(size, m, a, w, v)
  }

  /**
   A store is all or nothing exactly when the bound does not wrap below zero, or no byte exists at
   all: a memory smaller than the access less one byte is written in part before the fault.
   */
  lemma AtomicStores(size: u64, w: nat)
    requires 1 <= w <= 8
    ensures StoresAtomic(size, w) <==> size == 0 || size >= w - 1
  {
    if size == 0 || size >= w - 1 {
      forall m: Flat, a: u64, v: nat ensures CodeStore(size, m, a, w, v) == FlatStore(size, m, a, w, v) {
        if a + w <= size {
          StoreLoopInside(size, m, a, Bytes(v, w));
        }
      }
    } else {
      PartialStore(size, w);
    }
  }

  /** The store that is cut short: at address 0 it leaves its first byte behind. */
  lemma PartialStore(size: u64, w: nat)
    requires 1 <= w <= 8 && 0 < size < w - 1
    ensures CodeStore(size, map[], 0, w, 255).0 != FlatStore(size, map[], 0, w, 255).0
  {
    assert Bound(size, w) > 0;
    var bs := Bytes(255, w);
    assert bs[0] == 255;
    StoreLoopKeeps(size, map[0 := 255], 1, bs[1..], 0);
  }

  lemma {:induction false} StoreLoopKeeps(size: u64, m: Flat, a: int, bs: seq<byte>, x: int)
    requires x in m
    ensures x in StoreLoop(size, m, a, bs).0
    decreases |bs|
  {
    if bs != [] && a % B < size {
      StoreLoopKeeps(size, m[a % B := bs[0]], a + 1, bs[1..], x);
    }
  }
}
