/** The memory object: blocks allocated on first write, behind bounds-checked sized accesses. */
module MainMemory {
  import opened Limbs
  import opened BlockMemory

  type Blocks = map<int, seq<byte>>

  /** The byte at an address; a block that was never written reads as zero. */
  function BlockByte(blocks: Blocks, blockSize: int, a: int): byte
    requires blockSize > 0 && forall k :: k in blocks ==> |blocks[k]| == blockSize
  {
    if a / blockSize in blocks then blocks[a / blockSize][a % blockSize] else 0
  }

  lemma SameCell(a: int, b: int, size: int)
    requires size > 0 && a / size == b / size && a % size == b % size
    ensures a == b
  {
    assert a == size * (a / size) + a % size;
    assert b == size * (b / size) + b % size;
  }

  datatype Op = Load(a: u64, w: nat) | Store(a: u64, w: nat, v: nat)

  predicate Sized(op: Op) { 1 <= op.w <= 8 }

  /** A sequence of accesses to the flat memory. */
  function FlatRun(size: u64, m: Flat, ops: seq<Op>): (r: (Flat, seq<Outcome>))
    ensures |r.1| == |ops|
  {
    if ops == [] then (m, [])
    else
      var last := ops[|ops| - 1];
      var (m', outs) := FlatRun(size, m, ops[..|ops| - 1]);
      match last
      case Load(a, w) => (m', outs + [FlatLoad(size, m', a, w)])
      case Store(a, w, v) => var (m'', out) := FlatStore(size, m', a, w, v); (m'', outs + [out])
  }

  predicate AllSized(ops: seq<Op>) { forall i :: 0 <= i < |ops| ==> Sized(ops[i]) }

  /** The same accesses as the code makes them, with stores that may be cut short. */
  function CodeRun(size: u64, m: Flat, ops: seq<Op>): (r: (Flat, seq<Outcome>))
    requires AllSized(ops)
    ensures |r.1| == |ops|
  {
    if ops == [] then (m, [])
    else
      var last := ops[|ops| - 1];
      var (m', outs) := CodeRun(size, m, ops[..|ops| - 1]);
      match last
      case Load(a, w) => (m', outs + [FlatLoad(size, m', a, w)])
      case Store(a, w, v) => var (m'', out) := CodeStore(size, m', a, w, v); (m'', outs + [out])
  }

  ghost predicate RunsFlat(size: u64) {
    forall m: Flat, ops: seq<Op> | AllSized(ops) :: CodeRun(size, m, ops) == FlatRun(size, m, ops)
  }

  lemma {:induction false} RunIsFlat(size: u64, m: Flat, ops: seq<Op>)
    requires AllSized(ops) && (size == 0 || size >= 7)
    ensures CodeRun(size, m, ops) == FlatRun(size, m, ops)
  {
    hide FlatLoad, CodeStore, FlatStore;
    if ops != [] {
      var n := |ops| - 1;
      RunIsFlat(size, m, ops[..n]);
      match ops[n] {
        case Load(_, _) =>
        case Store(a, w, v) =>
          AtomicStores(size, w);
          StoreWhenAtomic(size, FlatRun(size, m, ops[..n]).0, a, w, v);
      }
    }
  }

  lemma StoreWhenAtomic(size: u64, m: Flat, a: u64, w: nat, v: nat)
    requires 1 <= w <= 8 && StoresAtomic(size, w)
    ensures CodeStore(size, m, a, w, v) == FlatStore(size, m, a, w, v)
  {
    hide CodeStore, FlatStore;
  }

  /**
   Every sequence of sized accesses behaves as on the flat memory exactly when the memory is empty or
   has at least seven bytes.
   */
  lemma FlatFromSeven(size: u64)
    ensures RunsFlat(size) <==> size == 0 || size >= 7
  {
    if size == 0 || size >= 7 {
      forall m: Flat, ops: seq<Op> | AllSized(ops) ensures CodeRun(size, m, ops) == FlatRun(size, m, ops) {
        RunIsFlat(size, m, ops);
      }
    } else {
      var ops := [Store(0, 8, 255)];
      PartialStore(size, 8);
      assert ops[..0] == [];
      assert CodeRun(size, map[], ops) != FlatRun(size, map[], ops);
    }
  }

  // ------------------------------------------------------------ what a load gives, said of the stores before it

  /** Byte x after some accesses: that of the latest store over it that fitted, else the initial one or zero. */
  function LatestByte(size: u64, m: Flat, ops: seq<Op>, x: int): byte {
    if ops == [] then (if x in m then m[x] else 0)
    else
      var last := ops[|ops| - 1];
      if last.Store? && last.a + last.w <= size && last.a <= x < last.a + last.w
      then last.v / Pow256(x - last.a) % 256
      else LatestByte(size, m, ops[..|ops| - 1], x)
  }

  function LatestBytesAt(size: u64, m: Flat, ops: seq<Op>, a: int, w: nat): (bs: seq<byte>)
    ensures |bs| == w
  {
    seq<byte>(w, i => LatestByte(size, m, ops, a + i))
  }

  lemma {:induction false} RunBytes(size: u64, m: Flat, ops: seq<Op>, x: int)
    ensures Peek(FlatRun(size, m, ops).0, x) == LatestByte(size, m, ops, x)
  {
    hide Pow256, Bytes, Poke, FlatLoad;
    if ops != [] {
      var n := |ops| - 1;
      RunBytes(size, m, ops[..n], x);
      if ops[n].Store? && ops[n].a + ops[n].w <= size {
        var a, w, v := ops[n].a, ops[n].w, ops[n].v;
        PeekOfPoke(FlatRun(size, m, ops[..n]).0, a, Bytes(v, w), x);
        if a <= x < a + w { ByteByShift(v, w, x - a); }
      }
    }
  }

  lemma {:induction false} RunOutcome(size: u64, m: Flat, ops: seq<Op>, k: nat)
    requires k < |ops|
    ensures FlatRun(size, m, ops).1[k] == FlatRun(size, m, ops[..k + 1]).1[k]
    decreases |ops|
  {
    hide FlatLoad, FlatStore;
    if k < |ops| - 1 {
      RunOutcome(size, m, ops[..|ops| - 1], k);
      assert ops[..|ops| - 1][..k + 1] == ops[..k + 1];
    } else {
      assert ops[..k + 1] == ops;
    }
  }

  /**
   In every sequence of accesses a load gives the bytes last stored, lowest first, or the initial ones,
   zero where there are none; it and a store fault exactly when they do not lie inside the memory.
   */
  lemma LatestBytes(size: u64, m: Flat, ops: seq<Op>, k: nat)
    requires k < |ops|
    ensures var out, a, w := FlatRun(size, m, ops).1[k], ops[k].a, ops[k].w;
            if a + w > size then out == Fault
            else if ops[k].Store? then out == Stored
            else out == Loaded(LittleEndian(LatestBytesAt(size, m, ops[..k], a, w)))
  {
    RunOutcome(size, m, ops, k);
    var before := ops[..k + 1][..k];
    assert before == ops[..k];
    hide FlatRun, LatestByte, LittleEndian, Peek, Poke, Bytes;
    OneMore(size, m, ops[..k + 1]);
    if ops[k].Load? {
      var memory, a, w := FlatRun(size, m, ops[..k]).0, ops[k].a, ops[k].w;
      var now, latest := PeekAll(memory, a, w), LatestBytesAt(size, m, ops[..k], a, w);
      forall i | 0 <= i < w ensures now[i] == latest[i] {
        RunBytes(size, m, ops[..k], a + i);
      }
      assert now == latest;
    }
  }

  lemma OneMore(size: u64, m: Flat, ops: seq<Op>)
    requires ops != []
    ensures var n, out := |ops| - 1, FlatRun(size, m, ops).1[|ops| - 1];
            var memory := FlatRun(size, m, ops[..n]).0;
            out == if ops[n].Load? then FlatLoad(size, memory, ops[n].a, ops[n].w)
                   else FlatStore(size, memory, ops[n].a, ops[n].w, ops[n].v).1
  {
    hide FlatLoad, FlatStore;
  }

  lemma {:induction false} ZeroBytes(n: nat)
    ensures LittleEndian(seq<byte>(n, _ => 0)) == 0
  {
    if n > 0 {
      assert seq<byte>(n, _ => 0)[1..] == seq<byte>(n - 1, _ => 0);
      ZeroBytes(n - 1);
    }
  }

  /** A load from a memory nothing was written to gives zero. */
  lemma FreshLoad(size: u64, a: u64, w: nat)
    ensures FlatLoad(size, map[], a, w) == if a + w <= size then Loaded(0) else Fault
  {
    hide LittleEndian;
    var none: Flat := map[];
    var bs, zeros := PeekAll(none, a, w), seq<byte>(w, _ => 0);
    forall i | 0 <= i < w ensures bs[i] == zeros[i] {
      assert Peek(none, a + i) == 0;
    }
    assert bs == zeros;
    ZeroBytes(w);
  }

  class Memory {
    var blocks: Blocks
    const blockSize: int
    const memorySize: u64
    ghost var contents: Flat

    ghost predicate Valid()
      reads this
    {
      && blockSize > 0
      && (forall k :: k in blocks ==> |blocks[k]| == blockSize)
      && forall a :: a >= 0 ==> BlockByte(blocks, blockSize, a) == Peek(contents, a)
    }

    constructor (blockSize: int, memorySize: u64)
      requires blockSize > 0
      ensures Valid() && contents == map[] && this.memorySize == memorySize
    {
      this.blockSize := blockSize;
      this.memorySize := memorySize;
      blocks := map[];
      contents := map[];
    }

    method EnsureBlockExists(index: int)
      requires Valid()
      modifies this`blocks
      ensures Valid() && index in blocks
      ensures forall k :: k in old(blocks) ==> k in blocks && blocks[k] == old(blocks)[k]
    {
      if index !in blocks {
        blocks := blocks[index := seq(blockSize, _ => 0)];
      }
    }

    method Read(address: u64) returns (out: Outcome)
      requires Valid()
      ensures out == if address >= memorySize then Fault else Loaded(Peek(contents, address))
    {
      if address >= memorySize { return Fault; }
      var index, offset := address / blockSize, address % blockSize;
      if index !in blocks { return Loaded(0); }
      return Loaded(blocks[index][offset]);
    }

    method Write(address: u64, value: byte) returns (out: Outcome)
      requires Valid()
      modifies this
      ensures Valid()
      ensures out == if address >= memorySize then Fault else Stored
      ensures contents == if address >= memorySize then old(contents) else old(contents)[address := value]
    {
      if address >= memorySize { return Fault; }
      var index, offset := address / blockSize, address % blockSize;
      EnsureBlockExists(index);
      ghost var was := blocks;
      var block: seq<byte> := blocks[index];
      block := block[offset := value];
      blocks := blocks[index := block];
      contents := contents[address := value];
      forall a | a >= 0 ensures BlockByte(blocks, blockSize, a) == Peek(contents, a) {
        assert BlockByte(was, blockSize, a) == Peek(old(contents), a);
        if a / blockSize == index && a % blockSize == offset {
          SameCell(a, address, blockSize);
        }
      }
      return Stored;
    }

    method ReadGeneric(address: u64, w: nat) returns (out: Outcome)
      requires Valid()
      ensures out == LoadLoop(memorySize, contents, address, w)
    {
      var value, i := 0, 0;
      ghost var seen := PeekWrapped(contents, address, w);
      while i < w
        invariant 0 <= i <= w
        invariant forall t :: 0 <= t < i ==> Inside(memorySize, address, t)
        invariant value == LittleEndian(seen[..i])
      {
        var r := Read((address + i) % B);
        if r.Fault? {
          assert !Inside(memorySize, address, i);
          return Fault;
        }
        assert seen[..i + 1] == seen[..i] + [seen[i]];
        LittleEndianAppend(seen[..i], seen[i]);
        value := value + Pow256(i) * r.value;
        i := i + 1;
      }
      assert seen[..w] == seen;
      return Loaded(value);
    }

    method WriteGeneric(address: u64, w: nat, value: nat) returns (out: Outcome)
      requires Valid()
      modifies this
      ensures Valid()
      ensures (contents, out) == StoreLoop(memorySize, old(contents), address, Bytes(value, w))
    {
      var i := 0;
      ghost var bs := Bytes(value, w);
      while i < w
        invariant 0 <= i <= w && Valid()
        invariant StoreLoop(memorySize, contents, address + i, bs[i..])
                  == StoreLoop(memorySize, old(contents), address, bs)
      {
        ByteByShift(value, w, i);
        assert bs[i..][1..] == bs[i + 1..];
        var r := Write((address + i) % B, value / Pow256(i) % 256);
        if r.Fault? { return Fault; }
        i := i + 1;
      }
      return Stored;
    }

    /** ReadByte, ReadHalfWord, ReadWord and ReadDoubleWord. */
    method LoadSized(address: u64, w: nat) returns (out: Outcome)
      requires Valid() && 1 <= w <= 8
      ensures out == FlatLoad(memorySize, contents, address, w)
    {
      LoadIsExact(memorySize, contents, address, w);
      if address >= (memorySize - (w - 1)) % B { return Fault; }
      out := ReadGeneric(address, w);
    }

    /** WriteByte, WriteHalfWord, WriteWord and WriteDoubleWord. */
    method StoreSized(address: u64, w: nat, value: nat) returns (out: Outcome)
      requires Valid() && 1 <= w <= 8
      modifies this
      ensures Valid()
      ensures (contents, out) == CodeStore(memorySize, old(contents), address, w, value)
      ensures memorySize == 0 || memorySize >= w - 1 ==>
                (contents, out) == FlatStore(memorySize, old(contents), address, w, value)
    {
      AtomicStores(memorySize, w);
      if address >= (memorySize - (w - 1)) % B { return Fault; }
      out := WriteGeneric(address, w, value);
    }

    /** Any sequence of sized accesses, whatever the block size. */
    method Execute(ops: seq<Op>) returns (outs: seq<Outcome>)
      requires Valid() && AllSized(ops)
      modifies this
      ensures Valid()
      ensures (contents, outs) == CodeRun(memorySize, old(contents), ops)
      ensures memorySize == 0 || memorySize >= 7 ==> (contents, outs) == FlatRun(memorySize, old(contents), ops)
    {
      hide Valid, CodeStore, FlatLoad;
      outs := [];
      for i := 0 to |ops|
        invariant Valid()
        invariant AllSized(ops[..i]) && (contents, outs) == CodeRun(memorySize, old(contents), ops[..i])
      {
        assert ops[..i + 1][..i] == ops[..i] && Sized(ops[i]);
        var out;
        match ops[i] {
          case Load(a, w) => out := LoadSized(a, w);
          case Store(a, w, v) => out := StoreSized(a, w, v);
        }
        outs := outs + [out];
      }
      assert ops[..|ops|] == ops;
      if memorySize == 0 || memorySize >= 7 {
        RunIsFlat(memorySize, old(contents), ops);
      }
    }
  }
}
