/** The line map of the assembler, and the machine that loads a program and keeps breakpoints. */
module LineMap {

  predicate NonDecreasing(lines: seq<nat>) {
    forall i, j :: 0 <= i < j < |lines| ==> lines[i] <= lines[j]
  }

  /** Instruction k is the first whose source line is not before this line. */
  predicate FirstFrom(lines: seq<nat>, line: nat, k: nat) {
    && k < |lines| && lines[k] >= line
    && forall j :: 0 <= j < k ==> lines[j] < line
  }

  function LastLine(lines: seq<nat>): nat { if lines == [] then 0 else lines[|lines| - 1] }

  /** lines[k] is the source line of instruction k; several instructions may share a line. */
  method Invert(lines: seq<nat>) returns (m: map<nat, nat>)
    requires NonDecreasing(lines)
    ensures forall i :: i in m <==> 1 <= i <= LastLine(lines)
    ensures forall i :: i in m ==> FirstFrom(lines, i, m[i])
  {
    m := map[];
    if lines == [] { return; }
    var prevInstruction, prevLine := 0, 1;
    for k := 0 to |lines|
      invariant prevInstruction == k
      invariant prevLine == if k == 0 then 1 else lines[k - 1] + 1
      invariant forall i :: i in m <==> 1 <= i < prevLine
      invariant forall i :: i in m ==> FirstFrom(lines, i, m[i])
    {
      var line := lines[k];
      var i := prevLine;
      while i <= line
        invariant prevLine <= i && (i <= line + 1 || i == prevLine)
        invariant forall t :: t in m <==> 1 <= t < i
        invariant forall t :: t in m ==> FirstFrom(lines, t, m[t])
        decreases line + 1 - i
      {
        m := m[i := prevInstruction];
        i := i + 1;
      }
      prevInstruction := prevInstruction + 1;
      prevLine := line + 1;
    }
  }

  /** There is only one such instruction, so the map is determined by the lines. */
  lemma FirstFromUnique(lines: seq<nat>, line: nat, k: nat, k': nat)
    requires FirstFrom(lines, line, k) && FirstFrom(lines, line, k')
    ensures k == k'
  {
  }
}

module VirtualMachine {
  import opened Limbs
  import opened BlockMemory
  import opened MainMemory
  import opened DataLayout
  import opened LineMap

  // ------------------------------------------------------------ what the loader does

  /** The loader's alignment step, in 32-bit arithmetic. */
  function Align32(counter: u32, a: int): u32
    requires a > 0
  {
    if counter % a != 0 then (counter + (a - counter % a)) % W32 else counter
  }

  /** The bytes of a string, one by one, up to the first fault; the counter wraps at 2^32. */
  function StoreChars(size: u64, m: Flat, base: u64, at: u32, text: seq<byte>): (Flat, Outcome)
    decreases |text|
  {
    if text == [] then (m, Stored)
    else
      var i := |text| - 1;
      var r := StoreChars(size, m, base, at, text[..i]);
      if r.1.Fault? then r else CodeStore(size, r.0, (base + (at + i) % W32) % B, 1, text[i])
  }

  function StoreOne(size: u64, m: Flat, base: u64, at: u32, e: Element): (Flat, Outcome) {
    if e.Chars? then StoreChars(size, m, base, at, e.text)
    else CodeStore(size, m, (base + at) % B, e.Size(), e.v)
  }

  /** Memory and counter after part of a load, and whether it is still under way. */
  datatype Loading = Loading(memory: Flat, counter: u32, ok: bool)

  function LoadedText(size: u64, m: Flat, text: seq<u32>): Loading
    decreases |text|
  {
    if text == [] then Loading(m, 0, true)
    else
      var i := |text| - 1;
      var r := LoadedText(size, m, text[..i]);
      if !r.ok then r
      else
        var (m', out) := CodeStore(size, r.memory, r.counter, 4, text[i]);
        if out.Fault? then Loading(m', r.counter, false) else Loading(m', (r.counter + 4) % W32, true)
  }

  function LoadedData(size: u64, m: Flat, base: u64, data: seq<Element>): Loading
    decreases |data|
  {
    if data == [] then Loading(m, 0, true)
    else
      var i := |data| - 1;
      var r := LoadedData(size, m, base, data[..i]);
      if !r.ok then r
      else
        var at := Align32(r.counter, data[i].Alignment());
        var (m', out) := StoreOne(size, r.memory, base, at, data[i]);
        Loading(m', (at + data[i].Size()) % W32, !out.Fault?)
  }

  // ------------------------------------------------------------ a program that fits

  /** The program and its data, if there is any, lie inside the memory and below 2^32 bytes each. */
  predicate Fits(text: seq<u32>, data: seq<Element>, base: u64, size: u64) {
    4 * |text| < W32 && 4 * |text| <= size && End(data) < W32 && (End(data) == 0 || base + End(data) <= size)
  }

  /** No counter or address wraps, and every element has bytes. */
  predicate NoWrap(text: seq<u32>, data: seq<Element>, base: u64) {
    && 4 * |text| < 0x1_0000_0000 && End(data) < 0x1_0000_0000 && base + End(data) < B
    && forall k :: 0 <= k < |data| ==> data[k].Size() > 0
  }

  /** Address a breakpoint request stands for, if it is valid. The line map's keys are unsigned int. */
  function Target(lineMap: map<nat, nat>, val: u64, isLine: bool): int {
    if isLine then (if val % W32 in lineMap then lineMap[val % W32] * 4 % W32 else -1)
    else if val % 4 == 0 then val else -1
  }

  function Added(bps: seq<int>, target: int): seq<int> {
    if target < 0 || target in bps then bps else bps + [target]
  }

  /** std::remove and erase: the others in their order. */
  function Without(bps: seq<int>, target: int): (r: seq<int>)
    ensures |r| <= |bps|
  {
    if bps == [] then []
    else
      var rest := Without(bps[..|bps| - 1], target);
      if bps[|bps| - 1] == target then rest else rest + [bps[|bps| - 1]]
  }

  predicate Distinct(bps: seq<int>) {
    forall i, j :: 0 <= i < j < |bps| ==> bps[i] != bps[j]
  }

  lemma {:induction false} WithoutAbsent(bps: seq<int>, target: int)
    requires target !in bps
    ensures Without(bps, target) == bps
  {
    if bps != [] {
      WithoutAbsent(bps[..|bps| - 1], target);
      assert bps == bps[..|bps| - 1] + [bps[|bps| - 1]];
    }
  }

  /** Removing a breakpoint undoes adding it, and breakpoints stay distinct. */
  lemma AddThenRemove(bps: seq<int>, target: int)
    requires Distinct(bps) && target >= 0 && target !in bps
    ensures Distinct(Added(bps, target)) && target in Added(bps, target)
    ensures Without(Added(bps, target), target) == bps
  {
    WithoutAbsent(bps, target);
    assert Added(bps, target)[..|bps|] == bps;
    assert Added(bps, target)[|bps|] == target;
  }

  /**
   For every request, also for a breakpoint that is there: a list without repetitions stays one, at most
   one element comes behind the others, the elements are the old ones and the target, and the same
   request again changes nothing.
   */
  lemma AddedMeans(bps: seq<int>, target: int)
    ensures Distinct(bps) ==> Distinct(Added(bps, target))
    ensures Added(bps, target) == bps || Added(bps, target) == bps + [target]
    ensures forall x :: x in Added(bps, target) <==> x in bps || (x == target && target >= 0)
    ensures Added(Added(bps, target), target) == Added(bps, target)
  {
    if target >= 0 && target !in bps { AppendDistinct(bps, target); }
  }

  lemma AppendDistinct(bps: seq<int>, target: int)
    requires target !in bps
    ensures Distinct(bps) ==> Distinct(bps + [target])
  {
  }

  /** From a list without repetitions removal takes the target out of its place. */
  lemma {:induction false} WithoutPlace(front: seq<int>, target: int, back: seq<int>)
    requires target !in front && target !in back
    ensures Without(front + [target] + back, target) == front + back
    decreases |back|
  {
    var bps := front + [target] + back;
    if back == [] {
      assert bps[..|bps| - 1] == front && bps[|bps| - 1] == target;
      WithoutAbsent(front, target);
    } else {
      var init := back[..|back| - 1];
      assert bps[..|bps| - 1] == front + [target] + init;
      assert back == init + [back[|back| - 1]];
      WithoutPlace(front, target, init);
    }
  }

  lemma {:induction false} WithoutHolds(bps: seq<int>, target: int, x: int)
    ensures x in Without(bps, target) <==> x in bps && x != target
  {
    if bps != [] {
      WithoutHolds(bps[..|bps| - 1], target, x);
      assert bps == bps[..|bps| - 1] + [bps[|bps| - 1]];
    }
  }

  /** A line breakpoint set through the assembler's map stops at the first instruction at or after the line. */
  lemma LineBreakpoint(lines: seq<nat>, lineMap: map<nat, nat>, line: u32, k: nat)
    requires forall i :: i in lineMap ==> FirstFrom(lines, i, lineMap[i])
    requires line in lineMap && FirstFrom(lines, line, k) && 4 * |lines| < W32
    ensures Target(lineMap, line, true) == 4 * k
  {
    FirstFromUnique(lines, line, k, lineMap[line]);
  }

  class VmBase {
    const memory: Memory
    var breakpoints: seq<int>
    var programSize: u32
    var lineMap: map<nat, nat>

    constructor (memory: Memory)
      ensures this.memory == memory && breakpoints == [] && programSize == 0 && lineMap == map[]
    {
      this.memory := memory;
      breakpoints, programSize, lineMap := [], 0, map[];
    }

    method AddBreakpoint(val: u64, isLine: bool)
      modifies this`breakpoints
      ensures isLine && val % 0x1_0000_0000 !in lineMap ==> breakpoints == old(breakpoints)
      ensures !isLine && val % 4 != 0 ==> breakpoints == old(breakpoints)
      ensures isLine && val % 0x1_0000_0000 in lineMap ==>
                var target := 4 * lineMap[val % 0x1_0000_0000] % 0x1_0000_0000;
                breakpoints == if target in old(breakpoints) then old(breakpoints) else old(breakpoints) + [target]
      ensures !isLine && val % 4 == 0 ==>
                breakpoints == if val in old(breakpoints) then old(breakpoints) else old(breakpoints) + [val]
      ensures Distinct(old(breakpoints)) ==> Distinct(breakpoints)
      ensures breakpoints == Added(old(breakpoints), Target(lineMap, val, isLine))
    {
      if isLine {
        if val % W32 !in lineMap { return; }
        var bp := lineMap[val % W32] * 4 % W32;
        if bp in breakpoints { return; }
        breakpoints := breakpoints + [bp];
      } else {
        if val % 4 != 0 { return; }
        if val in breakpoints { return; }
        breakpoints := breakpoints + [val];
      }
    }

    method RemoveBreakpoint(val: u64, isLine: bool)
      modifies this`breakpoints
      ensures var target := Target(lineMap, val, isLine);
              breakpoints == if target < 0 then old(breakpoints) else Without(old(breakpoints), target)
    {
      var target;
      if isLine {
        if val % W32 !in lineMap { return; }
        target := lineMap[val % W32] * 4 % W32;
      } else {
        if val % 4 != 0 { return; }
        target := val;
      }
      if target !in breakpoints {
        WithoutAbsent(breakpoints, target);
        return;
      }
      breakpoints := Without(breakpoints, target);
    }

    method StoreElement(base: u64, at: u32, e: Element) returns (out: Outcome)
      requires memory.Valid()
      modifies memory
      ensures memory.Valid()
      ensures (memory.contents, out) == StoreOne(memory.memorySize, old(memory.contents), base, at, e)
    {
      hide Memory.Valid, CodeStore;
      if e.Chars? {
        ghost var before := memory.contents;
        out := Stored;
        for i := 0 to |e.text|
          invariant memory.Valid() && !out.Fault?
          invariant (memory.contents, out) == StoreChars(memory.memorySize, before, base, at, e.text[..i])
        {
          assert e.text[..i + 1][..i] == e.text[..i];
          out := memory.StoreSized((base + (at + i) % W32) % B, 1, e.text[i]);
          if out.Fault? {
            CharsFault(memory.memorySize, before, base, at, e.text, i + 1);
            return;
          }
        }
        assert e.text[..|e.text|] == e.text;
      } else {
        out := memory.StoreSized((base + at) % B, e.Size(), e.v);
      }
    }

    method LoadText(text: seq<u32>) returns (ok: bool, counter: u32)
      requires memory.Valid()
      modifies memory
      ensures memory.Valid()
      ensures Loading(memory.contents, counter, ok) == LoadedText(memory.memorySize, old(memory.contents), text)
    {
      hide Memory.Valid, CodeStore;
      ghost var before := memory.contents;
      counter := 0;
      for i := 0 to |text|
        invariant memory.Valid()
        invariant Loading(memory.contents, counter, true) == LoadedText(memory.memorySize, before, text[..i])
      {
        assert text[..i + 1][..i] == text[..i];
        var out := memory.StoreSized(counter, 4, text[i]);
        if out.Fault? {
          TextFault(memory.memorySize, before, text, i + 1);
          return false, counter;
        }
        counter := (counter + 4) % W32;
      }
      assert text[..|text|] == text;
      ok := true;
    }

    method LoadData(data: seq<Element>, base: u64) returns (ok: bool)
      requires memory.Valid()
      modifies memory
      ensures memory.Valid()
      ensures var r := LoadedData(memory.memorySize, old(memory.contents), base, data);
              memory.contents == r.memory && ok == r.ok
    {
      hide Memory.Valid, StoreOne, Align32;
      ghost var before := memory.contents;
      var dataCounter: u32 := 0;
      for i := 0 to |data|
        invariant memory.Valid()
        invariant Loading(memory.contents, dataCounter, true) == LoadedData(memory.memorySize, before, base, data[..i])
      {
        assert data[..i + 1][..i] == data[..i];
        var at := AlignCounter(dataCounter, data[i].Alignment());
        var out := StoreElement(base, at, data[i]);
        if out.Fault? {
          DataFault(memory.memorySize, before, base, data, i + 1);
          return false;
        }
        dataCounter := (at + data[i].Size()) % W32;
      }
      assert data[..|data|] == data;
      ok := true;
    }

    /** Text from address 0, data from base; a fault on the way leaves the program half loaded. */
    method LoadProgram(text: seq<u32>, data: seq<Element>, base: u64, lineMap: map<nat, nat>) returns (ok: bool)
      requires memory.Valid()
      modifies this, memory
      ensures memory.Valid() && this.lineMap == lineMap
      ensures var t := LoadedText(memory.memorySize, old(memory.contents), text);
              if t.ok then
                var d := LoadedData(memory.memorySize, t.memory, base, data);
                && memory.contents == d.memory && ok == d.ok && programSize == t.counter
                && breakpoints == Added(old(breakpoints), Target(lineMap, t.counter, false))
              else
                && memory.contents == t.memory && !ok
                && programSize == old(programSize) && breakpoints == old(breakpoints)
      ensures Distinct(old(breakpoints)) ==> Distinct(breakpoints)
      ensures NoWrap(text, data, base) && (memory.memorySize == 0 || memory.memorySize >= 7) ==>
                (ok <==> Fits(text, data, base, memory.memorySize))
      ensures Fits(text, data, base, memory.memorySize) ==>
                && ok && programSize == 4 * |text|
                && memory.contents == DataImage(TextImage(old(memory.contents), text), base, data)
                && breakpoints == Added(old(breakpoints), 4 * |text|)
    {
      hide Memory.Valid, LoadedText, LoadedData, DataImage, TextImage, End, Fits, Added;
      ghost var before := memory.contents;
      FittingProgram(memory.memorySize, before, text, data, base);
      if NoWrap(text, data, base) && (memory.memorySize == 0 || memory.memorySize >= 7) {
        LoadExact(memory.memorySize, before, text, data, base);
      }
      this.lineMap := lineMap;
      var counter;
      ok, counter := LoadText(text);
      if !ok { return; }
      programSize := counter;
      AddBreakpoint(programSize, false);
      ok := LoadData(data, base);
    }
  }

  // ------------------------------------------------------------ a fault ends the load

  lemma {:induction false} CharsFault(size: u64, m: Flat, base: u64, at: u32, text: seq<byte>, n: nat)
    requires n <= |text| && StoreChars(size, m, base, at, text[..n]).1.Fault?
    ensures StoreChars(size, m, base, at, text) == StoreChars(size, m, base, at, text[..n])
    decreases |text| - n
  {
    hide CodeStore;
    if n < |text| {
      assert text[..n + 1][..n] == text[..n];
      CharsFault(size, m, base, at, text, n + 1);
    } else {
      assert text[..n] == text;
    }
  }

  lemma {:induction false} TextFault(size: u64, m: Flat, text: seq<u32>, n: nat)
    requires n <= |text| && !LoadedText(size, m, text[..n]).ok
    ensures LoadedText(size, m, text) == LoadedText(size, m, text[..n])
    decreases |text| - n
  {
    hide CodeStore;
    if n < |text| {
      assert text[..n + 1][..n] == text[..n];
      TextFault(size, m, text, n + 1);
    } else {
      assert text[..n] == text;
    }
  }

  lemma {:induction false} DataFault(size: u64, m: Flat, base: u64, data: seq<Element>, n: nat)
    requires n <= |data| && !LoadedData(size, m, base, data[..n]).ok
    ensures LoadedData(size, m, base, data) == LoadedData(size, m, base, data[..n])
    decreases |data| - n
  {
    hide StoreOne, Align32;
    if n < |data| {
      assert data[..n + 1][..n] == data[..n];
      DataFault(size, m, base, data, n + 1);
    } else {
      assert data[..n] == data;
    }
  }

  /** After a complete load of text the counter is its size. */
  lemma {:induction false} TextCounter(size: u64, m: Flat, text: seq<u32>)
    requires LoadedText(size, m, text).ok
    ensures LoadedText(size, m, text).counter == 4 * |text| % 0x1_0000_0000
    decreases |text|
  {
    hide CodeStore;
    if text != [] { TextCounter(size, m, text[..|text| - 1]); }
  }

  lemma TextStopsHere(size: u64, m: Flat, text: seq<u32>)
    requires text != [] && LoadedText(size, m, text[..|text| - 1]).ok && !LoadedText(size, m, text).ok
    ensures TextStoppedAt(size, m, text, |text| - 1, LoadedText(size, m, text).memory)
  {
    hide CodeStore;
    TextCounter(size, m, text[..|text| - 1]);
  }

  /** A load of text that fails stops at the first instruction that faults. */
  lemma {:induction false} TextStops(size: u64, m: Flat, text: seq<u32>)
    requires !LoadedText(size, m, text).ok
    ensures exists k: nat :: k < |text| && TextStoppedAt(size, m, text, k, LoadedText(size, m, text).memory)
    decreases |text|
  {
    hide CodeStore, TextStoppedAt;
    var n := |text| - 1;
    if LoadedText(size, m, text[..n]).ok {
      TextStopsHere(size, m, text);
    } else {
      TextStops(size, m, text[..n]);
      var k: nat :| k < n && TextStoppedAt(size, m, text[..n], k, LoadedText(size, m, text[..n]).memory);
      StoppedLonger(size, m, text, k, LoadedText(size, m, text).memory);
    }
  }

  lemma StoppedLonger(size: u64, m: Flat, text: seq<u32>, k: nat, last: Flat)
    requires k < |text| - 1 && TextStoppedAt(size, m, text[..|text| - 1], k, last)
    ensures TextStoppedAt(size, m, text, k, last)
  {
    hide CodeStore, LoadedText;
    assert text[..|text| - 1][..k] == text[..k];
  }

  predicate TextStoppedAt(size: u64, m: Flat, text: seq<u32>, k: nat, last: Flat)
    requires k < |text|
  {
    var r := LoadedText(size, m, text[..k]);
    var (m', out) := CodeStore(size, r.memory, 4 * k % W32, 4, text[k]);
    r.ok && out.Fault? && last == m'
  }

  /** The elements before the k-th are stored, the k-th is not, and what it left behind is the memory. */
  predicate StoppedAt(size: u64, m: Flat, base: u64, data: seq<Element>, k: nat, last: Flat)
    requires k < |data|
  {
    var r := LoadedData(size, m, base, data[..k]);
    var (m', out) := StoreOne(size, r.memory, base, Align32(r.counter, data[k].Alignment()), data[k]);
    r.ok && out.Fault? && last == m'
  }

  /** A load of data that fails stops at the first element that faults. */
  lemma {:induction false} DataStops(size: u64, m: Flat, base: u64, data: seq<Element>)
    requires !LoadedData(size, m, base, data).ok
    ensures exists k: nat :: k < |data| && StoppedAt(size, m, base, data, k, LoadedData(size, m, base, data).memory)
    decreases |data|
  {
    hide StoreOne, Align32;
    var n := |data| - 1;
    if LoadedData(size, m, base, data[..n]).ok {
      assert StoppedAt(size, m, base, data, n, LoadedData(size, m, base, data).memory);
    } else {
      DataStops(size, m, base, data[..n]);
      var k: nat :| k < n && StoppedAt(size, m, base, data[..n], k, LoadedData(size, m, base, data[..n]).memory);
      assert data[..n][..k] == data[..k];
      assert StoppedAt(size, m, base, data, k, LoadedData(size, m, base, data).memory);
    }
  }

  // ------------------------------------------------------------ a program that fits is loaded whole

  lemma StoreInside(size: u64, m: Flat, a: u64, w: nat, v: nat)
    requires 1 <= w <= 8 && a + w <= size
    ensures CodeStore(size, m, a, w, v) == (Poke(m, a, Bytes(v, w)), Stored)
  {
    StoreLoopInside(size, m, a, Bytes(v, w));
  }

  lemma LastChar(size: u64, m: Flat, base: u64, at: u32, text: seq<byte>)
    requires text != [] && at + |text| < W32 && base + at + |text| <= size
    ensures var i := |text| - 1;
            CodeStore(size, Poke(m, base + at, text[..i]), (base + (at + i) % W32) % B, 1, text[i])
            == (Poke(m, base + at, text), Stored)
  {
    hide CodeStore, Poke, Bytes;
    var i := |text| - 1;
    var before := Poke(m, base + at, text[..i]);
    StoreInside(size, before, base + at + i, 1, text[i]);
    OneByte(before, base + at + i, text[i]);
    PokeAppend(m, base + at, text[..i], text[i]);
    assert text[..i] + [text[i]] == text;
  }

  lemma {:induction false} CharsFit(size: u64, m: Flat, base: u64, at: u32, text: seq<byte>)
    requires at + |text| < W32 && (text == [] || base + at + |text| <= size)
    ensures StoreChars(size, m, base, at, text) == (Poke(m, base + at, text), Stored)
    decreases |text|
  {
    hide CodeStore;
    if text != [] {
      hide Poke;
      CharsFit(size, m, base, at, text[..|text| - 1]);
      LastChar(size, m, base, at, text);
    }
  }

  lemma OneByte(m: Flat, a: int, x: byte)
    ensures Poke(m, a, Bytes(x, 1)) == m[a := x]
  {
    assert Bytes(x, 1) == [x] + Bytes(0, 0);
    assert Poke(m, a, [x]) == Poke(m[a := x], a + 1, []);
  }

  lemma {:induction false} TextFits(size: u64, m: Flat, text: seq<u32>)
    requires 4 * |text| < W32 && 4 * |text| <= size
    ensures LoadedText(size, m, text) == Loading(TextImage(m, text), 4 * |text|, true)
    decreases |text|
  {
    hide CodeStore, Poke, Bytes;
    if text != [] {
      var i := |text| - 1;
      TextFits(size, m, text[..i]);
      StoreInside(size, TextImage(m, text[..i]), 4 * i, 4, text[i]);
    }
  }

  lemma ElementFits(size: u64, m: Flat, base: u64, at: u32, e: Element)
    requires at + e.Size() < W32 && (e.Size() == 0 || base + at + e.Size() <= size)
    ensures StoreOne(size, m, base, at, e) == (Poke(m, base + at, e.Image()), Stored)
  {
    hide CodeStore, Poke, StoreChars, Bytes;
    if e.Chars? { CharsFit(size, m, base, at, e.text); } else { StoreInside(size, m, base + at, e.Size(), e.v); }
  }

  lemma AlignFits(counter: u32, a: int)
    requires a > 0 && AlignUp(counter, a) < W32
    ensures Align32(counter, a) == AlignUp(counter, a)
  {
  }

  lemma LastElement(data: seq<Element>)
    requires data != []
    ensures End(data) == Offset(data, |data| - 1) + data[|data| - 1].Size()
  {
  }

  lemma {:induction false} DataFits(size: u64, m: Flat, base: u64, data: seq<Element>)
    requires End(data) < W32 && (End(data) == 0 || base + End(data) <= size)
    ensures LoadedData(size, m, base, data) == Loading(DataImage(m, base, data), End(data), true)
    decreases |data|
  {
    hide AlignUp, Align32, StoreOne, Poke, Element.Alignment, Element.Size, Element.Image;
    if data != [] {
      var i := |data| - 1;
      EndGrows(data, i);
      hide End;
      LastElement(data);
      DataFits(size, m, base, data[..i]);
      AlignFits(End(data[..i]), data[i].Alignment());
      ElementFits(size, DataImage(m, base, data[..i]), base, Offset(data, i), data[i]);
    } else {
      assert End([]) == 0;
    }
  }

  lemma FittingProgram(size: u64, m: Flat, text: seq<u32>, data: seq<Element>, base: u64)
    ensures Fits(text, data, base, size) ==>
              && LoadedText(size, m, text) == Loading(TextImage(m, text), 4 * |text|, true)
              && LoadedData(size, TextImage(m, text), base, data)
                 == Loading(DataImage(TextImage(m, text), base, data), End(data), true)
              && Target(map[], 4 * |text|, false) == 4 * |text|
  {
    hide LoadedText, LoadedData, TextImage, DataImage, End;
    if Fits(text, data, base, size) {
      TextFits(size, m, text);
      DataFits(size, TextImage(m, text), base, data);
    }
  }

  // ------------------------------------------------------------ and no other is

  lemma {:induction false} DataCounter(size: u64, m: Flat, base: u64, data: seq<Element>)
    requires End(data) < W32 && LoadedData(size, m, base, data).ok
    ensures LoadedData(size, m, base, data).counter == End(data)
    decreases |data|
  {
    hide AlignUp, Align32, StoreOne, Element.Alignment, Element.Size;
    if data != [] {
      var i := |data| - 1;
      EndGrows(data, i);
      hide End;
      LastElement(data);
      DataCounter(size, m, base, data[..i]);
      AlignFits(End(data[..i]), data[i].Alignment());
    } else {
      assert End([]) == 0;
    }
  }

  lemma OutsideFaults(size: u64, m: Flat, a: u64, w: nat, v: nat)
    requires 1 <= w <= 8 && (size == 0 || size >= 7) && a + w > size
    ensures CodeStore(size, m, a, w, v).1 == Fault
  {
    hide CodeStore, StoresAtomic;
    AtomicStores(size, w);
    StoreWhenAtomic(size, m, a, w, v);
  }

  /** An element with a byte outside the memory faults. */
  lemma ElementFaults(size: u64, m: Flat, base: u64, at: u32, e: Element)
    requires (size == 0 || size >= 7) && at + e.Size() < W32 && base + at + e.Size() < B
    requires e.Size() > 0 && base + at + e.Size() > size
    ensures StoreOne(size, m, base, at, e).1.Fault?
  {
    hide CodeStore;
    if e.Chars? {
      var i := |e.text| - 1;
      var r := StoreChars(size, m, base, at, e.text[..i]);
      OutsideFaults(size, r.0, base + at + i, 1, e.text[i]);
    } else {
      OutsideFaults(size, m, base + at, e.Size(), e.v);
    }
  }

  lemma TextInside(size: u64, m: Flat, text: seq<u32>)
    requires (size == 0 || size >= 7) && 4 * |text| < W32 && LoadedText(size, m, text).ok
    ensures 4 * |text| <= size
  {
    hide CodeStore;
    if text != [] && 4 * |text| > size {
      var r := LoadedText(size, m, text[..|text| - 1]);
      TextCounter(size, m, text[..|text| - 1]);
      OutsideFaults(size, r.memory, r.counter, 4, text[|text| - 1]);
    }
  }

  lemma DataInside(size: u64, m: Flat, base: u64, data: seq<Element>)
    requires (size == 0 || size >= 7) && End(data) < W32 && base + End(data) < B && LoadedData(size, m, base, data).ok
    requires data != [] && data[|data| - 1].Size() > 0
    ensures base + End(data) <= size
  {
    hide AlignUp, Align32, StoreOne, Element.Alignment, Element.Size;
    var i := |data| - 1;
    EndGrows(data, i);
    hide End;
    LastElement(data);
    DataCounter(size, m, base, data[..i]);
    AlignFits(End(data[..i]), data[i].Alignment());
    var r := LoadedData(size, m, base, data[..i]);
    if base + End(data) > size { ElementFaults(size, r.memory, base, Offset(data, i), data[i]); }
  }

  /**
   Main result: a program below the wrap-around of the counters is loaded without a fault exactly when
   it fits.
   */
  lemma LoadExact(size: u64, m: Flat, text: seq<u32>, data: seq<Element>, base: u64)
    requires size == 0 || size >= 7
    requires NoWrap(text, data, base)
    ensures var t := LoadedText(size, m, text);
            t.ok && LoadedData(size, t.memory, base, data).ok <==> Fits(text, data, base, size)
  {
    hide LoadedText, LoadedData, TextImage, DataImage, End, Element.Size;
    FittingProgram(size, m, text, data, base);
    if LoadedText(size, m, text).ok && LoadedData(size, LoadedText(size, m, text).memory, base, data).ok {
      TextInside(size, m, text);
      if data == [] {
        NoData();
      } else {
        DataInside(size, LoadedText(size, m, text).memory, base, data);
      }
    }
  }

  lemma NoData()
    ensures End([]) == 0
  {
  }

  lemma {:induction false} PokeAppend(m: Flat, a: int, bs: seq<byte>, x: byte)
    ensures Poke(m, a, bs + [x]) == Poke(m, a, bs)[a + |bs| := x]
    decreases |bs|
  {
    if bs == [] {
      assert bs + [x] == [x];
      assert Poke(m, a, [x]) == Poke(m[a := x], a + 1, []);
    } else {
      assert (bs + [x])[1..] == bs[1..] + [x];
      PokeAppend(m[a := bs[0]], a + 1, bs[1..], x);
    }
  }

  method AlignCounter(counter: u32, a: int) returns (r: u32)
    requires a > 0
    ensures r == Align32(counter, a)
  {
    r := counter;
    if counter % a != 0 {
      r := (counter + (a - counter % a)) % W32;
    }
  }
}
