/** Where the elements of the data section lie, and the memory image the loader writes. */
module DataLayout {
  import opened Limbs
  import opened BlockMemory

  /** An entry of the data buffer; floats are given by their bits. */
  datatype Element =
    | U8(v: nat) | U16(v: nat) | U32(v: nat) | U64(v: nat)
    | F32(v: nat) | F64(v: nat)
    | Chars(text: seq<byte>)
  {
    function Alignment(): (a: int)
      ensures a == 1 || a == 2 || a == 4 || a == 8
    {
      match this
      case U8(_) => 1
      case U16(_) => 2
      case U32(_) => 4
      case U64(_) => 8
      case F32(_) => 4
      case F64(_) => 8
      case Chars(_) => 1
    }

    function Size(): nat { if Chars? then |text| else Alignment() }

    /** The bytes the element occupies. */
    function Image(): (bs: seq<byte>)
      ensures |bs| == Size()
    {
      if Chars? then text else Bytes(v, Size())
    }
  }

  function AlignUp(x: nat, a: int): (y: nat)
    requires a > 0
    ensures x <= y < x + a
  {
    if x % a != 0 then x + (a - x % a) else x
  }

  /** The first multiple of a from x on. */
  lemma AlignUpIsMultiple(x: nat, a: int)
    requires a > 0
    ensures AlignUp(x, a) % a == 0
    ensures x % a == 0 ==> AlignUp(x, a) == x
  {
    if x % a != 0 { NextMultiple(x, a); }
  }

  /** No smaller multiple of a is at or after x. */
  lemma AlignUpIsLeast(x: nat, a: int, m: nat)
    requires a > 0 && x <= m && m % a == 0
    ensures AlignUp(x, a) <= m
  {
    AlignUpIsMultiple(x, a);
    hide AlignUp;
    var q, k := AlignUp(x, a) / a, m / a;
    assert AlignUp(x, a) == a * q && m == a * k;
    if q > k { LaterMultiple(a, q, k); }
  }

  lemma LaterMultiple(a: int, q: int, k: int)
    requires a > 0 && q > k
    ensures a * q >= a * k + a
  {
    MulLe(a, k + 1, q);
    assert a * (k + 1) == a * k + a;
  }

  lemma NextMultiple(x: nat, a: int)
    requires a > 0
    ensures (x + (a - x % a)) % a == 0
  {
    var q := x / a;
    assert x == a * q + x % a;
    assert x + (a - x % a) == a * (q + 1);
    MultipleMod(q + 1, a);
  }

  lemma {:induction false} MultipleMod(q: nat, a: int)
    requires a > 0
    ensures (a * q) % a == 0
  {
    QuotientIs(a * q, a, q, 0);
  }

  /** First free offset behind the elements. */
  function End(data: seq<Element>): nat {
    if data == [] then 0
    else var m := |data| - 1; AlignUp(End(data[..m]), data[m].Alignment()) + data[m].Size()
  }

  /** Offset of element m. */
  function Offset(data: seq<Element>, m: nat): nat
    requires m < |data|
  {
    AlignUp(End(data[..m]), data[m].Alignment())
  }

  lemma {:induction false} EndGrows(data: seq<Element>, m: nat)
    requires m <= |data|
    ensures End(data[..m]) <= End(data)
    decreases |data| - m
  {
    hide AlignUp;
    if m < |data| {
      EndGrows(data, m + 1);
      assert data[..m + 1][..m] == data[..m];
    } else {
      assert data[..m] == data;
    }
  }

  /** Elements lie one behind the other. */
  lemma OffsetsApart(data: seq<Element>, m: nat, k: nat)
    requires m < k < |data|
    ensures Offset(data, m) + data[m].Size() <= Offset(data, k)
  {
    EndGrows(data[..k], m + 1);
    assert data[..k][..m + 1] == data[..m + 1] && data[..m + 1][..m] == data[..m];
  }

  /** Numbers of 1, 2, 4 and 8 bytes lie at the first multiple of their size, strings right behind what is before. */
  lemma OffsetsExact(data: seq<Element>, k: nat)
    requires k < |data|
    ensures var free := if k == 0 then 0 else
              Offset(data, k - 1) + (match data[k - 1]
                                     case U8(_) => 1 case U16(_) => 2 case U32(_) => 4 case U64(_) => 8
                                     case F32(_) => 4 case F64(_) => 8 case Chars(text) => |text|);
            var a := match data[k]
                     case U8(_) => 1 case U16(_) => 2 case U32(_) => 4 case U64(_) => 8
                     case F32(_) => 4 case F64(_) => 8 case Chars(_) => 1;
            Offset(data, k) % a == 0 && free <= Offset(data, k) < free + a
  {
    AlignUpIsMultiple(End(data[..k]), data[k].Alignment());
    hide AlignUp;
    if k > 0 { assert data[..k][..k - 1] == data[..k - 1]; }
  }

  lemma PrefixOffset(data: seq<Element>, n: nat, k: nat)
    requires k < n <= |data|
    ensures Offset(data[..n], k) == Offset(data, k)
  {
    assert data[..n][..k] == data[..k];
  }

  // ------------------------------------------------------------ memory images

  /** The data section written element by element from base on. */
  function DataImage(m: Flat, base: int, data: seq<Element>): Flat
    decreases |data|
  {
    if data == [] then m
    else
      var k := |data| - 1;
      Poke(DataImage(m, base, data[..k]), base + Offset(data, k), data[k].Image())
  }

  /** The program text, four bytes an instruction from address 0 on. */
  function TextImage(m: Flat, text: seq<nat>): Flat
    decreases |text|
  {
    if text == [] then m
    else
      var k := |text| - 1;
      Poke(TextImage(m, text[..k]), 4 * k, Bytes(text[k], 4))
  }

  lemma {:induction false} DataImageElsewhere(m: Flat, base: int, data: seq<Element>, x: int)
    requires x < base || base + End(data) <= x
    ensures Peek(DataImage(m, base, data), x) == Peek(m, x)
    decreases |data|
  {
    hide AlignUp;
    if data != [] {
      var k := |data| - 1;
      EndGrows(data, k);
      DataImageElsewhere(m, base, data[..k], x);
      PeekOfPoke(DataImage(m, base, data[..k]), base + Offset(data, k), data[k].Image(), x);
    }
  }

  /** Every element is in the image at its offset: later elements never disturb earlier ones. */
  lemma {:induction false} DataImageHolds(m: Flat, base: int, data: seq<Element>, k: nat, i: nat)
    requires k < |data| && i < data[k].Size()
    ensures Peek(DataImage(m, base, data), base + Offset(data, k) + i) == data[k].Image()[i]
    decreases |data|
  {
    hide AlignUp, Bytes, End, Offset;
    var n := |data| - 1;
    var x := base + Offset(data, k) + i;
    PeekOfPoke(DataImage(m, base, data[..n]), base + Offset(data, n), data[n].Image(), x);
    if k < n {
      OffsetsApart(data, k, n);
      PrefixOffset(data, n, k);
      DataImageHolds(m, base, data[..n], k, i);
    }
  }

  lemma {:induction false} TextImageHolds(m: Flat, text: seq<nat>, k: nat, i: nat)
    requires k < |text| && i < 4
    ensures Peek(TextImage(m, text), 4 * k + i) == Bytes(text[k], 4)[i]
    decreases |text|
  {
    hide Bytes;
    var n := |text| - 1;
    PeekOfPoke(TextImage(m, text[..n]), 4 * n, Bytes(text[n], 4), 4 * k + i);
    if k < n { TextImageHolds(m, text[..n], k, i); }
  }

  /** Reading an element's bytes back from the loaded memory gives the element. */
  lemma ElementLoaded(m: Flat, base: nat, data: seq<Element>, k: nat)
    requires k < |data|
    ensures PeekAll(DataImage(m, base, data), base + Offset(data, k), data[k].Size()) == data[k].Image()
  {
    hide AlignUp, Bytes, DataImage;
    var bs := PeekAll(DataImage(m, base, data), base + Offset(data, k), data[k].Size());
    forall i | 0 <= i < |bs| ensures bs[i] == data[k].Image()[i] {
      DataImageHolds(m, base, data, k, i);
    }
  }

  lemma FourBytes()
    ensures Pow256(4) == W32
  {
    assert Pow256(4) == 256 * Pow256(3) && Pow256(3) == 256 * Pow256(2) && Pow256(2) == 256 * Pow256(1);
  }

  lemma InstructionByte(m: Flat, text: seq<nat>, base: nat, data: seq<Element>, k: nat, i: nat)
    requires k < |text| && 4 * k + 4 <= base && i < 4
    ensures Peek(DataImage(TextImage(m, text), base, data), 4 * k + i) == Bytes(text[k], 4)[i]
  {
    hide Bytes, Peek, DataImage, TextImage, End;
    DataImageElsewhere(TextImage(m, text), base, data, 4 * k + i);
    TextImageHolds(m, text, k, i);
  }

  /** Every instruction below the data section is fetched as it was assembled. */
  lemma InstructionLoaded(m: Flat, text: seq<nat>, base: nat, data: seq<Element>, k: nat)
    requires k < |text| && 4 * k + 4 <= base && text[k] < W32
    ensures LittleEndian(PeekAll(DataImage(TextImage(m, text), base, data), 4 * k, 4)) == text[k]
  {
    hide Bytes, Pow256, LittleEndian, DataImage, TextImage, Peek, End;
    FourBytes();
    BytesRoundTrip(text[k], 4);
    var bs := PeekAll(DataImage(TextImage(m, text), base, data), 4 * k, 4);
    forall i | 0 <= i < 4 ensures bs[i] == Bytes(text[k], 4)[i] {
      InstructionByte(m, text, base, data, k, i);
    }
    assert bs == Bytes(text[k], 4);
  }
}
