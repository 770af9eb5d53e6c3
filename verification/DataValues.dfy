/**
 What a data section's tokens come to in memory: the bytes at a label's address are those of the tokens
 behind its directive, one after the other.
 */
module DataValues {
  import opened Limbs
  import opened BlockMemory
  import opened DataLayout
  import opened SymbolTable
  import opened DataParser
  import SectionLabels

  // ------------------------------------------------------------ tokens to bytes

  predicate IsDataWord(word: string) {
    word in ["dword", "udword", "word", "halfword", "byte", "float", "double", "string", "zero"]
  }

  /** The kind of token a directive takes. */
  function KindOf(word: string): TokenType {
    if word == "float" || word == "double" then FLOAT else if word == "string" then STRING else NUM
  }

  /** The bytes of one element token: the low bytes of a number, the bits of a float, a string and its end. */
  function TokenBytes(word: string, t: Token): seq<byte> {
    if word == "dword" || word == "udword" || word == "double" then Bytes(t.num % 0x1_0000_0000_0000_0000, 8)
    else if word == "word" || word == "float" then Bytes(t.num % 0x1_0000_0000, 4)
    else if word == "halfword" then Bytes(t.num % 0x1_0000, 2)
    else if word == "byte" then Bytes(t.num % 0x100, 1)
    else if word == "string" then t.text + [0]
    else seq<byte>(t.num % 0x1_0000_0000_0000_0000, _ => 0)
  }

  /** The element tokens from token q on; commas are skipped, any other token ends them. */
  function Listed(ts: seq<Token>, q: nat, kind: TokenType): seq<Token>
    decreases |ts| - q
  {
    if q >= |ts| then []
    else if ts[q].kind == kind then [ts[q]] + Listed(ts, q + 1, kind)
    else if ts[q].kind == COMMA then Listed(ts, q + 1, kind)
    else []
  }

  /** In a list n elements long and separated by commas, element t is token q + 2t. */
  lemma {:induction false} CommaSeparated(ts: seq<Token>, q: nat, kind: TokenType, n: nat, t: nat)
    requires kind != COMMA && t < n && q + 2 * n - 1 <= |ts|
    requires forall s :: q <= s < q + 2 * n - 1 ==> ts[s].kind == if (s - q) % 2 == 0 then kind else COMMA
    ensures |Listed(ts, q, kind)| >= n && Listed(ts, q, kind)[t] == ts[q + 2 * t]
    ensures q + 2 * n - 1 == |ts| || ts[q + 2 * n - 1].kind !in {kind, COMMA} ==> |Listed(ts, q, kind)| == n
    decreases n
  {
    assert ts[q].kind == kind;
    if n > 1 {
      assert ts[q + 1].kind == COMMA;
      forall s | q + 2 <= s < q + 2 * n - 1 ensures ts[s].kind == if (s - (q + 2)) % 2 == 0 then kind else COMMA {
        assert (s - (q + 2)) % 2 == (s - q) % 2;
      }
      CommaSeparated(ts, q + 2, kind, n - 1, if t == 0 then 0 else t - 1);
    }
  }

  /** The bytes of element tokens, in order. */
  function Contents(word: string, elems: seq<Token>): seq<byte> {
    if elems == [] then [] else TokenBytes(word, elems[0]) + Contents(word, elems[1..])
  }

  // ------------------------------------------------------------ elements of a directive

  function Flatten(es: seq<Element>): seq<byte> {
    if es == [] then [] else es[0].Image() + Flatten(es[1..])
  }

  function Produced(dir: Directive, t: Token): seq<Element>
    requires dir != NoDirective
  {
    if dir == Zero then Zeros(t.num % B) else [ElementOf(dir, t)]
  }

  function Written(dir: Directive, elems: seq<Token>): seq<Element>
    requires dir != NoDirective
  {
    if elems == [] then [] else Produced(dir, elems[0]) + Written(dir, elems[1..])
  }

  lemma {:induction false} FlattenConcat(es: seq<Element>, fs: seq<Element>)
    ensures Flatten(es + fs) == Flatten(es) + Flatten(fs)
  {
    hide Element.Image;
    if es == [] {
      assert es + fs == fs;
    } else {
      assert (es + fs)[1..] == es[1..] + fs;
      FlattenConcat(es[1..], fs);
    }
  }

  lemma {:induction false} FlattenZeros(n: nat)
    ensures Flatten(Zeros(n)) == seq<byte>(n, _ => 0)
  {
    if n > 0 {
      assert Zeros(n)[1..] == Zeros(n - 1);
      FlattenZeros(n - 1);
      assert Zeros(n)[0].Image() == [0] by { assert Bytes(0, 1) == [0] + Bytes(0, 0); }
    }
  }

  lemma TakesKind(word: string, t: Token)
    requires IsDataWord(word)
    ensures Keyword(word) != NoDirective && (Keyword(word).Takes(t) <==> t.kind == KindOf(word))
  {
  }

  lemma ProducedBytes(word: string, t: Token)
    requires IsDataWord(word)
    ensures Keyword(word) != NoDirective && Flatten(Produced(Keyword(word), t)) == TokenBytes(word, t)
  {
    hide Bytes;
    if word == "zero" {
      FlattenZeros(t.num % B);
    } else {
      var e := ElementOf(Keyword(word), t);
      assert Flatten([e]) == e.Image() + Flatten([]);
    }
  }

  lemma {:induction false} WrittenBytes(word: string, elems: seq<Token>)
    requires IsDataWord(word)
    ensures Keyword(word) != NoDirective && Flatten(Written(Keyword(word), elems)) == Contents(word, elems)
  {
    hide Keyword, Produced, TokenBytes, IsDataWord, Element.Image;
    if elems == [] {
      TakesKind(word, EOFTOKEN);
    } else {
      ProducedBytes(word, elems[0]);
      WrittenBytes(word, elems[1..]);
      FlattenConcat(Produced(Keyword(word), elems[0]), Written(Keyword(word), elems[1..]));
    }
  }

  /** The directive's tokens end up in the buffer as their elements. */
  lemma {:induction false} ItemsWritten(ts: seq<Token>, q: nat, word: string, d: Data)
    requires IsDataWord(word)
    ensures Keyword(word) != NoDirective
    ensures Items(ts, q, Keyword(word), d).1.buffer == d.buffer + Written(Keyword(word), Listed(ts, q, KindOf(word)))
    decreases |ts| - q
  {
    var dir := Keyword(word);
    TakesKind(word, TokenAt(ts, q));
    hide Keyword, KindOf, IsDataWord, ElementOf, Directive.Takes;
    if q < |ts| {
      if dir.Takes(ts[q]) {
        ItemsWritten(ts, q + 1, word, Take(dir, ts[q], d));
        assert Take(dir, ts[q], d).buffer == d.buffer + Produced(dir, ts[q]);
      } else if ts[q].kind == COMMA {
        ItemsWritten(ts, q + 1, word, d);
      }
    }
  }

  // ------------------------------------------------------------ a run of elements in memory

  /** Elements k to k+n-1 have one alignment and sizes that keep it. */
  predicate Even(data: seq<Element>, k: nat, n: nat, a: int)
    requires k + n <= |data|
  {
    a > 0 && forall j :: k <= j < k + n ==> data[j].Alignment() == a && data[j].Size() % a == 0
  }

  /** The next element of an even run follows without a gap. */
  lemma NextOffset(data: seq<Element>, k: nat, n: nat, a: int)
    requires n >= 2 && k + n <= |data| && Even(data, k, n, a)
    ensures Offset(data, k + 1) == Offset(data, k) + data[k].Size()
  {
    hide AlignUp, Element.Size, Element.Alignment;
    assert data[..k + 1][..k] == data[..k];
    AlignUpIsMultiple(End(data[..k]), a);
    SumMod(Offset(data, k), data[k].Size(), a);
    AlignUpIsMultiple(Offset(data, k) + data[k].Size(), a);
  }

  lemma SumMod(x: nat, y: nat, a: int)
    requires a > 0 && x % a == 0 && y % a == 0
    ensures (x + y) % a == 0
  {
    var p, q := x / a, y / a;
    assert x == a * p && y == a * q;
    Distribute(a, p, q);
    MultipleMod(p + q, a);
  }

  lemma {:induction false} RunInside(data: seq<Element>, k: nat, n: nat, a: int)
    requires 1 <= n && k + n <= |data| && Even(data, k, n, a)
    ensures Offset(data, k) + |Flatten(data[k..k + n])| <= End(data)
    decreases n
  {
    hide AlignUp, Element.Size, Element.Alignment, Element.Image;
    assert data[k..k + n][1..] == data[k + 1..k + n];
    if n == 1 {
      assert data[..k + 1][..k] == data[..k];
      EndGrows(data, k + 1);
    } else {
      NextOffset(data, k, n, a);
      RunInside(data, k + 1, n - 1, a);
    }
  }

  /** The bytes from the first element's offset on are the elements' bytes. */
  lemma {:induction false} RunByte(m: Flat, base: int, data: seq<Element>, k: nat, n: nat, a: int, i: nat)
    requires 1 <= n && k + n <= |data| && Even(data, k, n, a)
    requires i < |Flatten(data[k..k + n])|
    ensures Peek(DataImage(m, base, data), base + Offset(data, k) + i) == Flatten(data[k..k + n])[i]
    decreases n
  {
    hide AlignUp, Element.Size, Element.Alignment, Element.Image, DataImage, Offset, End, Peek;
    var es := data[k..k + n];
    assert es[1..] == data[k + 1..k + n] && es[0] == data[k];
    if i < data[k].Size() {
      DataImageHolds(m, base, data, k, i);
    } else {
      var at := i - data[k].Size();
      NextOffset(data, k, n, a);
      RunByte(m, base, data, k + 1, n - 1, a, at);
    }
  }

  lemma RunLoad(m: Flat, base: nat, data: seq<Element>, k: nat, n: nat, a: int, size: u64, i: nat, w: nat)
    requires 1 <= n && k + n <= |data| && Even(data, k, n, a)
    requires End(data) == 0 || base + End(data) <= size
    requires w >= 1 && i + w <= |Flatten(data[k..k + n])|
    ensures 0 <= base + Offset(data, k) + i < B
    ensures FlatLoad(size, DataImage(m, base, data), base + Offset(data, k) + i, w)
            == Loaded(LittleEndian(Flatten(data[k..k + n])[i..i + w]))
  {
    hide AlignUp, DataImage, Offset, End, Peek, Flatten, LittleEndian, Even;
    RunInside(data, k, n, a);
    var at, bs := base + Offset(data, k) + i, Flatten(data[k..k + n])[i..i + w];
    forall x: nat | x < w ensures Peek(DataImage(m, base, data), at + x) == bs[x] {
      RunByte(m, base, data, k, n, a, i + x);
    }
    assert PeekAll(DataImage(m, base, data), at, w) == bs;
  }

  // ------------------------------------------------------------ what a directive writes is even

  lemma ProducedEven(dir: Directive, t: Token, e: Element)
    requires dir != NoDirective && e in Produced(dir, t)
    ensures e.Alignment() == dir.Alignment() && e.Size() % dir.Alignment() == 0
  {
  }

  lemma {:induction false} WrittenEven(dir: Directive, elems: seq<Token>, e: Element)
    requires dir != NoDirective && e in Written(dir, elems)
    ensures e.Alignment() == dir.Alignment() && e.Size() % dir.Alignment() == 0
  {
    hide Produced;
    if elems != [] {
      if e in Produced(dir, elems[0]) { ProducedEven(dir, elems[0], e); } else { WrittenEven(dir, elems[1..], e); }
    }
  }

  lemma WrittenUniform(dir: Directive, elems: seq<Token>)
    requires dir != NoDirective
    ensures Uniform(Written(dir, elems), dir.Alignment())
  {
    hide Written, Element.Alignment, Element.Size, Directive.Alignment;
    forall e | e in Written(dir, elems) ensures e.Alignment() == dir.Alignment() && e.Size() % dir.Alignment() == 0 {
      WrittenEven(dir, elems, e);
    }
  }

  // ------------------------------------------------------------ the scan reaches a label's directive

  /** Token p is the section's only definition of label l, with a data directive behind it. */
  predicate Defines(ts: seq<Token>, p: nat, l: string) {
    && p + 1 < |ts| && ts[p].kind == LABEL && ts[p].value == l
    && ts[p + 1].kind != LABEL && ts[p + 1].kind != END && IsDataWord(ts[p + 1].value)
    && forall q :: 0 <= q < |ts| && q != p && ts[q].kind == LABEL ==> ts[q].value != l
  }

  /** The label's mark and what stands in the buffer from there on. */
  predicate Holds(d: Data, l: string, es: seq<Element>) {
    && l in d.symbols && l in d.marks && d.marks[l] + |es| <= |d.buffer|
    && d.buffer[d.marks[l]..d.marks[l] + |es|] == es
  }

  lemma {:induction false} ItemsKeep(ts: seq<Token>, q: nat, dir: Directive, d: Data, l: string, es: seq<Element>)
    requires dir != NoDirective && Holds(d, l, es)
    ensures Holds(Items(ts, q, dir, d).1, l, es)
    decreases |ts| - q
  {
    hide ElementOf, Directive.Takes;
    if q < |ts| {
      if dir.Takes(ts[q]) {
        ItemsKeep(ts, q + 1, dir, Take(dir, ts[q], d), l, es);
      } else if ts[q].kind == COMMA {
        ItemsKeep(ts, q + 1, dir, d, l, es);
      }
    }
  }

  lemma {:induction false} ScanKeeps(ts: seq<Token>, q: nat, d: Data, l: string, es: seq<Element>)
    requires Holds(d, l, es)
    requires forall x :: q <= x < |ts| && ts[x].kind == LABEL ==> ts[x].value != l
    ensures Holds(Scan(ts, q, d).1, l, es)
    decreases |ts| - q
  {
    hide Items, Keyword, StopsSection;
    if q < |ts| && !StopsSection(ts[q]) {
      var t := ts[q];
      if t.kind == LABEL {
        ScanKeeps(ts, q + 1, Label(t, Keyword(TokenAt(ts, q + 1).value), d), l, es);
      } else if Keyword(t.value) == NoDirective {
        ScanKeeps(ts, q + 1, d.(errors := d.errors + 2), l, es);
      } else {
        var (r, d') := Items(ts, q + 1, Keyword(t.value), d);
        ItemsKeep(ts, q + 1, Keyword(t.value), d, l, es);
        ScanKeeps(ts, r, d', l, es);
      }
    }
  }

  lemma {:induction false} ItemsStop(ts: seq<Token>, q: nat, dir: Directive, d: Data, p: nat)
    requires dir != NoDirective && q <= p < |ts| && ts[p].kind == LABEL
    ensures Items(ts, q, dir, d).0 <= p
    decreases |ts| - q
  {
    hide Take;
    if dir.Takes(ts[q]) {
      ItemsStop(ts, q + 1, dir, Take(dir, ts[q], d), p);
    } else if ts[q].kind == COMMA {
      ItemsStop(ts, q + 1, dir, d, p);
    }
  }

  /** The elements of the directive behind the label at token p. */
  function Behind(ts: seq<Token>, p: nat): seq<Element>
    requires p + 1 < |ts| && IsDataWord(ts[p + 1].value)
  {
    TakesKind(ts[p + 1].value, EOFTOKEN);
    Written(Keyword(ts[p + 1].value), Listed(ts, p + 2, KindOf(ts[p + 1].value)))
  }

  lemma AtLabel(ts: seq<Token>, p: nat, d: Data, l: string)
    requires Defines(ts, p, l) && !StopsSection(ts[p])
    ensures Holds(Scan(ts, p, d).1, l, Behind(ts, p))
  {
    var word := ts[p + 1].value;
    TakesKind(word, EOFTOKEN);
    var dir := Keyword(word);
    NoStop(ts[p + 1]);
    hide Keyword, Written, KindOf, IsDataWord, StopsSection;
    var d1 := Label(ts[p], dir, d);
    var (q, d2) := Items(ts, p + 2, dir, d1);
    assert Scan(ts, p, d) == Scan(ts, p + 1, d1) == Scan(ts, q, d2);
    assert Holds(d1, l, []);
    ItemsKeep(ts, p + 2, dir, d1, l, []);
    SectionLabels.ItemsTables(ts, p + 2, dir, d1);
    ItemsWritten(ts, p + 2, word, d1);
    assert Holds(d2, l, Behind(ts, p));
    ScanKeeps(ts, q, d2, l, Behind(ts, p));
  }

  lemma NoStop(t: Token)
    requires IsDataWord(t.value) && t.kind != END
    ensures !StopsSection(t)
  {
  }

  lemma {:induction false} ScanReaches(ts: seq<Token>, q: nat, d: Data, p: nat, l: string)
    requires Defines(ts, p, l) && q <= p && l !in d.symbols && l in Scan(ts, q, d).1.symbols
    ensures Holds(Scan(ts, q, d).1, l, Behind(ts, p))
    decreases |ts| - q
  {
    hide Items, Keyword, StopsSection, Behind, IsDataWord;
    var t := ts[q];
    if q == p {
      AtLabel(ts, p, d, l);
    } else if t.kind == LABEL {
      ScanReaches(ts, q + 1, Label(t, Keyword(TokenAt(ts, q + 1).value), d), p, l);
    } else if Keyword(t.value) == NoDirective {
      ScanReaches(ts, q + 1, d.(errors := d.errors + 2), p, l);
    } else {
      var (r, d') := Items(ts, q + 1, Keyword(t.value), d);
      ItemsStop(ts, q + 1, Keyword(t.value), d, p);
      SectionLabels.ItemsTables(ts, q + 1, Keyword(t.value), d);
      ScanReaches(ts, r, d', p, l);
    }
  }

  // ------------------------------------------------------------ loads at a label

  /** The element tokens of the directive behind the label at token p. */
  function ElementsAt(ts: seq<Token>, p: nat): seq<Token>
    requires p + 1 < |ts|
  {
    Listed(ts, p + 2, KindOf(ts[p + 1].value))
  }

  predicate Uniform(es: seq<Element>, a: int) {
    a > 0 && forall e :: e in es ==> e.Alignment() == a && e.Size() % a == 0
  }

  lemma HeldEven(data: seq<Element>, k: nat, es: seq<Element>, a: int)
    requires k + |es| <= |data| && data[k..k + |es|] == es && Uniform(es, a)
    ensures Even(data, k, |es|, a)
  {
    hide Element.Alignment, Element.Size;
    forall j | k <= j < k + |es| ensures data[j].Alignment() == a && data[j].Size() % a == 0 {
      assert data[j] == es[j - k];
    }
  }

  lemma HeldAddress(d: Data, l: string)
    requires InStep(d) && l in d.marks
    ensures l in d.symbols && d.marks[l] < |d.buffer| && d.symbols[l].address == Offset(d.buffer, d.marks[l])
  {
    hide Offset, End;
    assert LabelAgrees(d, l);
  }

  /** The elements a label marks are in the loaded memory, without gaps, from its address on. */
  lemma HeldLoad(d: Data, l: string, es: seq<Element>, a: int, m: Flat, base: nat, size: u64, i: nat, w: nat)
    requires Uniform(es, a) && es != []
    requires InStep(d) && Holds(d, l, es) && (End(d.buffer) == 0 || base + End(d.buffer) <= size)
    requires w >= 1 && i + w <= |Flatten(es)|
    ensures 0 <= base + d.symbols[l].address + i < B
    ensures FlatLoad(size, DataImage(m, base, d.buffer), base + d.symbols[l].address + i, w)
            == Loaded(LittleEndian(Flatten(es)[i..i + w]))
  {
    hide DataImage, End, FlatLoad, LittleEndian, Uniform, Flatten, InStep, Even, Offset;
    HeldEven(d.buffer, d.marks[l], es, a);
    HeldAddress(d, l);
    RunLoad(m, base, d.buffer, d.marks[l], |es|, a, size, i, w);
  }

  lemma ReachedFromStart(ts: seq<Token>, p: nat, l: string)
    requires Defines(ts, p, l) && l in Scan(ts, 0, NODATA).1.symbols
    ensures p + 1 < |ts| && IsDataWord(ts[p + 1].value) && Holds(Scan(ts, 0, NODATA).1, l, Behind(ts, p))
  {
    hide Scan, Behind, Holds, IsDataWord;
    ScanReaches(ts, 0, NODATA, p, l);
  }

  lemma BehindBytes(ts: seq<Token>, p: nat)
    requires p + 1 < |ts| && IsDataWord(ts[p + 1].value)
    ensures Flatten(Behind(ts, p)) == Contents(ts[p + 1].value, ElementsAt(ts, p))
    ensures Uniform(Behind(ts, p), Keyword(ts[p + 1].value).Alignment())
    ensures Contents(ts[p + 1].value, ElementsAt(ts, p)) != [] ==> Behind(ts, p) != []
  {
    assert Flatten([]) == [];
    hide Written, Uniform, Flatten, Contents, KindOf;
    WrittenBytes(ts[p + 1].value, ElementsAt(ts, p));
    WrittenUniform(Keyword(ts[p + 1].value), ElementsAt(ts, p));
  }

  /**
   Main result: from a label's address on, the loaded memory holds the bytes of the tokens behind the
   label's directive.
   */
  lemma DirectiveLoad(ts: seq<Token>, p: nat, l: string, m: Flat, base: nat, size: u64, i: nat, w: nat)
    requires Defines(ts, p, l) && w >= 1
    requires InStep(Scan(ts, 0, NODATA).1) && l in Scan(ts, 0, NODATA).1.symbols
    requires var end := End(Scan(ts, 0, NODATA).1.buffer); end == 0 || base + end <= size
    requires i + w <= |Contents(ts[p + 1].value, ElementsAt(ts, p))|
    ensures var d := Scan(ts, 0, NODATA).1;
            && 0 <= base + d.symbols[l].address + i < B
            && FlatLoad(size, DataImage(m, base, d.buffer), base + d.symbols[l].address + i, w)
               == Loaded(LittleEndian(Contents(ts[p + 1].value, ElementsAt(ts, p))[i..i + w]))
  {
    hide *;
    ReachedFromStart(ts, p, l);
    BehindBytes(ts, p);
    HeldLoad(Scan(ts, 0, NODATA).1, l, Behind(ts, p), Keyword(ts[p + 1].value).Alignment(), m, base, size, i, w);
  }

  // ------------------------------------------------------------ what the bytes mean

  function TokenStart(word: string, elems: seq<Token>, j: nat): nat
    requires j <= |elems|
  {
    if j == 0 then 0 else TokenStart(word, elems, j - 1) + |TokenBytes(word, elems[j - 1])|
  }

  lemma {:induction false} StartTail(word: string, elems: seq<Token>, j: nat)
    requires 1 <= j <= |elems|
    ensures TokenStart(word, elems, j) == |TokenBytes(word, elems[0])| + TokenStart(word, elems[1..], j - 1)
  {
    hide TokenBytes;
    if j > 1 { StartTail(word, elems, j - 1); }
  }

  /** Token j's bytes stand behind those of the tokens before it. */
  lemma {:induction false} ContentsAt(word: string, elems: seq<Token>, j: nat)
    requires j < |elems|
    ensures var start, n := TokenStart(word, elems, j), |TokenBytes(word, elems[j])|;
            && start + n <= |Contents(word, elems)|
            && Contents(word, elems)[start..start + n] == TokenBytes(word, elems[j])
  {
    hide TokenBytes;
    if j > 0 {
      StartTail(word, elems, j);
      ContentsAt(word, elems[1..], j - 1);
    }
  }

  lemma {:induction false} EqualStarts(word: string, elems: seq<Token>, j: nat, k: nat)
    requires j <= |elems| && forall t: Token :: |TokenBytes(word, t)| == k
    ensures TokenStart(word, elems, j) == j * k
  {
    hide TokenBytes;
    if j > 0 { EqualStarts(word, elems, j - 1, k); }
  }

  lemma StringBytes(t: Token)
    ensures TokenBytes("string", t) == t.text + [0]
  {
  }

  lemma {:induction false} StringStarts(elems: seq<Token>, j: nat)
    requires j <= |elems|
    ensures TokenStart("string", elems, j) == StringStart(elems, j)
  {
    hide TokenBytes;
    if j > 0 {
      StringStarts(elems, j - 1);
      StringBytes(elems[j - 1]);
    }
  }

  lemma {:induction false} AllZeros(elems: seq<Token>)
    ensures |Contents("zero", elems)| == ZeroCount(elems)
    ensures forall i :: 0 <= i < ZeroCount(elems) ==> Contents("zero", elems)[i] == 0
  {
    if elems != [] { AllZeros(elems[1..]); }
  }

  /** Where string j begins: behind those before it and their zero bytes. */
  function StringStart(elems: seq<Token>, j: nat): nat
    requires j <= |elems|
  {
    if j == 0 then 0 else StringStart(elems, j - 1) + |elems[j - 1].text| + 1
  }

  function ZeroCount(elems: seq<Token>): nat {
    if elems == [] then 0 else elems[0].num % 0x1_0000_0000_0000_0000 + ZeroCount(elems[1..])
  }

  /** A load of number j's bytes gives number j, reduced to them. */
  predicate ReadsNumber(elems: seq<Token>, i: nat, w: nat, out: Outcome, modulus: int)
    requires modulus > 0
  {
    forall j :: 0 <= j < |elems| && i == j * w ==> out == Loaded(elems[j].num % modulus)
  }

  /** A byte load in string j gives its character, and zero at its end. */
  predicate ReadsString(elems: seq<Token>, i: nat, out: Outcome) {
    forall j :: 0 <= j < |elems| && 0 <= i - StringStart(elems, j) <= |elems[j].text| ==>
      var c := i - StringStart(elems, j);
      out == Loaded(if c < |elems[j].text| then elems[j].text[c] else 0)
  }

  /** What a load of w bytes, i bytes behind the label of a directive with these tokens, returns. */
  predicate ReadsTokens(word: string, elems: seq<Token>, i: nat, w: nat, out: Outcome) {
    && (word in ["dword", "udword", "double"] && w == 8 ==> ReadsNumber(elems, i, w, out, 0x1_0000_0000_0000_0000))
    && (word in ["word", "float"] && w == 4 ==> ReadsNumber(elems, i, w, out, 0x1_0000_0000))
    && (word == "halfword" && w == 2 ==> ReadsNumber(elems, i, w, out, 0x1_0000))
    && (word == "byte" && w == 1 ==> ReadsNumber(elems, i, w, out, 0x100))
    && (word == "string" && w == 1 ==> ReadsString(elems, i, out))
    && (word == "zero" && w == 1 && i < ZeroCount(elems) ==> out == Loaded(0))
  }

  lemma NumbersRead(word: string, elems: seq<Token>, i: nat, w: nat, out: Outcome, modulus: int)
    requires 1 <= w && modulus == Pow256(w)
    requires forall t: Token :: TokenBytes(word, t) == Bytes(t.num % modulus, w)
    requires i + w <= |Contents(word, elems)| ==> out == Loaded(LittleEndian(Contents(word, elems)[i..i + w]))
    ensures ReadsNumber(elems, i, w, out, modulus)
  {
    hide TokenBytes, Bytes, LittleEndian, Contents, Pow256, TokenStart;
    forall j | 0 <= j < |elems| && i == j * w ensures out == Loaded(elems[j].num % modulus) {
      EqualStarts(word, elems, j, w);
      ContentsAt(word, elems, j);
      BytesRoundTrip(elems[j].num % modulus, w);
    }
  }

  lemma StringByte(elems: seq<Token>, j: nat, c: nat)
    requires j < |elems| && c <= |elems[j].text|
    ensures StringStart(elems, j) + c < |Contents("string", elems)|
    ensures Contents("string", elems)[StringStart(elems, j) + c] == if c < |elems[j].text| then elems[j].text[c] else 0
  {
    hide Contents, TokenStart, StringStart;
    StringStarts(elems, j);
    ContentsAt("string", elems, j);
    var start := StringStart(elems, j);
    assert Contents("string", elems)[start + c] == Contents("string", elems)[start..start + |elems[j].text| + 1][c];
  }

  lemma StringsRead(elems: seq<Token>, i: nat, out: Outcome)
    requires i + 1 <= |Contents("string", elems)| ==>
               out == Loaded(LittleEndian(Contents("string", elems)[i..i + 1]))
    ensures ReadsString(elems, i, out)
  {
    hide LittleEndian, Contents, TokenStart, StringStart;
    forall j | 0 <= j < |elems| && 0 <= i - StringStart(elems, j) <= |elems[j].text|
      ensures var c := i - StringStart(elems, j);
              out == Loaded(if c < |elems[j].text| then elems[j].text[c] else 0)
    {
      var c := i - StringStart(elems, j);
      StringByte(elems, j, c);
      SingleByte(Contents("string", elems)[i]);
      assert Contents("string", elems)[i..i + 1] == [Contents("string", elems)[i]];
    }
  }

  lemma SingleByte(x: byte)
    ensures LittleEndian([x]) == x
  {
    assert LittleEndian([x]) == x + 256 * LittleEndian([]);
  }

  lemma Widths()
    ensures Pow256(1) == 0x100 && Pow256(2) == 0x1_0000 && Pow256(4) == 0x1_0000_0000
    ensures Pow256(8) == 0x1_0000_0000_0000_0000
  {
    assert Pow256(4) == 256 * Pow256(3) && Pow256(8) == 256 * Pow256(7) && Pow256(6) == 256 * Pow256(5);
  }

  /** The bytes of the directive, read back, are its numbers, its strings or its zeros. */
  lemma TokensRead(word: string, elems: seq<Token>, i: nat, w: nat, out: Outcome)
    requires 1 <= w
    requires i + w <= |Contents(word, elems)| ==> out == Loaded(LittleEndian(Contents(word, elems)[i..i + w]))
    ensures ReadsTokens(word, elems, i, w, out)
  {
    Widths();
    hide Bytes, LittleEndian, Contents, Pow256, ReadsNumber, ReadsString, ZeroCount;
    if word in ["dword", "udword", "double"] && w == 8 {
      NumbersRead(word, elems, i, w, out, 0x1_0000_0000_0000_0000);
    } else if word in ["word", "float"] && w == 4 {
      NumbersRead(word, elems, i, w, out, 0x1_0000_0000);
    } else if word == "halfword" && w == 2 {
      NumbersRead(word, elems, i, w, out, 0x1_0000);
    } else if word == "byte" && w == 1 {
      NumbersRead(word, elems, i, w, out, 0x100);
    } else if word == "string" && w == 1 {
      StringsRead(elems, i, out);
    } else if word == "zero" && w == 1 && i < ZeroCount(elems) {
      AllZeros(elems);
      assert Contents("zero", elems)[i..i + 1] == [0];
      SingleByte(0);
    }
  }
}
