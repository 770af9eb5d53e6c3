/** From the data section's text to the loaded memory: a data label addresses its first element. */
module DataEndToEnd {
  import opened Limbs
  import opened BlockMemory
  import opened MainMemory
  import opened DataLayout
  import opened DataParser
  import opened DataValues
  import opened SymbolTable
  import opened VirtualMachine

  // ------------------------------------------------------------ elements hold what their width can

  predicate Bounded(e: Element) { !e.Chars? ==> e.v < Pow256(e.Size()) }
  predicate AllBounded(buffer: seq<Element>) { forall k :: 0 <= k < |buffer| ==> Bounded(buffer[k]) }

  /** The parser's conversions reduce every number to the width of its directive. */
  lemma ElementBounded(dir: Directive, t: Token)
    requires dir != NoDirective && dir != Zero
    ensures Bounded(ElementOf(dir, t))
  {
    Widths();
    hide Pow256;
  }

  lemma TakeBounded(dir: Directive, t: Token, d: Data)
    requires dir != NoDirective && AllBounded(d.buffer)
    ensures AllBounded(Take(dir, t, d).buffer)
  {
    Widths();
    hide Pow256;
    if dir != Zero {
      ElementBounded(dir, t);
      hide ElementOf;
    }
  }

  lemma {:induction false} ItemsBounded(ts: seq<Token>, p: nat, dir: Directive, d: Data)
    requires dir != NoDirective && AllBounded(d.buffer)
    ensures AllBounded(Items(ts, p, dir, d).1.buffer)
    decreases |ts| - p
  {
    hide Take, AllBounded;
    if p < |ts| {
      if dir.Takes(ts[p]) {
        TakeBounded(dir, ts[p], d);
        ItemsBounded(ts, p + 1, dir, Take(dir, ts[p], d));
      } else if ts[p].kind == COMMA {
        ItemsBounded(ts, p + 1, dir, d);
      }
    }
  }

  lemma {:induction false} ScanBounded(ts: seq<Token>, p: nat, d: Data)
    requires AllBounded(d.buffer)
    ensures AllBounded(Scan(ts, p, d).1.buffer)
    decreases |ts| - p
  {
    hide Items, AllBounded, Keyword, StopsSection;
    if p < |ts| && !StopsSection(ts[p]) {
      var t := ts[p];
      if t.kind == LABEL {
        ScanBounded(ts, p + 1, Label(t, Keyword(TokenAt(ts, p + 1).value), d));
      } else if Keyword(t.value) == NoDirective {
        ScanBounded(ts, p + 1, d.(errors := d.errors + 2));
      } else {
        var (q, d') := Items(ts, p + 1, Keyword(t.value), d);
        ItemsBounded(ts, p + 1, Keyword(t.value), d);
        ScanBounded(ts, q, d');
      }
    }
  }

  // ------------------------------------------------------------ loads at a label

  /** The element a label of a parsed section stands in front of. */
  function Labelled(d: Data, l: string): Element
    requires InStep(d) && l in d.marks
  {
    assert LabelAgrees(d, l);
    d.buffer[d.marks[l]]
  }

  /** In the loaded memory the bytes at a label's address are the image of the label's element. */
  lemma LabelImage(m: Flat, base: nat, d: Data, l: string)
    requires InStep(d) && l in d.marks
    ensures PeekAll(DataImage(m, base, d.buffer), base + d.symbols[l].address, Labelled(d, l).Size())
            == Labelled(d, l).Image()
  {
    hide DataImage, Poke, Peek, PeekAll, End, AlignUp, Bytes;
    assert LabelAgrees(d, l);
    ElementLoaded(m, base, d.buffer, d.marks[l]);
  }

  lemma LabelInside(d: Data, l: string)
    requires InStep(d) && l in d.marks
    ensures l in d.symbols
    ensures 0 <= d.symbols[l].address && d.symbols[l].address + Labelled(d, l).Size() <= End(d.buffer)
  {
    hide AlignUp;
    assert LabelAgrees(d, l);
    var k := d.marks[l];
    EndGrows(d.buffer, k + 1);
    assert d.buffer[..k + 1][..k] == d.buffer[..k];
  }

  lemma PieceOfPeek(m: Flat, a: int, n: nat, i: nat, w: nat)
    requires i + w <= n
    ensures PeekAll(m, a + i, w) == PeekAll(m, a, n)[i..i + w]
  {
  }

  /** A load of w bytes, i bytes behind a label, returns those bytes of the label's element. */
  lemma LabelLoad(m: Flat, base: nat, d: Data, l: string, size: u64, i: nat, w: nat)
    requires InStep(d) && l in d.marks && (End(d.buffer) == 0 || base + End(d.buffer) <= size)
    requires w >= 1 && i + w <= Labelled(d, l).Size()
    ensures 0 <= base + d.symbols[l].address + i < B
    ensures FlatLoad(size, DataImage(m, base, d.buffer), base + d.symbols[l].address + i, w)
            == Loaded(LittleEndian(Labelled(d, l).Image()[i..i + w]))
  {
    hide DataImage, PeekAll, InStep, LittleEndian, Bytes, End;
    LabelImage(m, base, d, l);
    LabelInside(d, l);
    PieceOfPeek(DataImage(m, base, d.buffer), base + d.symbols[l].address, Labelled(d, l).Size(), i, w);
  }

  /** All bytes of a number are the number, and a byte of a string is the byte. */
  lemma PieceMeans(e: Element, i: nat, w: nat)
    requires Bounded(e) && i + w <= e.Size()
    ensures !e.Chars? && i == 0 && w == e.Size() ==> LittleEndian(e.Image()[i..i + w]) == e.v
    ensures e.Chars? && w == 1 ==> LittleEndian(e.Image()[i..i + w]) == e.text[i]
  {
    if e.Chars? {
      if w == 1 {
        assert e.text[i..i + 1] == [e.text[i]];
        assert LittleEndian([e.text[i]]) == e.text[i] + 256 * LittleEndian([]);
      }
    } else if w == e.Size() {
      BytesRoundTrip(e.v, w);
      assert e.Image()[..w] == e.Image();
    }
  }

  /** The section is in step and bounded, the program fits, and bytes i to i+w-1 of what l marks exist. */
  predicate Readable(d: Data, text: seq<u32>, base: u64, size: u64, l: string, i: nat, w: nat) {
    && InStep(d) && AllBounded(d.buffer) && Fits(text, d.buffer, base, size) && l in d.marks
    && i + w <= Labelled(d, l).Size()
  }

  /** What a load of those bytes returns: the number, if it is all of it, or the byte of the string. */
  predicate Reads(e: Element, i: nat, w: nat, out: Outcome)
    requires i + w <= e.Size()
  {
    && out == Loaded(LittleEndian(e.Image()[i..i + w]))
    && (!e.Chars? && i == 0 && w == e.Size() ==> out == Loaded(e.v))
    && (e.Chars? && w == 1 ==> out == Loaded(e.text[i]))
  }

  lemma BoundedLabel(d: Data, l: string)
    requires InStep(d) && AllBounded(d.buffer) && l in d.marks
    ensures l in d.symbols && Bounded(Labelled(d, l))
  {
    assert LabelAgrees(d, l);
  }

  lemma ReadableIfLoad(d: Data, text: seq<u32>, base: u64, size: u64, l: string, i: nat, w: nat)
    requires w >= 1
    ensures Readable(d, text, base, size, l, i, w) ==>
              && l in d.symbols && Fits(text, d.buffer, base, size) && 0 <= base + d.symbols[l].address + i < B
              && var image := DataImage(TextImage(map[], text), base, d.buffer);
                 Reads(Labelled(d, l), i, w, FlatLoad(size, image, base + d.symbols[l].address + i, w))
  {
    hide DataImage, TextImage, FlatLoad, LittleEndian, InStep, Pow256, AlignUp, End, Labelled, Element.Size;
    if Readable(d, text, base, size, l, i, w) {
      BoundedLabel(d, l);
      LabelLoad(TextImage(map[], text), base, d, l, size, i, w);
      PieceMeans(Labelled(d, l), i, w);
    }
  }

  /** A machine with an empty memory and a program loaded into it. */
  method Boot(text: seq<u32>, buffer: seq<Element>, base: u64, size: u64, blockSize: int)
    returns (memory: Memory, ok: bool)
    requires blockSize > 0
    ensures memory.Valid() && memory.memorySize == size
    ensures Fits(text, buffer, base, size) ==>
              ok && memory.contents == DataImage(TextImage(map[], text), base, buffer)
  {
    hide Memory.Valid, Fits, DataImage, TextImage, LoadedText, LoadedData, Added, Target;
    memory := new Memory(blockSize, size);
    var vm := new VmBase(memory);
    ok := vm.LoadProgram(text, buffer, base, map[]);
  }

  /** Load a parsed section behind some program text and load w bytes, i bytes behind a label. */
  method LoadRead(buffer: seq<Element>, symbols: Symbols, text: seq<u32>, base: u64, size: u64, blockSize: int,
                  l: string, i: nat, w: nat)
    returns (out: Outcome)
    requires blockSize > 0 && 1 <= w <= 8
    ensures Fits(text, buffer, base, size) && l in symbols && 0 <= base + symbols[l].address + i < B ==>
              out == FlatLoad(size, DataImage(TextImage(map[], text), base, buffer), base + symbols[l].address + i, w)
  {
    hide Fits, DataImage, TextImage, FlatLoad, Memory.Valid;
    var memory, ok := Boot(text, buffer, base, size, blockSize);
    out := Fault;
    if ok && l in symbols {
      out := memory.LoadSized((base + symbols[l].address + i) % B, w);
    }
  }

  /** The section is in step, the program fits, and token p is the only definition of l. */
  predicate Found(ts: seq<Token>, p: nat, text: seq<u32>, base: u64, size: u64, l: string) {
    var d := Scan(ts, 0, NODATA).1;
    InStep(d) && Fits(text, d.buffer, base, size) && l in d.symbols && Defines(ts, p, l)
  }

  /** The load returns what stands there in the tokens of the directive behind the label at token p. */
  predicate ReadsBehind(ts: seq<Token>, p: nat, i: nat, w: nat, out: Outcome) {
    p + 1 < |ts| && ReadsTokens(ts[p + 1].value, ElementsAt(ts, p), i, w, out)
  }

  lemma FoundIfLoad(ts: seq<Token>, p: nat, text: seq<u32>, base: u64, size: u64, l: string, i: nat, w: nat,
                    out: Outcome)
    requires Found(ts, p, text, base, size, l) && w >= 1
    requires var d := Scan(ts, 0, NODATA).1;
             var image := DataImage(TextImage(map[], text), base, d.buffer);
             0 <= base + d.symbols[l].address + i < B ==>
               out == FlatLoad(size, image, base + d.symbols[l].address + i, w)
    ensures ReadsBehind(ts, p, i, w, out)
  {
    hide Scan, DataImage, TextImage, FlatLoad, LittleEndian, InStep, Contents, ReadsTokens, End, ElementsAt;
    var word, elems := ts[p + 1].value, ElementsAt(ts, p);
    if i + w <= |Contents(word, elems)| {
      DirectiveLoad(ts, p, l, TextImage(map[], text), base, size, i, w);
    }
    TokensRead(word, elems, i, w, out);
  }

  /**
   Main result: parse a data section, load it behind some program text, and load w bytes, i bytes
   behind one of its labels. If the section has no errors and its labels all have elements, this gives
   the number, character or zero that stands there in the tokens of the label's directive, and in any
   case those bytes of the element the label marks.
   */
  method ParseLoadRead(tokens: seq<Token>, text: seq<u32>, base: u64, size: u64, blockSize: int,
                       l: string, i: nat, w: nat)
    returns (out: Outcome)
    requires blockSize > 0 && 1 <= w <= 8
    ensures var d := Scan(tokens, 0, NODATA).1;
            d.errors == 0 && LabelsHaveElements(tokens) && Fits(text, d.buffer, base, size) && l in d.symbols ==>
              forall p: nat :: Defines(tokens, p, l) ==> ReadsBehind(tokens, p, i, w, out)
    ensures var d := Scan(tokens, 0, NODATA).1;
            d.errors == 0 && LabelsHaveElements(tokens) ==>
              && InStep(d)
              && (Fits(text, d.buffer, base, size) && l in d.marks && i + w <= Labelled(d, l).Size() ==>
                    Reads(Labelled(d, l), i, w, out))
  {
    hide Reads, Labelled, Fits, AllBounded, InStep, LabelsHaveElements, ReadsBehind, DataImage, TextImage;
    hide FlatLoad, Scan, Defines;
    var parser := new Parser(tokens);
    parser.ParseDataDirective();
    ghost var d := Scan(tokens, 0, NODATA).1;
    EmptyBounded();
    ScanBounded(tokens, 0, NODATA);
    EmptyInStep();
    out := LoadRead(parser.dataBuffer, parser.symbolTable, text, base, size, blockSize, l, i, w);
    ReadableIfLoad(d, text, base, size, l, i, w);
    if d.errors == 0 && LabelsHaveElements(tokens) && Fits(text, d.buffer, base, size) && l in d.symbols {
      forall p: nat | Defines(tokens, p, l) ensures ReadsBehind(tokens, p, i, w, out) {
        FoundIfLoad(tokens, p, text, base, size, l, i, w, out);
      }
    }
  }

  lemma EmptyBounded()
    ensures AllBounded(NODATA.buffer)
  {
  }

  lemma EmptyInStep()
    ensures InStep(NODATA)
  {
  }
}
