/**
 The whole path: parse the data section, assemble the text section, generate the words, load both, fetch
 a word back and take the transfer in it.
 */
module ProgramEndToEnd {
  import opened Limbs
  import opened SymbolTable
  import opened BlockMemory
  import opened MainMemory
  import opened CodeGenerator
  import opened TextLayout
  import opened TextParser
  import opened TextAssembler
  import opened VirtualMachine
  import opened DataEndToEnd
  import DataLayout
  import DataGrammar
  import DataParser

  // ------------------------------------------------------------ words as numbers

  function Number(v: bv32): u32 {
    WordIsNumber(v);
    Unsigned(v)
  }

  function Numbers(words: seq<bv32>): (text: seq<u32>)
    ensures |text| == |words|
  {
    seq(|words|, i requires 0 <= i < |words| => Number(words[i]))
  }

  // ------------------------------------------------------------ the parsed symbols are data symbols

  lemma SectionDataOnly(ts: seq<DataParser.Token>)
    ensures DataOnly(DataParser.Scan(ts, 0, DataParser.NODATA).1.symbols)
  {
    hide DataParser.Scan;
    DataGrammar.ScanFromLabels(ts, 0, DataParser.NODATA);
    var symbols := DataParser.Scan(ts, 0, DataParser.NODATA).1.symbols;
    forall l | l in symbols ensures symbols[l].isData { assert DataGrammar.FromLabel(ts, l, symbols[l]); }
  }

  // ------------------------------------------------------------ what a fetched transfer does

  /** Line i is a transfer; taken from the word that was generated for it, it arrives as its symbol allows. */
  lemma TakenFromWord(data: Symbols, mul: bool, lines: seq<Line>, i: nat, base: u64)
    requires WellTyped(lines) && RegistersIn(lines) && DataOnly(data) && AllOk(data, mul, lines)
    requires i < |lines| && lines[i].Labelled?
    ensures lines[i].target in Table(data, lines, |lines|)
    ensures var s := Table(data, lines, |lines|)[lines[i].target];
            Landing(Index(lines, i), Encode(Final(data, lines, i).unit)) == Home(s, base)
            <==> (s.isData ==> (base + s.Word() % 2) % B == 0)
  {
    hide Parsed, Table, Index, AllOk, Landing, Encode, Final, LineOk;
    ErrorFree(data, mul, lines);
    TransferArrives(data, mul, lines, i, base);
    LineFinal(data, mul, lines, i);
  }

  lemma FetchedText(m: Flat, text: seq<u32>, base: u64, data: seq<DataLayout.Element>, size: u64, k: nat)
    requires k < |text| && 4 * |text| <= base && Fits(text, data, base, size)
    ensures FlatLoad(size, DataLayout.DataImage(DataLayout.TextImage(m, text), base, data), 4 * k, 4)
            == Loaded(text[k])
  {
    hide DataLayout.DataImage, DataLayout.TextImage, LittleEndian, PeekAll;
    DataLayout.InstructionLoaded(m, text, base, data, k);
  }

  /** Load words and data and fetch the word of instruction k. */
  method LoadAndFetch(words: seq<bv32>, buffer: seq<DataLayout.Element>, base: u64, size: u64, blockSize: int, k: nat)
    returns (fetched: bv32)
    requires blockSize > 0
    ensures k < |words| && 4 * |words| <= base && Fits(Numbers(words), buffer, base, size) ==> fetched == words[k]
  {
    hide Unsigned, Bits, DataLayout.DataImage, DataLayout.TextImage, DataLayout.End, FlatLoad, Memory.Valid;
    var memory, ok := Boot(Numbers(words), buffer, base, size, blockSize);
    var out := memory.LoadSized(Pc(k), 4);
    fetched := 0;
    if out.Loaded? {
      fetched := Bits(out.value);
    }
    if k < |words| && 4 * |words| <= base && Fits(Numbers(words), buffer, base, size) {
      FetchedText(map[], Numbers(words), base, buffer, size, k);
      assert Pc(k) == 4 * k;
      WordIsNumber(words[k]);
    }
  }

  /** Instruction k is generated for line i. */
  predicate GeneratedFor(lines: seq<Line>, i: nat, k: nat) {
    i < |lines| && !lines[i].Label? && Index(lines, i) == k
  }

  predicate HasRoom(lines: seq<Line>, buffer: seq<DataLayout.Element>, base: u64, size: u64) {
    var text := 4 * Index(lines, |lines|);
    && text < W32 && text <= size && text <= base && DataLayout.End(buffer) < W32
    && (DataLayout.End(buffer) == 0 || base + DataLayout.End(buffer) <= size)
  }

  /** The transfer arrives at its symbol exactly when it is code, or the start of the data section allows it. */
  predicate ArrivesIff(table: Symbols, target: string, k: nat, word: bv32, base: u64) {
    && target in table
    && (Landing(k, word) == Home(table[target], base)
        <==> (table[target].isData ==> (base + table[target].Word() % 2) % B == 0))
  }

  /** What is fetched for line i is its word, and a transfer in it goes where its label is. */
  ghost predicate LineFetched(data: Symbols, lines: seq<Line>, i: nat, k: nat, fetched: bv32, base: u64)
    requires GeneratedFor(lines, i, k)
  {
    && IsWordOf(fetched, data, lines, i)
    && (forall j: nat :: LabelOf(lines, i, j) ==> Landing(k, fetched) == Pc(Index(lines, j)))
    && (lines[i].Labelled? ==> ArrivesIff(Table(data, lines, |lines|), lines[i].target, k, fetched, base))
  }

  lemma SameWord(word: bv32, data: Symbols, mul: bool, lines: seq<Line>, i: nat)
    requires i < |lines| && !lines[i].Label? && LineOk(data, mul, lines, i) && IsWordOf(word, data, lines, i)
    ensures word == Encode(Final(data, lines, i).unit)
  {
    hide Index, Table, Offset, Encode, Int32, InReach, IsMultiplyDivide;
    FinalWord(data, mul, lines, i);
  }

  lemma RoomIsEnough(lines: seq<Line>, words: seq<bv32>, buffer: seq<DataLayout.Element>, base: u64, size: u64)
    requires |words| == Index(lines, |lines|)
    ensures HasRoom(lines, buffer, base, size) ==>
              Fits(Numbers(words), buffer, base, size) && 4 * |words| <= base
  {
    hide Index, DataLayout.End;
  }

  /**
   Main result: a program whose sections have no errors and which fits the memory, with its text below
   its data. The word fetched for a line that is no label is the one that was generated for it, every
   transfer to a code label goes from there to the instruction at the label, and a transfer to a data
   label arrives exactly when the start of the data section allows it.
   */
  method BuildAndFetch(tokens: seq<DataParser.Token>, mul: bool, lines: seq<Line>,
                       base: u64, size: u64, blockSize: int, k: nat)
    returns (ok: bool, fetched: bv32)
    requires WellTyped(lines) && RegistersIn(lines) && blockSize > 0
    ensures var d := DataParser.Scan(tokens, 0, DataParser.NODATA).1;
            ok <==> d.errors == 0 && AllAcceptable(d.symbols, mul, lines)
    ensures var d := DataParser.Scan(tokens, 0, DataParser.NODATA).1;
            ok && HasRoom(lines, d.buffer, base, size) ==>
              forall i: nat :: GeneratedFor(lines, i, k) ==> LineFetched(d.symbols, lines, i, k, fetched, base)
  {
    hide DataParser.Scan, LineOk, AllAcceptable, IsWordOf, Index, Table, Final, Encode, Landing, Fits, DataLayout.End;
    var parser := new DataParser.Parser(tokens);
    parser.ParseDataDirective();
    ghost var d := DataParser.Scan(tokens, 0, DataParser.NODATA).1;
    ok, fetched := false, 0;
    AcceptedExactly(d.symbols, mul, lines);
    if parser.errorCount == 0 {
      var words;
      ok, words := Assemble(parser.symbolTable, mul, lines);
      if ok {
        fetched := LoadAndFetch(words, parser.dataBuffer, base, size, blockSize, k);
        RoomIsEnough(lines, words, d.buffer, base, size);
        SectionDataOnly(tokens);
        if HasRoom(lines, d.buffer, base, size) {
          forall i: nat | GeneratedFor(lines, i, k) ensures LineFetched(d.symbols, lines, i, k, fetched, base) {
            assert LineOk(d.symbols, mul, lines, i);
            if lines[i].Labelled? {
              TakenFromWord(d.symbols, mul, lines, i, base);
              SameWord(fetched, d.symbols, mul, lines, i);
            }
          }
        }
      }
    }
  }
}
