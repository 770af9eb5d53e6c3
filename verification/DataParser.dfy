/**
 The data section of the assembler: layout of the elements, addresses of the labels. The loader
 computes the layout again on its own; the two agree on every label with at least one element.
 */
module DataParser {
  import opened Limbs
  import opened BlockMemory
  import opened DataLayout
  import opened SymbolTable

  datatype TokenType = LABEL | DIRECTIVE | NUM | FLOAT | STRING | COMMA | END | OTHER

  /** num is the integer or the bit pattern a literal denotes, text the unescaped string. */
  datatype Token = Token(kind: TokenType, value: string, num: int, text: seq<byte>, line: nat)

  const EOFTOKEN := Token(END, "", 0, [], 1)

  datatype Directive = DWord | Word | HalfWord | Byte | Float | Double | Text | Zero | UDWord | NoDirective {
    function Alignment(): (a: int)
      ensures a == 1 || a == 2 || a == 4 || a == 8
    {
      match this
      case DWord => 8
      case Word => 4
      case HalfWord => 2
      case Byte => 1
      case Float => 4
      case Double => 8
      case Text => 1
      case Zero => 1
      case UDWord => 8
      case NoDirective => 1
    }

    /** Does the directive take this token as an element? */
    predicate Takes(t: Token) {
      match this
      case Float => t.kind == FLOAT
      case Double => t.kind == FLOAT
      case Text => t.kind == STRING
      case NoDirective => false
      case _ => t.kind == NUM
    }
  }

  function Keyword(v: string): Directive {
    if v == "dword" then DWord
    else if v == "word" then Word
    else if v == "halfword" then HalfWord
    else if v == "byte" then Byte
    else if v == "float" then Float
    else if v == "double" then Double
    else if v == "zero" then Zero
    else if v == "string" then Text
    else if v == "udword" then UDWord
    else NoDirective
  }

  predicate StopsSection(t: Token) {
    t.value == "text" || t.value == "data" || t.value == "bss" || t.value == "section" || t.kind == END
  }

  /** Parser state of the data section; marks tells which element each label stands in front of. */
  datatype Data = Data(index: nat, buffer: seq<Element>, symbols: Symbols, errors: nat,
                       marks: map<string, nat>)

  const NODATA := Data(0, [], map[], 0, map[])

  function TokenAt(tokens: seq<Token>, p: nat): Token {
    if p < |tokens| then tokens[p] else EOFTOKEN
  }

  function Aligned(d: Data, a: int): Data
    requires a > 0
  {
    d.(index := AlignUp(d.index, a))
  }

  /** Align, append, advance. */
  function Push(d: Data, e: Element): Data {
    d.(index := AlignUp(d.index, e.Alignment()) + e.Size(), buffer := d.buffer + [e])
  }

  function Zeros(n: nat): seq<Element> { seq(n, _ => U8(0)) }

  function ElementOf(dir: Directive, t: Token): Element
    requires dir != NoDirective && dir != Zero
  {
    match dir
    case DWord => U64(t.num % B)
    case UDWord => U64(t.num % B)
    case Word => U32(t.num % W32)
    case HalfWord => U16(t.num % 0x1_0000)
    case Byte => U8(t.num % 256)
    case Float => F32(t.num % W32)
    case Double => F64(t.num % B)
    case Text => Chars(t.text + [0])
  }

  /** One element token; a zero directive gives as many zero bytes as it says, and an error for none. */
  function Take(dir: Directive, t: Token, d: Data): Data
    requires dir != NoDirective
  {
    if dir == Zero then
      if t.num % B > 0 then d.(index := d.index + t.num % B, buffer := d.buffer + Zeros(t.num % B))
      else d.(errors := d.errors + 2)
    else Push(d, ElementOf(dir, t))
  }

  /** The tokens of a directive up to the first that is neither a comma nor an element. */
  function Items(tokens: seq<Token>, p: nat, dir: Directive, d: Data): (r: (nat, Data))
    requires dir != NoDirective
    ensures r.0 >= p
    decreases |tokens| - p
  {
    if p >= |tokens| then (p, d)
    else if dir.Takes(tokens[p]) then Items(tokens, p + 1, dir, Take(dir, tokens[p], d))
    else if tokens[p].kind == COMMA then Items(tokens, p + 1, dir, d)
    else (p, d)
  }

  /** A label takes the offset its directive's alignment gives; without a directive that is an error. */
  function Label(t: Token, dir: Directive, d: Data): Data {
    var d1 := if dir == NoDirective then d.(errors := d.errors + 2) else Aligned(d, dir.Alignment());
    d1.(symbols := d1.symbols[t.value := Symbol(d1.index, t.line, true)],
        marks := d1.marks[t.value := |d1.buffer|])
  }

  /** The section from token p on. */
  function Scan(tokens: seq<Token>, p: nat, d: Data): (nat, Data)
    decreases |tokens| - p
  {
    if p >= |tokens| || StopsSection(tokens[p]) then (p, d)
    else
      var t := tokens[p];
      if t.kind == LABEL then
        Scan(tokens, p + 1, Label(t, Keyword(TokenAt(tokens, p + 1).value), d))
      else if Keyword(t.value) == NoDirective then
        Scan(tokens, p + 1, d.(errors := d.errors + 2))
      else
        var (q, d') := Items(tokens, p + 1, Keyword(t.value), d);
        Scan(tokens, q, d')
  }

  // ------------------------------------------------------------ agreement with the loader

  /** The first token of a directive that is not a comma is an element. */
  predicate HasElement(tokens: seq<Token>, p: nat, dir: Directive)
    decreases |tokens| - p
  {
    p < |tokens| && (dir.Takes(tokens[p]) || (tokens[p].kind == COMMA && HasElement(tokens, p + 1, dir)))
  }

  /** Every label stands in front of a directive with at least one element. */
  predicate LabelsHaveElements(tokens: seq<Token>) {
    forall p :: 0 <= p < |tokens| && tokens[p].kind == LABEL ==> LabelHasElement(tokens, p)
  }

  predicate LabelHasElement(tokens: seq<Token>, p: nat)
    requires p < |tokens|
  {
    && p + 1 < |tokens| && tokens[p + 1].kind != LABEL && !StopsSection(tokens[p + 1])
    && Keyword(tokens[p + 1].value) != NoDirective
    && HasElement(tokens, p + 2, Keyword(tokens[p + 1].value))
  }

  /** Each label's address is the loader's offset of the element it marks. */
  predicate LabelsAgree(d: Data) {
    && d.marks.Keys <= d.symbols.Keys
    && forall l :: l in d.marks ==> LabelAgrees(d, l)
  }

  predicate LabelAgrees(d: Data, l: string)
    requires l in d.marks && l in d.symbols
  {
    d.marks[l] < |d.buffer| && d.symbols[l].address == Offset(d.buffer, d.marks[l])
  }

  /** The parser's running offset is the loader's. */
  predicate InStep(d: Data) {
    d.index == End(d.buffer) && LabelsAgree(d)
  }

  /** Between a label and its first element: the offset is already aligned, the label's mark is still open. */
  predicate Pending(d: Data, l: string, a: int) {
    && a > 0
    && d.index == AlignUp(End(d.buffer), a)
    && l in d.marks && l in d.symbols && d.marks.Keys <= d.symbols.Keys
    && d.marks[l] == |d.buffer| && d.symbols[l].address == d.index
    && forall k :: k in d.marks && k != l ==> LabelAgrees(d, k)
  }

  lemma AlignTwice(x: nat, a: int)
    requires a > 0
    ensures AlignUp(AlignUp(x, a), a) == AlignUp(x, a)
  {
    hide AlignUp;
    AlignUpIsMultiple(x, a);
    AlignUpIsMultiple(AlignUp(x, a), a);
  }

  lemma OffsetOfPrefix(data: seq<Element>, more: seq<Element>, m: nat)
    requires m < |data|
    ensures Offset(data + more, m) == Offset(data, m)
  {
    assert (data + more)[..m] == data[..m];
  }

  lemma LabelsOfLongerBuffer(d: Data, d': Data, l: string)
    requires l in d.marks && l in d.symbols && LabelAgrees(d, l)
    requires d'.marks == d.marks && d'.symbols == d.symbols
    requires |d.buffer| <= |d'.buffer| && d'.buffer[..|d.buffer|] == d.buffer
    ensures LabelAgrees(d', l)
  {
    assert d'.buffer == d.buffer + d'.buffer[|d.buffer|..];
    OffsetOfPrefix(d.buffer, d'.buffer[|d.buffer|..], d.marks[l]);
  }

  lemma PushInStep(d: Data, e: Element)
    requires InStep(d)
    ensures InStep(Push(d, e))
  {
    var d' := Push(d, e);
    assert d'.buffer[..|d.buffer|] == d.buffer;
    forall l | l in d'.marks ensures LabelAgrees(d', l) {
      LabelsOfLongerBuffer(d, d', l);
    }
  }

  /** The first element of a labelled directive lands on the label's address. */
  lemma PushPending(d: Data, e: Element, l: string, a: int)
    requires Pending(d, l, a) && a == e.Alignment()
    ensures InStep(Push(d, e))
  {
    var d' := Push(d, e);
    AlignTwice(End(d.buffer), a);
    assert d'.buffer[..|d.buffer|] == d.buffer;
    forall k | k in d'.marks ensures LabelAgrees(d', k) {
      if k != l { LabelsOfLongerBuffer(d, d', k); }
    }
  }

  lemma {:induction false} EndOfZeros(data: seq<Element>, n: nat)
    ensures End(data + Zeros(n)) == End(data) + n
  {
    if n == 0 {
      assert data + Zeros(0) == data;
    } else {
      EndOfZeros(data, n - 1);
      assert (data + Zeros(n))[..|data| + n - 1] == data + Zeros(n - 1);
    }
  }

  lemma ZerosInStep(d: Data, n: nat)
    requires InStep(d)
    ensures InStep(d.(index := d.index + n, buffer := d.buffer + Zeros(n)))
  {
    var d' := d.(index := d.index + n, buffer := d.buffer + Zeros(n));
    EndOfZeros(d.buffer, n);
    assert d'.buffer[..|d.buffer|] == d.buffer;
    forall l | l in d'.marks ensures LabelAgrees(d', l) {
      LabelsOfLongerBuffer(d, d', l);
    }
  }

  lemma ZerosPending(d: Data, n: nat, l: string)
    requires Pending(d, l, 1) && n > 0
    ensures InStep(d.(index := d.index + n, buffer := d.buffer + Zeros(n)))
  {
    var d' := d.(index := d.index + n, buffer := d.buffer + Zeros(n));
    EndOfZeros(d.buffer, n);
    assert d'.buffer[..|d.buffer|] == d.buffer;
    forall k | k in d'.marks ensures LabelAgrees(d', k) {
      if k != l { LabelsOfLongerBuffer(d, d', k); }
    }
  }

  lemma TakeInStep(dir: Directive, t: Token, d: Data)
    requires dir != NoDirective && InStep(d) && Take(dir, t, d).errors == d.errors
    ensures InStep(Take(dir, t, d))
  {
    if dir == Zero { ZerosInStep(d, t.num % B); } else { PushInStep(d, ElementOf(dir, t)); }
  }

  lemma TakePending(dir: Directive, t: Token, d: Data, l: string)
    requires dir != NoDirective && Pending(d, l, dir.Alignment()) && Take(dir, t, d).errors == d.errors
    ensures InStep(Take(dir, t, d))
  {
    if dir == Zero { ZerosPending(d, t.num % B, l); } else { PushPending(d, ElementOf(dir, t), l, dir.Alignment()); }
  }

  lemma {:induction false} ItemsErrors(tokens: seq<Token>, p: nat, dir: Directive, d: Data)
    requires dir != NoDirective
    ensures Items(tokens, p, dir, d).1.errors >= d.errors
    decreases |tokens| - p
  {
    if p < |tokens| {
      if dir.Takes(tokens[p]) {
        ItemsErrors(tokens, p + 1, dir, Take(dir, tokens[p], d));
      } else if tokens[p].kind == COMMA {
        ItemsErrors(tokens, p + 1, dir, d);
      }
    }
  }

  lemma {:induction false} ItemsInStep(tokens: seq<Token>, p: nat, dir: Directive, d: Data)
    requires dir != NoDirective && InStep(d) && Items(tokens, p, dir, d).1.errors == d.errors
    ensures InStep(Items(tokens, p, dir, d).1)
    decreases |tokens| - p
  {
    if p < |tokens| {
      if dir.Takes(tokens[p]) {
        var d' := Take(dir, tokens[p], d);
        ItemsErrors(tokens, p + 1, dir, d');
        TakeInStep(dir, tokens[p], d);
        ItemsInStep(tokens, p + 1, dir, d');
      } else if tokens[p].kind == COMMA {
        ItemsInStep(tokens, p + 1, dir, d);
      }
    }
  }

  lemma {:induction false} ItemsPending(tokens: seq<Token>, p: nat, dir: Directive, d: Data, l: string)
    requires dir != NoDirective && Pending(d, l, dir.Alignment()) && HasElement(tokens, p, dir)
    requires Items(tokens, p, dir, d).1.errors == d.errors
    ensures InStep(Items(tokens, p, dir, d).1)
    decreases |tokens| - p
  {
    if dir.Takes(tokens[p]) {
      var d' := Take(dir, tokens[p], d);
      ItemsErrors(tokens, p + 1, dir, d');
      TakePending(dir, tokens[p], d, l);
      ItemsInStep(tokens, p + 1, dir, d');
    } else {
      ItemsPending(tokens, p + 1, dir, d, l);
    }
  }

  lemma {:induction false} ScanErrors(tokens: seq<Token>, p: nat, d: Data)
    ensures Scan(tokens, p, d).1.errors >= d.errors
    decreases |tokens| - p
  {
    if p < |tokens| && !StopsSection(tokens[p]) {
      var t := tokens[p];
      if t.kind == LABEL {
        ScanErrors(tokens, p + 1, Label(t, Keyword(TokenAt(tokens, p + 1).value), d));
      } else if Keyword(t.value) == NoDirective {
        ScanErrors(tokens, p + 1, d.(errors := d.errors + 2));
      } else {
        ItemsErrors(tokens, p + 1, Keyword(t.value), d);
        var (q, d') := Items(tokens, p + 1, Keyword(t.value), d);
        ScanErrors(tokens, q, d');
      }
    }
  }

  lemma LabelPends(t: Token, dir: Directive, d: Data)
    requires InStep(d) && dir != NoDirective
    ensures Pending(Label(t, dir, d), t.value, dir.Alignment())
    ensures Label(t, dir, d).errors == d.errors
  {
    var d' := Label(t, dir, d);
    forall k | k in d'.marks && k != t.value ensures LabelAgrees(d', k) {
      LabelsOfLongerBuffer(d, d.(index := d'.index), k);
      assert LabelAgrees(d, k);
    }
  }

  /**
   An error-free data section in which every label has an element leaves the parser's offsets equal
   to the loader's, and every label at the address of its first element.
   */
  lemma {:induction false} SectionAgrees(tokens: seq<Token>, p: nat, d: Data)
    requires LabelsHaveElements(tokens) && InStep(d) && Scan(tokens, p, d).1.errors == d.errors
    ensures InStep(Scan(tokens, p, d).1)
    decreases |tokens| - p
  {
    if p < |tokens| && !StopsSection(tokens[p]) {
      var t := tokens[p];
      if t.kind == LABEL {
        assert LabelHasElement(tokens, p);
        var dir := Keyword(tokens[p + 1].value);
        var d1 := Label(t, dir, d);
        LabelPends(t, dir, d);
        var (q, d2) := Items(tokens, p + 2, dir, d1);
        assert Scan(tokens, p + 1, d1) == Scan(tokens, q, d2);
        ItemsErrors(tokens, p + 2, dir, d1);
        ScanErrors(tokens, q, d2);
        ItemsPending(tokens, p + 2, dir, d1, t.value);
        SectionAgrees(tokens, q, d2);
      } else if Keyword(t.value) == NoDirective {
        ScanErrors(tokens, p + 1, d.(errors := d.errors + 2));
      } else {
        var (q, d') := Items(tokens, p + 1, Keyword(t.value), d);
        ItemsErrors(tokens, p + 1, Keyword(t.value), d);
        ScanErrors(tokens, q, d');
        ItemsInStep(tokens, p + 1, Keyword(t.value), d);
        SectionAgrees(tokens, q, d');
      }
    }
  }

  lemma SectionVerdict(tokens: seq<Token>, p: nat, d: Data)
    ensures LabelsHaveElements(tokens) && InStep(d) && Scan(tokens, p, d).1.errors == d.errors
            ==> InStep(Scan(tokens, p, d).1)
  {
    if LabelsHaveElements(tokens) && InStep(d) && Scan(tokens, p, d).1.errors == d.errors {
      SectionAgrees(tokens, p, d);
    }
  }

  // ------------------------------------------------------------ the parser object

  class Parser {
    const tokens: seq<Token>
    var pos: nat
    var dataIndex: nat
    var dataBuffer: seq<Element>
    var symbolTable: Symbols
    var errorCount: nat
    ghost var marks: map<string, nat>

    constructor (tokens: seq<Token>)
      ensures this.tokens == tokens && pos == 0 && Now() == NODATA
    {
      this.tokens := tokens;
      pos, dataIndex, dataBuffer, symbolTable, errorCount, marks := 0, 0, [], map[], 0, map[];
    }

    ghost function Now(): Data
      reads this
    {
      Data(dataIndex, dataBuffer, symbolTable, errorCount, marks)
    }

    function CurrentToken(): (t: Token)
      reads this
      ensures t == TokenAt(tokens, pos)
    {
      if pos < |tokens| then tokens[pos] else EOFTOKEN
    }

    method NextToken()
      modifies this`pos
      ensures pos == if old(pos) < |tokens| then old(pos) + 1 else old(pos)
    {
      if pos < |tokens| { pos := pos + 1; }
    }

    method Align(a: int)
      requires a > 0
      modifies this`dataIndex
      ensures dataIndex == AlignUp(old(dataIndex), a)
    {
      if dataIndex % a != 0 {
        dataIndex := dataIndex + (a - dataIndex % a);
      }
    }

    method RecordError()
      modifies this`errorCount
      ensures errorCount == old(errorCount) + 2
    {
      errorCount := errorCount + 1;
      errorCount := errorCount + 1;
    }

    method TakeElement(dir: Directive, t: Token)
      requires dir != NoDirective
      modifies this`dataIndex, this`dataBuffer, this`errorCount
      ensures Now() == Take(dir, t, old(Now()))
    {
      if dir == Zero {
        var num := t.num % B;
        if num > 0 {
          Align(1);
          for i := 0 to num
            invariant dataIndex == old(dataIndex) + i && dataBuffer == old(dataBuffer) + Zeros(i)
            invariant errorCount == old(errorCount)
          {
            dataBuffer := dataBuffer + [U8(0)];
            dataIndex := dataIndex + 1;
          }
        } else {
          RecordError();
        }
      } else {
        var e := ElementOf(dir, t);
        Align(e.Alignment());
        dataBuffer := dataBuffer + [e];
        dataIndex := dataIndex + e.Size();
      }
    }

    method ParseItems(dir: Directive)
      requires dir != NoDirective
      modifies this`pos, this`dataIndex, this`dataBuffer, this`errorCount
      ensures (pos, Now()) == Items(tokens, old(pos), dir, old(Now()))
    {
      while CurrentToken().kind != END && (dir.Takes(CurrentToken()) || CurrentToken().kind == COMMA)
        invariant Items(tokens, pos, dir, Now()) == Items(tokens, old(pos), dir, old(Now()))
        decreases |tokens| - pos
      {
        if dir.Takes(CurrentToken()) {
          TakeElement(dir, CurrentToken());
        }
        NextToken();
      }
    }

    /** Bind a label to the offset its directive's alignment gives. */
    method PlaceLabel(t: Token, dir: Directive)
      modifies `dataIndex, `errorCount, `symbolTable, `marks
      ensures Now() == Label(t, dir, old(Now()))
    {
      if dir != NoDirective {
        Align(dir.Alignment());
      } else {
        RecordError();
      }
      marks := marks[t.value := |dataBuffer|];
      symbolTable := symbolTable[t.value := Symbol(dataIndex, t.line, true)];
    }

    /** One data section: elements laid out, labels bound to offsets. */
    method ParseDataDirective()
      modifies this
      ensures (pos, Now()) == Scan(tokens, old(pos), old(Now()))
      ensures LabelsHaveElements(tokens) && InStep(old(Now())) && errorCount == old(errorCount) ==> InStep(Now())
    {
      hide InStep, LabelsHaveElements, Keyword, Label;
      ghost var p0, d0 := pos, Now();
      while !StopsSection(CurrentToken())
        invariant Scan(tokens, pos, Now()) == Scan(tokens, p0, d0)
        decreases |tokens| - pos
      {
        var t := CurrentToken();
        if t.kind == LABEL {
          PlaceLabel(t, Keyword(TokenAt(tokens, pos + 1).value));
          NextToken();
        } else if Keyword(t.value) != NoDirective {
          NextToken();
          ParseItems(Keyword(t.value));
        } else {
          RecordError();
          NextToken();
        }
      }
      SectionVerdict(tokens, p0, d0);
    }
  }
}
