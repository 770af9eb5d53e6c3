/**
 What a labelled directive without elements does to the label right behind it, and inputs that show
 labels misplaced: the parser aligns for the directive, the loader never sees it.
 */
module EmptyDirectives {
  import opened Limbs
  import opened DataLayout
  import opened DataParser
  import opened SectionLabels

  /**
   A labelled directive without elements, anywhere in a section in step so far, and then an element:
   parser and loader stay in step exactly when the label's padding does not reach beyond the element's.
   */
  lemma RunningOffset(d: Data, t: Token, dir: Directive, e: Element)
    requires InStep(d) && dir != NoDirective
    ensures var d', end := Push(Label(t, dir, d), e), End(d.buffer);
            && t.value in d'.marks && t.value in d'.symbols
            && (LabelAgrees(d', t.value) <==> AlignUp(end, dir.Alignment()) == AlignUp(end, e.Alignment()))
            && (d'.index == End(d'.buffer) <==> AlignUp(end, dir.Alignment()) <= AlignUp(end, e.Alignment()))
  {
    hide AlignUp, LabelsAgree;
    AlignPadded(End(d.buffer), dir.Alignment(), e.Alignment());
    assert (d.buffer + [e])[..|d.buffer|] == d.buffer;
  }

  // ------------------------------------------------------------ what later tokens leave alone

  /** The buffer has only grown, and label l stands where it stood. */
  predicate Keeps(d: Data, d': Data, l: string) {
    && |d.buffer| <= |d'.buffer| && d'.buffer[..|d.buffer|] == d.buffer
    && l in d.marks && l in d'.marks && d'.marks[l] == d.marks[l]
    && l in d.symbols && l in d'.symbols && d'.symbols[l] == d.symbols[l]
  }

  lemma KeepsAll(d: Data, d1: Data, d2: Data, l: string)
    requires Keeps(d, d1, l) && Keeps(d1, d2, l)
    ensures Keeps(d, d2, l)
  {
    assert d2.buffer[..|d1.buffer|][..|d.buffer|] == d2.buffer[..|d.buffer|];
  }

  lemma TakeKeeps(dir: Directive, t: Token, d: Data, l: string)
    requires dir != NoDirective && Known(d, l)
    ensures Keeps(d, Take(dir, t, d), l)
  {
  }

  lemma {:induction false} ItemsKeep(ts: seq<Token>, p: nat, dir: Directive, d: Data, l: string)
    requires dir != NoDirective && Known(d, l)
    ensures Keeps(d, Items(ts, p, dir, d).1, l)
    decreases |ts| - p
  {
    hide Take, Directive.Takes;
    if p < |ts| {
      if dir.Takes(ts[p]) {
        var d' := Take(dir, ts[p], d);
        TakeKeeps(dir, ts[p], d, l);
        ItemsKeep(ts, p + 1, dir, d', l);
        KeepsAll(d, d', Items(ts, p + 1, dir, d').1, l);
      } else if ts[p].kind == COMMA {
        ItemsKeep(ts, p + 1, dir, d, l);
      }
    }
  }

  lemma LabelKeeps(t: Token, dir: Directive, d: Data, l: string)
    requires Known(d, l) && t.value != l
    ensures Keeps(d, Label(t, dir, d), l)
  {
  }

  lemma {:induction false} ScanKeeps(ts: seq<Token>, p: nat, d: Data, l: string)
    requires Known(d, l) && NotDefined(ts, p, l)
    ensures Keeps(d, Scan(ts, p, d).1, l)
    decreases |ts| - p
  {
    hide Label, Keyword, StopsSection, Items;
    if p < |ts| && !StopsSection(ts[p]) {
      var t := ts[p];
      if t.kind == LABEL {
        var d' := Label(t, Keyword(TokenAt(ts, p + 1).value), d);
        LabelKeeps(t, Keyword(TokenAt(ts, p + 1).value), d, l);
        ScanKeeps(ts, p + 1, d', l);
        KeepsAll(d, d', Scan(ts, p + 1, d').1, l);
      } else if Keyword(t.value) == NoDirective {
        var d' := d.(errors := d.errors + 2);
        ScanKeeps(ts, p + 1, d', l);
        KeepsAll(d, d', Scan(ts, p + 1, d').1, l);
      } else {
        var (q, d') := Items(ts, p + 1, Keyword(t.value), d);
        ItemsKeep(ts, p + 1, Keyword(t.value), d, l);
        ScanKeeps(ts, q, d', l);
        KeepsAll(d, d', Scan(ts, q, d').1, l);
      }
    }
  }

  /** The first element of a directive has the directive's alignment. */
  lemma {:induction false} FirstElement(ts: seq<Token>, p: nat, dir: Directive, d: Data, l: string)
    requires dir != NoDirective && HasElement(ts, p, dir) && Known(d, l) && Items(ts, p, dir, d).1.errors == d.errors
    ensures var b := Items(ts, p, dir, d).1.buffer;
            |b| > |d.buffer| && b[|d.buffer|].Alignment() == dir.Alignment()
    decreases |ts| - p
  {
    if dir.Takes(ts[p]) {
      var d' := Take(dir, ts[p], d);
      ItemsErrors(ts, p + 1, dir, d');
      TakenAlignment(dir, ts[p], d);
      hide Take;
      TakeKeeps(dir, ts[p], d, l);
      ItemsKeep(ts, p + 1, dir, d', l);
    } else {
      FirstElement(ts, p + 1, dir, d, l);
    }
  }

  lemma TakenAlignment(dir: Directive, t: Token, d: Data)
    requires dir != NoDirective && Take(dir, t, d).errors == d.errors
    ensures var b := Take(dir, t, d).buffer;
            |b| > |d.buffer| && b[|d.buffer|].Alignment() == dir.Alignment()
  {
  }

  // ------------------------------------------------------------ the label after an empty directive

  lemma ScanLabel(ts: seq<Token>, p: nat, d: Data)
    requires p < |ts| && ts[p].kind == LABEL && !StopsSection(ts[p])
    ensures Scan(ts, p, d) == Scan(ts, p + 1, Label(ts[p], Keyword(TokenAt(ts, p + 1).value), d))
  {
    hide StopsSection, Label, Keyword, TokenAt;
  }

  lemma ScanDirective(ts: seq<Token>, p: nat, d: Data)
    requires p < |ts| && ts[p].kind != LABEL && !StopsSection(ts[p]) && Keyword(ts[p].value) != NoDirective
    ensures var r := Items(ts, p + 1, Keyword(ts[p].value), d); Scan(ts, p, d) == Scan(ts, r.0, r.1)
  {
    hide StopsSection, Items, Keyword;
  }

  /** At p stands a label with a directive of alignment a and no elements, behind it a label with an element. */
  predicate EmptyAt(ts: seq<Token>, p: nat, a: Directive, b: Directive) {
    && p + 3 < |ts| && a != NoDirective && b != NoDirective
    && (forall q :: p <= q <= p + 3 ==> !StopsSection(ts[q]))
    && ts[p].kind == LABEL && ts[p + 1].kind == DIRECTIVE && Keyword(ts[p + 1].value) == a
    && ts[p + 2].kind == LABEL && ts[p + 3].kind == DIRECTIVE && Keyword(ts[p + 3].value) == b
    && HasElement(ts, p + 4, b)
  }

  lemma NoItems(ts: seq<Token>, p: nat, dir: Directive, d: Data)
    requires p < |ts| && ts[p].kind == LABEL && dir != NoDirective
    ensures Items(ts, p, dir, d) == (p, d)
  {
  }

  lemma ScanPastEmpty(ts: seq<Token>, p: nat, a: Directive, b: Directive, d: Data)
    requires EmptyAt(ts, p, a, b)
    ensures var d2 := Label(ts[p + 2], b, Label(ts[p], a, d));
            var r := Items(ts, p + 4, b, d2);
            Scan(ts, p, d) == Scan(ts, r.0, r.1)
  {
    hide Label, Keyword, StopsSection, Items, Scan, HasElement;
    var d1 := Label(ts[p], a, d);
    ScanLabel(ts, p, d);
    ScanDirective(ts, p + 1, d1);
    NoItems(ts, p + 2, a, d1);
    ScanLabel(ts, p + 2, d1);
    ScanDirective(ts, p + 3, Label(ts[p + 2], b, d1));
  }

  lemma LabelFields(t: Token, dir: Directive, d: Data, reach: Positive)
    requires dir != NoDirective
    ensures var r, e := Label(t, dir, d), Occurrence(t, dir, d, reach);
            && r.buffer == d.buffer && r.errors == d.errors
            && Known(r, t.value) && r.marks[t.value] == e.mark && r.symbols[t.value].address == e.address
            && e.mark == |d.buffer| && e.reach == Larger(reach, dir.Alignment())
  {
  }

  /** In a section in step, the addresses of two labels without an element between them. */
  lemma TwoLabels(t: Token, t2: Token, a: Directive, b: Directive, d: Data)
    requires InStep(d) && a != NoDirective && b != NoDirective
    ensures var d1, end := Label(t, a, d), End(d.buffer);
            && Occurrence(t, a, d, 1).address == AlignUp(end, a.Alignment())
            && Occurrence(t2, b, d1, a.Alignment()).address == AlignUp(end, Larger(a.Alignment(), b.Alignment()))
            && (AlignUp(end, Larger(a.Alignment(), b.Alignment())) == AlignUp(end, b.Alignment())
                <==> AlignUp(end, a.Alignment()) <= AlignUp(end, b.Alignment()))
  {
    hide AlignUp, End, LabelsAgree;
    var d1, end := Label(t, a, d), End(d.buffer);
    AlignByOne(end);
    LabelSteady(t, a, d, [], 1);
    LabelSteady(t2, b, d1, [Occurrence(t, a, d, 1)], a.Alignment());
    var log := [Occurrence(t, a, d, 1)] + [Occurrence(t2, b, d1, a.Alignment())];
    var d2 := Label(t2, b, d1);
    assert AllRight(d2.buffer, log);
    assert Sound(d2, log[0]) && Padded(d2, log[0]) && Sound(d2, log[1]) && Padded(d2, log[1]);
    AlignLarger(end, a.Alignment(), b.Alignment());
    AlignPadded(end, a.Alignment(), b.Alignment());
  }

  /**
   Wherever in a section such a pair of labels stands, with any tokens behind it, the
   label with the element is right exactly when the padding of the empty directive does not reach
   beyond its own; the label of the empty directive exactly when both pad alike.
   */
  lemma EmptyDirective(ts: seq<Token>, p: nat, a: Directive, b: Directive, d: Data)
    requires EmptyAt(ts, p, a, b) && InStep(d)
    requires Scan(ts, p, d).1.errors == d.errors
    requires NotDefined(ts, p + 3, ts[p + 2].value) && NotDefined(ts, p + 1, ts[p].value)
    ensures var r, end := Scan(ts, p, d).1, End(d.buffer);
            && Known(r, ts[p + 2].value) && Known(r, ts[p].value)
            && (LabelAgrees(r, ts[p + 2].value) <==> AlignUp(end, a.Alignment()) <= AlignUp(end, b.Alignment()))
            && (LabelAgrees(r, ts[p].value) <==> AlignUp(end, a.Alignment()) == AlignUp(end, b.Alignment()))
  {
    hide Label, Keyword, StopsSection, Items, Scan, HasElement, AlignUp, LabelsAgree, End;
    var end := End(d.buffer);
    var d1 := Label(ts[p], a, d);
    var d2 := Label(ts[p + 2], b, d1);
    ScanPastEmpty(ts, p, a, b, d);
    LabelFields(ts[p], a, d, 1);
    LabelFields(ts[p + 2], b, d1, a.Alignment());
    TwoLabels(ts[p], ts[p + 2], a, b, d);
    hide Occurrence;
    var (q, d3) := Items(ts, p + 4, b, d2);
    ItemsErrors(ts, p + 4, b, d2);
    ScanErrors(ts, q, d3);
    FirstElement(ts, p + 4, b, d2, ts[p + 2].value);
    LabelKeeps(ts[p + 2], b, d1, ts[p].value);
    LabelToEnd(ts, p, b, d2, ts[p + 2].value);
    LabelToEnd(ts, p, b, d2, ts[p].value);
    OffsetOfFirst(ts, p, b, d2, q, d3, ts[p + 2].value);
  }

  lemma LabelToEnd(ts: seq<Token>, p: nat, b: Directive, d2: Data, l: string)
    requires p + 3 < |ts| && b != NoDirective && Known(d2, l) && NotDefined(ts, p + 3, l)
    ensures var r := Items(ts, p + 4, b, d2);
            Keeps(d2, r.1, l) && Keeps(r.1, Scan(ts, r.0, r.1).1, l) && Keeps(d2, Scan(ts, r.0, r.1).1, l)
  {
    hide Items, Scan;
    var r := Items(ts, p + 4, b, d2);
    ItemsKeep(ts, p + 4, b, d2, l);
    ScanKeeps(ts, r.0, r.1, l);
    KeepsAll(d2, r.1, Scan(ts, r.0, r.1).1, l);
  }

  /** The loader's offset of the first element behind the two labels. */
  lemma OffsetOfFirst(ts: seq<Token>, p: nat, b: Directive, d2: Data, q: nat, d3: Data, l: string)
    requires Known(d3, l) && Keeps(d2, d3, l) && Keeps(d3, Scan(ts, q, d3).1, l)
    requires |d3.buffer| > |d2.buffer| && d3.buffer[|d2.buffer|].Alignment() == b.Alignment()
    ensures var buffer := Scan(ts, q, d3).1.buffer;
            |buffer| > |d2.buffer| && Offset(buffer, |d2.buffer|) == AlignUp(End(d2.buffer), b.Alignment())
  {
    hide Scan, AlignUp, End;
    var buffer, n := Scan(ts, q, d3).1.buffer, |d2.buffer|;
    assert buffer[..|d3.buffer|][n] == d3.buffer[n];
    assert buffer[..|d3.buffer|][..n] == buffer[..n];
  }

  // ------------------------------------------------------------ an input

  /** A byte, a label in front of a directive without elements, and another labelled byte. */
  function Section(word: string): seq<Token> {
    [Token(DIRECTIVE, "byte", 0, [], 1), Token(NUM, "1", 1, [], 1),
     Token(LABEL, "x", 0, [], 2), Token(DIRECTIVE, word, 0, [], 2),
     Token(LABEL, "y", 0, [], 3), Token(DIRECTIVE, "byte", 0, [], 3), Token(NUM, "2", 2, [], 3)]
  }

  lemma FixedTokens()
    ensures Keyword("byte") == Byte
    ensures forall n: nat :: !StopsSection(Token(DIRECTIVE, "byte", 0, [], n))
    ensures forall n: nat :: !StopsSection(Token(LABEL, "x", 0, [], n)) && !StopsSection(Token(LABEL, "y", 0, [], n))
  {
  }

  lemma OneByte(ts: seq<Token>, p: nat, d: Data)
    requires p < |ts| && ts[p].kind == NUM && 0 <= ts[p].num < 256
    requires p + 1 < |ts| ==> ts[p + 1].kind == LABEL
    ensures Items(ts, p, Byte, d) == (p + 1, Push(d, U8(ts[p].num)))
  {
    hide Push;
    assert Take(Byte, ts[p], d) == Push(d, U8(ts[p].num));
    assert Items(ts, p, Byte, d) == Items(ts, p + 1, Byte, Take(Byte, ts[p], d));
  }

  lemma PushFields(d: Data, e: Element)
    ensures var r := Push(d, e);
            r.buffer == d.buffer + [e] && r.errors == d.errors && r.marks == d.marks
  {
  }

  lemma SectionAccepted(word: string)
    requires EmptyAt(Section(word), 2, Keyword(word), Byte)
    ensures Scan(Section(word), 0, NODATA) == Scan(Section(word), 2, Push(NODATA, U8(1)))
    ensures Scan(Section(word), 0, NODATA).1.errors == 0
  {
    hide Keyword, StopsSection, Label, Push, Items;
    FixedTokens();
    var ts, d1 := Section(word), Push(NODATA, U8(1));
    ScanDirective(ts, 0, NODATA);
    OneByte(ts, 1, NODATA);
    ScanPastEmpty(ts, 2, Keyword(word), Byte, d1);
    var d3 := Label(ts[4], Byte, Label(ts[2], Keyword(word), d1));
    OneByte(ts, 6, d3);
    PushFields(NODATA, U8(1));
    LabelFields(ts[2], Keyword(word), d1, 1);
    LabelFields(ts[4], Byte, Label(ts[2], Keyword(word), d1), 1);
    PushFields(d3, U8(2));
  }

  lemma OneByteInStep()
    ensures InStep(Push(NODATA, U8(1))) && End(Push(NODATA, U8(1)).buffer) == 1
  {
    PushInStep(NODATA, U8(1));
    assert Push(NODATA, U8(1)).index == 1;
  }

  /** The section is accepted with any directive word, and label y is misplaced by every one that aligns. */
  lemma EmptyDirectiveMisplaces(word: string)
    requires Keyword(word) != NoDirective && !StopsSection(Token(DIRECTIVE, word, 0, [], 2))
    ensures var r := Scan(Section(word), 0, NODATA).1;
            && r.errors == 0 && Known(r, "y")
            && (LabelAgrees(r, "y") <==> Keyword(word).Alignment() == 1)
  {
    hide Keyword, StopsSection, Scan, Label, Push, AlignUp, InStep, LabelAgrees, End, Items;
    FixedTokens();
    var ts := Section(word);
    assert "x" != "y";
    assert EmptyAt(ts, 2, Keyword(word), Byte);
    SectionAccepted(word);
    OneByteInStep();
    PushFields(NODATA, U8(1));
    EmptyDirective(ts, 2, Keyword(word), Byte, Push(NODATA, U8(1)));
    AlignOne(Keyword(word).Alignment());
    AlignOne(1);
  }

  lemma AlignOne(a: int)
    requires a == 1 || a == 2 || a == 4 || a == 8
    ensures AlignUp(1, a) == a
  {
  }

  /** Three bytes, a label with an empty word directive, a byte, and a labelled word. */
  const SPREAD: seq<Token> :=
    [Token(DIRECTIVE, "byte", 0, [], 1),
     Token(NUM, "1", 1, [], 1), Token(NUM, "1", 1, [], 1), Token(NUM, "1", 1, [], 1),
     Token(LABEL, "x", 0, [], 2), Token(DIRECTIVE, "word", 0, [], 2),
     Token(DIRECTIVE, "byte", 0, [], 3), Token(NUM, "1", 1, [], 3),
     Token(LABEL, "y", 0, [], 4), Token(DIRECTIVE, "word", 0, [], 4), Token(NUM, "2", 2, [], 4)]

  function Bytes3(): Data { Push(Push(Push(NODATA, U8(1)), U8(1)), U8(1)) }
  function AtX(): Data { Label(SPREAD[4], Word, Bytes3()) }
  function AtY(): Data { Label(SPREAD[8], Word, Push(AtX(), U8(1))) }

  lemma Taken(ts: seq<Token>, p: nat, dir: Directive, d: Data)
    requires p < |ts| && dir != NoDirective && dir.Takes(ts[p])
    ensures Items(ts, p, dir, d) == Items(ts, p + 1, dir, Take(dir, ts[p], d))
  {
    hide Take, Directive.Takes;
  }

  lemma NotTaken(ts: seq<Token>, p: nat, dir: Directive, d: Data)
    requires dir != NoDirective && (p < |ts| ==> !dir.Takes(ts[p]) && ts[p].kind != COMMA)
    ensures Items(ts, p, dir, d) == (p, d)
  {
    hide Take, Directive.Takes;
  }

  lemma TakesByte(t: Token, d: Data)
    requires t.kind == NUM && t.num == 1
    ensures Byte.Takes(t) && Take(Byte, t, d) == Push(d, U8(1))
  {
  }

  lemma TakesWord(t: Token, d: Data)
    requires t.kind == NUM && t.num == 2
    ensures Word.Takes(t) && Take(Word, t, d) == Push(d, U32(2))
  {
  }

  lemma SpreadHead()
    ensures Scan(SPREAD, 0, NODATA) == Scan(SPREAD, 5, AtX())
  {
    hide Keyword, StopsSection, Push, Label, Take, Directive.Takes, Items, Scan;
    SpreadTokens();
    ScanDirective(SPREAD, 0, NODATA);
    var d1, d2 := Push(NODATA, U8(1)), Push(Push(NODATA, U8(1)), U8(1));
    TakesByte(SPREAD[1], NODATA);
    TakesByte(SPREAD[2], d1);
    TakesByte(SPREAD[3], d2);
    Taken(SPREAD, 1, Byte, NODATA);
    Taken(SPREAD, 2, Byte, d1);
    Taken(SPREAD, 3, Byte, d2);
    NotTaken(SPREAD, 4, Byte, Bytes3());
    ScanLabel(SPREAD, 4, Bytes3());
  }

  lemma SpreadTail()
    ensures Scan(SPREAD, 5, AtX()) == (11, Push(AtY(), U32(2)))
  {
    hide Keyword, StopsSection, Push, Label, Take, Directive.Takes, Items, Scan;
    SpreadTokens();
    var d5 := Push(AtX(), U8(1));
    ScanDirective(SPREAD, 5, AtX());
    NotTaken(SPREAD, 6, Word, AtX());
    ScanDirective(SPREAD, 6, AtX());
    TakesByte(SPREAD[7], AtX());
    Taken(SPREAD, 7, Byte, AtX());
    NotTaken(SPREAD, 8, Byte, d5);
    ScanLabel(SPREAD, 8, d5);
    ScanDirective(SPREAD, 9, AtY());
    TakesWord(SPREAD[10], AtY());
    Taken(SPREAD, 10, Word, AtY());
    NotTaken(SPREAD, 11, Word, Push(AtY(), U32(2)));
    ScanEnds(SPREAD, 11, Push(AtY(), U32(2)));
  }

  lemma ScanEnds(ts: seq<Token>, p: nat, d: Data)
    requires p >= |ts|
    ensures Scan(ts, p, d) == (p, d)
  {
  }

  lemma SpreadTokens()
    ensures Keyword("byte") == Byte && Keyword("word") == Word
    ensures forall k :: 0 <= k < |SPREAD| ==> !StopsSection(SPREAD[k])
    ensures !Byte.Takes(SPREAD[4]) && !Byte.Takes(SPREAD[8]) && !Word.Takes(SPREAD[6])
  {
  }

  lemma SpreadAddresses()
    ensures AtY().symbols["y"].address == 8 && AtY().errors == 0 && AtY().marks["y"] == 4
    ensures AtY().buffer == [U8(1), U8(1), U8(1), U8(1)]
  {
    assert Bytes3().index == 3 && Bytes3().buffer == [U8(1), U8(1), U8(1)];
    assert AtX().index == 4;
    assert Push(AtX(), U8(1)).index == 5;
  }

  lemma FourBytesEnd(b: seq<Element>)
    requires b == [U8(1), U8(1), U8(1), U8(1)]
    ensures End(b) == 4
  {
    assert b[..3] == [U8(1), U8(1), U8(1)] && b[..3][..2] == [U8(1), U8(1)] && b[..3][..2][..1] == [U8(1)];
    assert b[..3][..2][..1][..0] == [];
    assert End(b[..3][..2][..1]) == 1 && End(b[..3][..2]) == 2 && End(b[..3]) == 3;
  }

  /**
   The padding of an empty directive also moves labels behind later elements: here y pads like its own
   element, yet it gets address 8, and the loader puts its element at offset 4.
   */
  lemma PaddingSpreads()
    ensures var r := Scan(SPREAD, 0, NODATA).1;
            && r.errors == 0 && Known(r, "y") && r.marks["y"] == 4 && |r.buffer| == 5
            && r.symbols["y"].address == 8 && Offset(r.buffer, 4) == 4
  {
    hide Scan, AtY, End;
    SpreadHead();
    SpreadTail();
    SpreadAddresses();
    var r := Push(AtY(), U32(2));
    assert Known(AtY(), "y") by { KnownY(); }
    assert r.buffer[..4] == AtY().buffer;
    FourBytesEnd(AtY().buffer);
  }

  lemma KnownY()
    ensures Known(AtY(), "y")
  {
  }
}
