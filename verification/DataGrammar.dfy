/** Which data sections the parser accepts, where they end and which labels they define. */
module DataGrammar {
  import opened Limbs
  import opened SymbolTable
  import opened DataLayout
  import opened DataParser
  import opened DataValues
  import SectionLabels

  // ------------------------------------------------------------ well-formed sections

  /** Tokens p + 1 to q are elements of the directive at p and commas, and no zero directive has a zero count. */
  predicate InDirective(ts: seq<Token>, p: nat, q: nat)
    requires q < |ts|
  {
    && p < q && ts[p].kind == DIRECTIVE
    && forall s :: p < s <= q ==> ts[s].kind == COMMA || Element(ts[p].value, ts[s])
  }

  predicate Element(word: string, t: Token) {
    t.kind == KindOf(word) && (word == "zero" ==> t.num % 0x1_0000_0000_0000_0000 != 0)
  }

  /** Labels stand before directives, directives are data directives, and everything else belongs to one. */
  predicate WellFormed(ts: seq<Token>) {
    forall q :: 0 <= q < |ts| ==> TokenFits(ts, q)
  }

  predicate TokenFits(ts: seq<Token>, q: nat)
    requires q < |ts|
  {
    match ts[q].kind
    case LABEL => q + 1 < |ts| && ts[q + 1].kind == DIRECTIVE
    case DIRECTIVE => IsDataWord(ts[q].value)
    case OTHER => false
    case END => true
    case _ => exists p: nat :: p < q && InDirective(ts, p, q)
  }

  /** Only a directive with nothing but its own elements behind it can take a token. */
  lemma OnlyOwner(ts: seq<Token>, q: nat, r: nat)
    requires q < r < |ts| && ts[q].kind == DIRECTIVE && TokenFits(ts, r)
    requires ts[r].kind in {NUM, FLOAT, STRING, COMMA}
    requires forall s :: q < s < r ==> ts[s].kind != DIRECTIVE
    ensures ts[r].kind == COMMA || Element(ts[q].value, ts[r])
  {
    hide KindOf;
    var p: nat :| p < r && InDirective(ts, p, r);
    if p < q { assert ts[q].kind == COMMA || Element(ts[p].value, ts[q]); NotDirective(ts[p].value); }
  }

  lemma NotDirective(word: string)
    ensures KindOf(word) in {NUM, FLOAT, STRING}
  {
  }

  /** Items take everything up to the next label, directive or end, without an error. */
  lemma {:induction false} ItemsAccepted(ts: seq<Token>, q: nat, s: nat, d: Data)
    requires WellFormed(ts) && q < s <= |ts| && ts[q].kind == DIRECTIVE && IsDataWord(ts[q].value)
    requires forall x :: q < x < s ==> ts[x].kind != DIRECTIVE
    ensures Keyword(ts[q].value) != NoDirective
    ensures var (r, d') := Items(ts, s, Keyword(ts[q].value), d);
            d'.errors == d.errors && s <= r <= |ts| && (r < |ts| ==> ts[r].kind in {LABEL, DIRECTIVE, END})
    decreases |ts| - s
  {
    var word := ts[q].value;
    TakesKind(word, TokenAt(ts, s));
    NotDirective(word);
    var dir := Keyword(word);
    if s < |ts| {
      assert TokenFits(ts, s);
      if ts[s].kind in {NUM, FLOAT, STRING, COMMA} { OnlyOwner(ts, q, s); }
      assert dir == Zero <==> word == "zero";
      hide Keyword, KindOf, IsDataWord, WellFormed, Directive.Takes, ElementOf;
      if dir.Takes(ts[s]) {
        ItemsAccepted(ts, q, s + 1, Take(dir, ts[s], d));
      } else if ts[s].kind == COMMA {
        ItemsAccepted(ts, q, s + 1, d);
      }
    }
  }

  lemma {:induction false} ScanAccepted(ts: seq<Token>, p: nat, d: Data)
    requires WellFormed(ts) && p <= |ts| && (p < |ts| ==> ts[p].kind in {LABEL, DIRECTIVE, END})
    ensures Scan(ts, p, d).1.errors == d.errors
    decreases |ts| - p
  {
    if p < |ts| && !StopsSection(ts[p]) {
      assert TokenFits(ts, p);
      if ts[p].kind == LABEL {
        assert TokenFits(ts, p + 1);
        TakesKind(ts[p + 1].value, EOFTOKEN);
        ScanAccepted(ts, p + 1, Label(ts[p], Keyword(ts[p + 1].value), d));
      } else {
        ItemsAccepted(ts, p, p + 1, d);
        var (q, d') := Items(ts, p + 1, Keyword(ts[p].value), d);
        hide Items, Keyword, WellFormed, TokenFits;
        ScanAccepted(ts, q, d');
      }
    }
  }

  /** Main result: a well-formed section has no errors. */
  lemma Accepted(ts: seq<Token>)
    requires WellFormed(ts) && (ts != [] ==> ts[0].kind in {LABEL, DIRECTIVE, END})
    ensures Scan(ts, 0, NODATA).1.errors == 0
  {
    ScanAccepted(ts, 0, NODATA);
  }

  // ------------------------------------------------------------ ends, labels and errors of any section

  predicate Ends(t: Token) { t.value in ["text", "data", "bss", "section"] || t.kind == END }

  /** A token that no directive takes as an element. */
  predicate Stands(t: Token) { t.kind in {LABEL, DIRECTIVE, OTHER, END} }

  /** Token q does not end the section, and is in its place if the section has no errors. */
  predicate Placed(ts: seq<Token>, q: nat, errors: bool)
    requires q < |ts|
  {
    && !Ends(ts[q])
    && (errors || if ts[q].kind == LABEL then q + 1 < |ts| && IsDataWord(ts[q + 1].value) else IsDataWord(ts[q].value))
  }

  lemma WordsKnown(word: string)
    ensures Keyword(word) != NoDirective <==> IsDataWord(word)
  {
  }

  lemma NoWord()
    ensures !IsDataWord(EOFTOKEN.value)
  {
  }

  lemma StopsIsEnds(t: Token)
    ensures StopsSection(t) <==> Ends(t)
  {
  }

  lemma {:induction false} ItemsSkip(ts: seq<Token>, p: nat, dir: Directive, d: Data)
    requires dir != NoDirective && p <= |ts|
    ensures var r := Items(ts, p, dir, d).0; p <= r <= |ts| && forall q :: p <= q < r ==> !Stands(ts[q])
    decreases |ts| - p
  {
    hide Take;
    if p < |ts| {
      if dir.Takes(ts[p]) {
        ItemsSkip(ts, p + 1, dir, Take(dir, ts[p], d));
      } else if ts[p].kind == COMMA {
        ItemsSkip(ts, p + 1, dir, d);
      }
    }
  }

  lemma {:induction false} ScanEnds(ts: seq<Token>, p: nat, d: Data)
    requires p <= |ts|
    ensures var (r, d') := Scan(ts, p, d);
            && p <= r <= |ts| && (r < |ts| ==> Ends(ts[r]))
            && forall q :: p <= q < r && Stands(ts[q]) ==> Placed(ts, q, d'.errors != d.errors)
    decreases |ts| - p
  {
    hide Keyword, StopsSection, IsDataWord, Ends;
    if p < |ts| { StopsIsEnds(ts[p]); }
    ScanErrors(ts, p, d);
    if p < |ts| && !StopsSection(ts[p]) {
      var t := ts[p];
      WordsKnown(t.value);
      if t.kind == LABEL {
        WordsKnown(TokenAt(ts, p + 1).value);
        NoWord();
        var d1 := Label(t, Keyword(TokenAt(ts, p + 1).value), d);
        ScanErrors(ts, p + 1, d1);
        ScanEnds(ts, p + 1, d1);
      } else if Keyword(t.value) == NoDirective {
        ScanErrors(ts, p + 1, d.(errors := d.errors + 2));
        ScanEnds(ts, p + 1, d.(errors := d.errors + 2));
      } else {
        ItemsErrors(ts, p + 1, Keyword(t.value), d);
        ItemsSkip(ts, p + 1, Keyword(t.value), d);
        var (q, d1) := Items(ts, p + 1, Keyword(t.value), d);
        ScanErrors(ts, q, d1);
        ScanEnds(ts, q, d1);
      }
    }
  }

  /**
   Main result: a section ends at the first token that names another one or ends the file, and without
   errors every label in it stands before a data directive and every other word in it is one.
   */
  lemma SectionEnds(ts: seq<Token>)
    ensures var (r, d) := Scan(ts, 0, NODATA);
            && 0 <= r <= |ts| && (r < |ts| ==> Ends(ts[r]))
            && forall q :: 0 <= q < r && Stands(ts[q]) ==> Placed(ts, q, d.errors != 0)
  {
    ScanEnds(ts, 0, NODATA);
  }

  lemma ScanRange(ts: seq<Token>, p: nat, d: Data)
    requires p <= |ts|
    ensures p <= Scan(ts, p, d).0 <= |ts|
  {
    hide Scan, Placed;
    ScanEnds(ts, p, d);
  }

  predicate LabelIn(ts: seq<Token>, p: nat, r: nat, l: string) {
    exists q :: p <= q < r && q < |ts| && ts[q].kind == LABEL && ts[q].value == l
  }

  lemma FirstLabel(ts: seq<Token>, p: nat, r: nat, l: string)
    requires p < r <= |ts|
    ensures LabelIn(ts, p, r, l) <==> (ts[p].kind == LABEL && ts[p].value == l) || LabelIn(ts, p + 1, r, l)
  {
  }

  lemma LaterLabels(ts: seq<Token>, p: nat, q: nat, r: nat, l: string)
    requires p < q <= r <= |ts| && ts[p].kind != LABEL && forall s :: p < s < q ==> !Stands(ts[s])
    ensures LabelIn(ts, p, r, l) <==> LabelIn(ts, q, r, l)
  {
  }

  lemma NoLabels(ts: seq<Token>, p: nat, l: string)
    ensures !LabelIn(ts, p, p, l)
  {
  }

  lemma {:induction false} ScanDefines(ts: seq<Token>, p: nat, d: Data, l: string)
    requires p <= |ts|
    ensures l in Scan(ts, p, d).1.symbols
            <==> l in d.symbols || LabelIn(ts, p, Scan(ts, p, d).0, l)
    decreases |ts| - p
  {
    hide Keyword, StopsSection, Items, LabelIn;
    ScanRange(ts, p, d);
        var r := Scan(ts, p, d).0;
    if p < |ts| && !StopsSection(ts[p]) {
      var t := ts[p];
      if t.kind == LABEL {
        var d1 := Label(t, Keyword(TokenAt(ts, p + 1).value), d);
        ScanRange(ts, p + 1, d1);
        ScanDefines(ts, p + 1, d1, l);
        FirstLabel(ts, p, r, l);
      } else if Keyword(t.value) == NoDirective {
        ScanRange(ts, p + 1, d.(errors := d.errors + 2));
        ScanDefines(ts, p + 1, d.(errors := d.errors + 2), l);
        FirstLabel(ts, p, r, l);
      } else {
        ItemsSkip(ts, p + 1, Keyword(t.value), d);
        SectionLabels.ItemsTables(ts, p + 1, Keyword(t.value), d);
        var (q, d1) := Items(ts, p + 1, Keyword(t.value), d);
        ScanRange(ts, q, d1);
        ScanDefines(ts, q, d1, l);
        LaterLabels(ts, p, q, r, l);
      }
    } else {
      NoLabels(ts, p, l);
    }
  }

  /** The symbol table holds exactly the labels before the section's end. */
  lemma SymbolsDefined(ts: seq<Token>, l: string)
    ensures var (r, d) := Scan(ts, 0, NODATA);
            l in d.symbols <==> LabelIn(ts, 0, r, l)
  {
    hide Scan;
    ScanEnds(ts, 0, NODATA);
    ScanDefines(ts, 0, NODATA, l);
  }

  /** A data symbol on the line of a label of that name. */
  predicate FromLabel(ts: seq<Token>, l: string, s: Symbol) {
    s.isData && exists q :: 0 <= q < |ts| && ts[q].kind == LABEL && ts[q].value == l && ts[q].line == s.line
  }

  predicate AllFromLabels(ts: seq<Token>, symbols: Symbols) {
    forall l :: l in symbols ==> FromLabel(ts, l, symbols[l])
  }

  /** Every symbol is a data symbol with its label's line. */
  lemma {:induction false} ScanFromLabels(ts: seq<Token>, p: nat, d: Data)
    requires AllFromLabels(ts, d.symbols)
    ensures AllFromLabels(ts, Scan(ts, p, d).1.symbols)
    decreases |ts| - p
  {
    hide Keyword, StopsSection, Items, FromLabel;
    if p < |ts| && !StopsSection(ts[p]) {
      var t := ts[p];
      if t.kind == LABEL {
        var d1 := Label(t, Keyword(TokenAt(ts, p + 1).value), d);
        LabelFromLabel(ts, p, d1.symbols[t.value]);
        ScanFromLabels(ts, p + 1, d1);
      } else if Keyword(t.value) == NoDirective {
        ScanFromLabels(ts, p + 1, d.(errors := d.errors + 2));
      } else {
        SectionLabels.ItemsTables(ts, p + 1, Keyword(t.value), d);
        var (q, d1) := Items(ts, p + 1, Keyword(t.value), d);
        ScanFromLabels(ts, q, d1);
      }
    }
  }

  lemma LabelFromLabel(ts: seq<Token>, p: nat, s: Symbol)
    requires p < |ts| && ts[p].kind == LABEL && s.isData && s.line == ts[p].line
    ensures FromLabel(ts, ts[p].value, s)
  {
  }
}
