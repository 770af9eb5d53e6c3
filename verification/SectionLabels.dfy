/**
 Exactly when the labels of a data section address their elements. The parser pads at a label for the
 directive behind it, the loader only at an element, so labels that wait for an element together pad
 for the strictest of their directives.
 */
module SectionLabels {
  import opened Limbs
  import opened SymbolTable
  import opened DataLayout
  import opened DataParser

  // ------------------------------------------------------------ alignments

  type Positive = x: int | x >= 1 witness 1

  predicate IsAlignment(a: int) { a == 1 || a == 2 || a == 4 || a == 8 }

  function Larger(x: Positive, y: Positive): Positive { if x < y then y else x }

  lemma AlignPadded(x: nat, a: int, b: int)
    requires a > 0 && b > 0
    ensures AlignUp(AlignUp(x, a), b) == AlignUp(x, b) <==> AlignUp(x, a) <= AlignUp(x, b)
  {
    hide AlignUp;
    var padded := AlignUp(x, a);
    AlignUpIsMultiple(x, b);
    AlignUpIsMultiple(padded, b);
    AlignUpIsLeast(x, b, AlignUp(padded, b));
    if padded <= AlignUp(x, b) { AlignUpIsLeast(padded, b, AlignUp(x, b)); }
  }

  lemma MultipleOfSmaller(m: nat, a: int, b: int)
    requires IsAlignment(a) && IsAlignment(b) && a <= b && m % b == 0
    ensures m % a == 0
  {
    var q := m / b;
    if b == 8 { assert m == 8 * q; } else if b == 4 { assert m == 4 * q; } else if b == 2 { assert m == 2 * q; }
  }

  /** Padding for two alignments in turn is padding for the larger. */
  lemma AlignLarger(x: nat, a: int, b: int)
    requires IsAlignment(a) && IsAlignment(b)
    ensures AlignUp(AlignUp(x, a), b) == AlignUp(x, Larger(a, b))
  {
    hide AlignUp;
    AlignUpIsMultiple(x, a);
    AlignUpIsMultiple(x, b);
    if a <= b {
      MultipleOfSmaller(AlignUp(x, b), a, b);
      AlignUpIsLeast(x, a, AlignUp(x, b));
      AlignPadded(x, a, b);
    } else {
      MultipleOfSmaller(AlignUp(x, a), b, a);
      AlignUpIsMultiple(AlignUp(x, a), b);
    }
  }

  lemma AlignByOne(x: nat)
    ensures AlignUp(x, 1) == x
  {
  }

  // ------------------------------------------------------------ label occurrences

  /**
   A label in the section: its name, the number of elements in front of it, the strictest alignment of
   the labels since the last element up to this one, and the address the parser gives it.
   */
  datatype Entry = Entry(name: string, mark: nat, reach: Positive, address: nat)

  function ReachAfter(d: Data, d': Data, reach: Positive): Positive { if |d'.buffer| > |d.buffer| then 1 else reach }

  function Occurrence(t: Token, dir: Directive, d: Data, reach: Positive): Entry {
    Entry(t.value, |d.buffer|, Larger(reach, dir.Alignment()), Label(t, dir, d).index)
  }

  /** The labels from token p on, in order. */
  function Occurrences(ts: seq<Token>, p: nat, d: Data, reach: Positive): seq<Entry>
    decreases |ts| - p
  {
    if p >= |ts| || StopsSection(ts[p]) then []
    else
      var t := ts[p];
      if t.kind == LABEL then
        var dir := Keyword(TokenAt(ts, p + 1).value);
        [Occurrence(t, dir, d, reach)] + Occurrences(ts, p + 1, Label(t, dir, d), Larger(reach, dir.Alignment()))
      else if Keyword(t.value) == NoDirective then Occurrences(ts, p + 1, d.(errors := d.errors + 2), reach)
      else
        var (q, d') := Items(ts, p + 1, Keyword(t.value), d);
        Occurrences(ts, q, d', ReachAfter(d, d', reach))
  }

  /** The parser's address of a label is the loader's offset of the element behind it, if there is one. */
  predicate Right(buffer: seq<Element>, e: Entry) {
    e.mark < |buffer| ==> e.address == Offset(buffer, e.mark)
  }

  /** Padding for the waiting labels and padding for the element behind them come to the same. */
  predicate PadsAlike(buffer: seq<Element>, e: Entry) {
    e.mark < |buffer| ==> AlignUp(End(buffer[..e.mark]), e.reach) == Offset(buffer, e.mark)
  }

  predicate AllRight(buffer: seq<Element>, log: seq<Entry>) { forall k :: 0 <= k < |log| ==> Right(buffer, log[k]) }
  predicate AllAlike(buffer: seq<Element>, log: seq<Entry>) { forall k :: 0 <= k < |log| ==> PadsAlike(buffer, log[k]) }

  // ------------------------------------------------------------ the invariant

  predicate Sound(d: Data, e: Entry) { e.mark <= |d.buffer| && IsAlignment(e.reach) }
  predicate Waits(d: Data, e: Entry) { e.mark == |d.buffer| }
  predicate Padded(d: Data, e: Entry) { Sound(d, e) && Waits(d, e) ==> e.address == AlignUp(End(d.buffer), e.reach) }

  predicate AllSound(d: Data, log: seq<Entry>) { forall k :: 0 <= k < |log| ==> Sound(d, log[k]) }
  predicate AllPadded(d: Data, log: seq<Entry>) { forall k :: 0 <= k < |log| ==> Padded(d, log[k]) }

  /** A reach above one is that of a waiting label. */
  predicate Reached(d: Data, log: seq<Entry>, reach: Positive) {
    reach == 1 || exists k :: 0 <= k < |log| && Waits(d, log[k]) && log[k].reach == reach
  }

  /**
   The labels so far are all right exactly when they all pad alike, and as long as they are, the running
   offset and the waiting labels are the loader's offset padded for the labels that wait.
   */
  predicate Steady(d: Data, log: seq<Entry>, reach: Positive) {
    && IsAlignment(reach) && AllSound(d, log) && Reached(d, log, reach)
    && (AllRight(d.buffer, log) <==> AllAlike(d.buffer, log))
    && (AllRight(d.buffer, log) ==> d.index == AlignUp(End(d.buffer), reach) && AllPadded(d, log))
  }

  lemma LabelSteady(t: Token, dir: Directive, d: Data, log: seq<Entry>, reach: Positive)
    requires Steady(d, log, reach) && dir != NoDirective
    ensures Steady(Label(t, dir, d), log + [Occurrence(t, dir, d, reach)], Larger(reach, dir.Alignment()))
  {
    hide AlignUp, End;
    var d', e := Label(t, dir, d), Occurrence(t, dir, d, reach);
    var log' := log + [e];
    AlignLarger(End(d.buffer), reach, dir.Alignment());
    assert log'[|log|] == e && d'.buffer == d.buffer;
    LogAppend(d'.buffer, log, e);
    forall k | 0 <= k < |log'| ensures Sound(d', log'[k]) {
      if k < |log| { assert Sound(d, log[k]); }
    }
    assert Waits(d', log'[|log|]);
    if AllRight(d'.buffer, log') {
      forall k | 0 <= k < |log'| ensures Padded(d', log'[k]) {
        if k < |log| { assert Padded(d, log[k]); }
      }
    }
  }

  lemma LogAppend(buffer: seq<Element>, log: seq<Entry>, e: Entry)
    requires e.mark == |buffer|
    ensures AllRight(buffer, log + [e]) <==> AllRight(buffer, log)
    ensures AllAlike(buffer, log + [e]) <==> AllAlike(buffer, log)
  {
    hide Right, PadsAlike;
    assert Right(buffer, e) && PadsAlike(buffer, e) by { NothingBehind(buffer, e); }
    var log' := log + [e];
    if AllRight(buffer, log') {
      forall k | 0 <= k < |log| ensures Right(buffer, log[k]) { assert log'[k] == log[k]; }
    }
    if AllAlike(buffer, log') {
      forall k | 0 <= k < |log| ensures PadsAlike(buffer, log[k]) { assert log'[k] == log[k]; }
    }
  }

  lemma NothingBehind(buffer: seq<Element>, e: Entry)
    requires e.mark == |buffer|
    ensures Right(buffer, e) && PadsAlike(buffer, e)
  {
  }

  // ------------------------------------------------------------ elements

  /** d' has at least one more element, and stands where the loader stands if padding for it was no different. */
  predicate Grows(d: Data, d': Data) {
    && |d.buffer| < |d'.buffer| && d'.buffer[..|d.buffer|] == d.buffer
    && (AlignUp(d.index, d'.buffer[|d.buffer|].Alignment()) == Offset(d'.buffer, |d.buffer|) ==>
          d'.index == End(d'.buffer))
  }

  lemma OffsetKept(b: seq<Element>, b': seq<Element>, m: nat)
    requires |b| < |b'| && b'[..|b|] == b && m <= |b|
    ensures b'[..m] == b[..m]
    ensures m < |b| ==> Offset(b', m) == Offset(b, m)
    ensures m == |b| ==> Offset(b', m) == AlignUp(End(b), b'[m].Alignment())
  {
    assert b'[..|b|][..m] == b'[..m];
    assert m < |b| ==> b'[..|b|][m] == b'[m];
    assert b[..|b|] == b;
  }

  /** An old entry keeps its standing; a waiting one is right exactly when it pads alike. */
  lemma EntryGrows(d: Data, d': Data, e: Entry)
    requires Grows(d, d') && Sound(d, e)
    ensures e.mark < |d.buffer| ==> (Right(d'.buffer, e) <==> Right(d.buffer, e))
    ensures e.mark < |d.buffer| ==> (PadsAlike(d'.buffer, e) <==> PadsAlike(d.buffer, e))
    ensures Waits(d, e) && Padded(d, e) ==> (Right(d'.buffer, e) <==> PadsAlike(d'.buffer, e))
    ensures Waits(d, e) && PadsAlike(d'.buffer, e) ==>
              AlignUp(End(d.buffer), e.reach) == Offset(d'.buffer, |d.buffer|)
  {
    hide AlignUp, End, Offset;
    OffsetKept(d.buffer, d'.buffer, e.mark);
    assert d.buffer[..|d.buffer|] == d.buffer;
  }

  lemma StillWrong(d: Data, d': Data, log: seq<Entry>)
    requires Grows(d, d') && AllSound(d, log)
    ensures AllRight(d'.buffer, log) ==> AllRight(d.buffer, log)
    ensures AllAlike(d'.buffer, log) ==> AllAlike(d.buffer, log)
  {
    hide Right, PadsAlike, Grows;
    forall k | 0 <= k < |log|
      ensures Right(d'.buffer, log[k]) ==> Right(d.buffer, log[k])
      ensures PadsAlike(d'.buffer, log[k]) ==> PadsAlike(d.buffer, log[k])
    {
      assert Sound(d, log[k]);
      EntryGrows(d, d', log[k]);
      if log[k].mark == |d.buffer| { NothingBehind(d.buffer, log[k]); }
    }
  }

  lemma RightIsAlike(d: Data, d': Data, log: seq<Entry>)
    requires Grows(d, d') && AllSound(d, log) && AllPadded(d, log)
    requires AllRight(d.buffer, log) && AllAlike(d.buffer, log)
    ensures AllRight(d'.buffer, log) <==> AllAlike(d'.buffer, log)
  {
    hide Right, PadsAlike, Grows, Padded;
    forall k | 0 <= k < |log| ensures Right(d'.buffer, log[k]) <==> PadsAlike(d'.buffer, log[k]) {
      assert Sound(d, log[k]) && Padded(d, log[k]);
      assert Right(d.buffer, log[k]) && PadsAlike(d.buffer, log[k]);
      EntryGrows(d, d', log[k]);
    }
  }

  lemma BackInStep(d: Data, d': Data, log: seq<Entry>, reach: Positive)
    requires Grows(d, d') && AllSound(d, log) && Reached(d, log, reach) && IsAlignment(reach)
    requires AllAlike(d'.buffer, log) && d.index == AlignUp(End(d.buffer), reach)
    ensures d'.index == End(d'.buffer)
  {
    hide AlignUp, End, PadsAlike;
    var n := |d.buffer|;
    var a := d'.buffer[n].Alignment();
    OffsetKept(d.buffer, d'.buffer, n);
    if reach == 1 {
      AlignByOne(End(d.buffer));
    } else {
      var k :| 0 <= k < |log| && Waits(d, log[k]) && log[k].reach == reach;
      assert Sound(d, log[k]) && PadsAlike(d'.buffer, log[k]);
      EntryGrows(d, d', log[k]);
      AlignTwice(End(d.buffer), a);
    }
  }

  lemma GrowSteady(d: Data, d': Data, log: seq<Entry>, reach: Positive)
    requires Steady(d, log, reach) && Grows(d, d')
    ensures Steady(d', log, 1)
  {
    hide AlignUp, End, AllRight, AllAlike, Right, PadsAlike, Grows, AllPadded;
    StillWrong(d, d', log);
    NoneWait(d, d', log);
    if AllRight(d.buffer, log) {
      RightIsAlike(d, d', log);
      if AllAlike(d'.buffer, log) {
        BackInStep(d, d', log, reach);
        AlignByOne(End(d'.buffer));
      }
    }
  }

  lemma NoneWait(d: Data, d': Data, log: seq<Entry>)
    requires AllSound(d, log) && Grows(d, d')
    ensures AllSound(d', log) && AllPadded(d', log)
  {
    forall k | 0 <= k < |log| ensures Sound(d', log[k]) && Padded(d', log[k]) {
      assert Sound(d, log[k]);
    }
  }

  lemma TakeGrows(dir: Directive, t: Token, d: Data)
    requires dir != NoDirective && Take(dir, t, d).errors == d.errors
    ensures Grows(d, Take(dir, t, d))
  {
    var d' := Take(dir, t, d);
    if dir == Zero {
      EndOfZeros(d.buffer, t.num % B);
      AlignByOne(d.index);
      AlignByOne(End(d.buffer));
    }
    hide AlignUp;
    assert d'.buffer[..|d.buffer|] == d.buffer;
  }

  lemma {:induction false} ItemsSteady(ts: seq<Token>, p: nat, dir: Directive, d: Data,
                                       log: seq<Entry>, reach: Positive)
    requires dir != NoDirective && Steady(d, log, reach)
    requires Items(ts, p, dir, d).1.errors == d.errors
    ensures var d' := Items(ts, p, dir, d).1;
            |d'.buffer| >= |d.buffer| && Steady(d', log, ReachAfter(d, d', reach))
    decreases |ts| - p
  {
    hide Take, Steady, Grows, Directive.Takes;
    if p < |ts| {
      if dir.Takes(ts[p]) {
        var d' := Take(dir, ts[p], d);
        ItemsErrors(ts, p + 1, dir, d');
        TakeErrors(dir, ts[p], d);
        TakeGrows(dir, ts[p], d);
        GrowSteady(d, d', log, reach);
        Longer(d, d');
        ItemsSteady(ts, p + 1, dir, d', log, 1);
      } else if ts[p].kind == COMMA {
        ItemsSteady(ts, p + 1, dir, d, log, reach);
      }
    }
  }

  lemma TakeErrors(dir: Directive, t: Token, d: Data)
    requires dir != NoDirective
    ensures Take(dir, t, d).errors >= d.errors
  {
  }

  lemma Longer(d: Data, d': Data)
    requires Grows(d, d')
    ensures |d'.buffer| > |d.buffer|
  {
  }

  // ------------------------------------------------------------ whole sections

  lemma {:induction false} ScanSteady(ts: seq<Token>, p: nat, d: Data, log: seq<Entry>, reach: Positive)
    requires Steady(d, log, reach) && Scan(ts, p, d).1.errors == d.errors
    ensures var r, all := Scan(ts, p, d).1, log + Occurrences(ts, p, d, reach);
            AllRight(r.buffer, all) <==> AllAlike(r.buffer, all)
    decreases |ts| - p
  {
    hide Steady, AllRight, AllAlike, Keyword, StopsSection, Items, Label, Occurrence;
    if p < |ts| && !StopsSection(ts[p]) {
      var t := ts[p];
      if t.kind == LABEL {
        var dir := Keyword(TokenAt(ts, p + 1).value);
        var d', e, r := Label(t, dir, d), Occurrence(t, dir, d, reach), Larger(reach, dir.Alignment());
        LabelErrors(t, dir, d);
        ScanErrors(ts, p + 1, d');
        LabelSteady(t, dir, d, log, reach);
        ScanSteady(ts, p + 1, d', log + [e], r);
        assert log + ([e] + Occurrences(ts, p + 1, d', r)) == (log + [e]) + Occurrences(ts, p + 1, d', r);
      } else if Keyword(t.value) == NoDirective {
        ScanErrors(ts, p + 1, d.(errors := d.errors + 2));
      } else {
        var (q, d') := Items(ts, p + 1, Keyword(t.value), d);
        ItemsErrors(ts, p + 1, Keyword(t.value), d);
        ScanErrors(ts, q, d');
        ItemsSteady(ts, p + 1, Keyword(t.value), d, log, reach);
        ScanSteady(ts, q, d', log, ReachAfter(d, d', reach));
      }
    } else {
      assert log + [] == log;
      SteadyMeans(d, log, reach);
    }
  }

  lemma LabelErrors(t: Token, dir: Directive, d: Data)
    ensures Label(t, dir, d).errors == d.errors + if dir == NoDirective then 2 else 0
  {
  }

  lemma SteadyMeans(d: Data, log: seq<Entry>, reach: Positive)
    requires Steady(d, log, reach)
    ensures AllRight(d.buffer, log) <==> AllAlike(d.buffer, log)
  {
  }

  lemma EmptySteady()
    ensures Steady(NODATA, [], 1)
  {
    AlignByOne(0);
  }

  /**
   Main result: in every data section without errors the labels that have an element all address it
   exactly when, at each of them, padding for the directives of the labels that wait there comes to the
   same offset as padding for the element. The right-hand side is about the directives and elements of
   the section only.
   */
  lemma SectionExact(ts: seq<Token>)
    requires Scan(ts, 0, NODATA).1.errors == 0
    ensures var buffer, labels := Scan(ts, 0, NODATA).1.buffer, Occurrences(ts, 0, NODATA, 1);
            AllRight(buffer, labels) <==> AllAlike(buffer, labels)
  {
    hide Scan, Occurrences, Steady, AllRight, AllAlike;
    EmptySteady();
    ScanSteady(ts, 0, NODATA, [], 1);
    assert [] + Occurrences(ts, 0, NODATA, 1) == Occurrences(ts, 0, NODATA, 1);
  }

  // ------------------------------------------------------------ the symbol table

  /** No token from p on defines label l. */
  predicate NotDefined(ts: seq<Token>, p: nat, l: string) {
    forall q :: p <= q < |ts| && ts[q].kind == LABEL ==> ts[q].value != l
  }

  predicate LabelsDistinct(ts: seq<Token>) {
    forall p :: 0 <= p < |ts| && ts[p].kind == LABEL ==> NotDefined(ts, p + 1, ts[p].value)
  }

  predicate Known(d: Data, l: string) { l in d.marks && l in d.symbols }

  /** The tables hold this entry, and nothing from token p on overwrites it. */
  predicate Stands(ts: seq<Token>, p: nat, d: Data, e: Entry) {
    && Known(d, e.name) && d.marks[e.name] == e.mark && d.symbols[e.name].address == e.address
    && NotDefined(ts, p, e.name)
  }

  predicate AllStand(ts: seq<Token>, p: nat, d: Data, log: seq<Entry>) {
    forall k :: 0 <= k < |log| ==> Stands(ts, p, d, log[k])
  }

  predicate Listed(d: Data, log: seq<Entry>) {
    forall l :: l in d.marks ==> exists k :: 0 <= k < |log| && log[k].name == l
  }

  lemma {:induction false} ItemsTables(ts: seq<Token>, p: nat, dir: Directive, d: Data)
    requires dir != NoDirective
    ensures Items(ts, p, dir, d).1.marks == d.marks && Items(ts, p, dir, d).1.symbols == d.symbols
    decreases |ts| - p
  {
    if p < |ts| {
      if dir.Takes(ts[p]) {
        ItemsTables(ts, p + 1, dir, Take(dir, ts[p], d));
      } else if ts[p].kind == COMMA {
        ItemsTables(ts, p + 1, dir, d);
      }
    }
  }

  lemma TablesCarry(ts: seq<Token>, p: nat, q: nat, d: Data, d': Data, log: seq<Entry>)
    requires AllStand(ts, p, d, log) && Listed(d, log) && p <= q
    requires d'.marks == d.marks && d'.symbols == d.symbols
    ensures AllStand(ts, q, d', log) && Listed(d', log)
  {
    forall k | 0 <= k < |log| ensures Stands(ts, q, d', log[k]) {
      assert Stands(ts, p, d, log[k]);
    }
  }

  lemma LabelStands(ts: seq<Token>, p: nat, dir: Directive, d: Data, log: seq<Entry>, reach: Positive)
    requires AllStand(ts, p, d, log) && Listed(d, log) && LabelsDistinct(ts)
    requires p < |ts| && ts[p].kind == LABEL
    ensures var d', log' := Label(ts[p], dir, d), log + [Occurrence(ts[p], dir, d, reach)];
            AllStand(ts, p + 1, d', log') && Listed(d', log')
  {
    var t, d' := ts[p], Label(ts[p], dir, d);
    var log' := log + [Occurrence(t, dir, d, reach)];
    forall k | 0 <= k < |log'| ensures Stands(ts, p + 1, d', log'[k]) {
      if k < |log| { assert Stands(ts, p, d, log[k]); }
    }
    forall l | l in d'.marks ensures exists k :: 0 <= k < |log'| && log'[k].name == l {
      if l == t.value {
        assert log'[|log|].name == l;
      } else {
        var k :| 0 <= k < |log| && log[k].name == l;
        assert log'[k].name == l;
      }
    }
  }

  lemma {:induction false} ScanStands(ts: seq<Token>, p: nat, d: Data, log: seq<Entry>, reach: Positive)
    requires AllStand(ts, p, d, log) && Listed(d, log) && LabelsDistinct(ts)
    ensures var r, all := Scan(ts, p, d).1, log + Occurrences(ts, p, d, reach);
            AllStand(ts, |ts|, r, all) && Listed(r, all)
    decreases |ts| - p
  {
    hide AllStand, Listed, LabelsDistinct, Keyword, StopsSection, Items, Label, Occurrence;
    if p < |ts| && !StopsSection(ts[p]) {
      var t := ts[p];
      if t.kind == LABEL {
        var dir := Keyword(TokenAt(ts, p + 1).value);
        var d', e, r := Label(t, dir, d), Occurrence(t, dir, d, reach), Larger(reach, dir.Alignment());
        LabelStands(ts, p, dir, d, log, reach);
        ScanStands(ts, p + 1, d', log + [e], r);
        assert log + ([e] + Occurrences(ts, p + 1, d', r)) == (log + [e]) + Occurrences(ts, p + 1, d', r);
      } else if Keyword(t.value) == NoDirective {
        TablesCarry(ts, p, p + 1, d, d.(errors := d.errors + 2), log);
        ScanStands(ts, p + 1, d.(errors := d.errors + 2), log, reach);
      } else {
        var (q, d') := Items(ts, p + 1, Keyword(t.value), d);
        ItemsTables(ts, p + 1, Keyword(t.value), d);
        TablesCarry(ts, p, q, d, d', log);
        ScanStands(ts, q, d', log, ReachAfter(d, d', reach));
      }
    } else {
      assert log + [] == log;
      if p <= |ts| { TablesCarry(ts, p, |ts|, d, d, log); } else { PastEnd(ts, p, d, log); }
    }
  }

  lemma PastEnd(ts: seq<Token>, p: nat, d: Data, log: seq<Entry>)
    requires AllStand(ts, p, d, log) && p > |ts|
    ensures AllStand(ts, |ts|, d, log)
  {
    forall k | 0 <= k < |log| ensures Stands(ts, |ts|, d, log[k]) {
      assert Stands(ts, p, d, log[k]);
    }
  }

  /** Every label of the symbol table that has an element addresses it. */
  predicate TableRight(d: Data) {
    forall l :: l in d.marks && d.marks[l] < |d.buffer| ==> Known(d, l) && LabelAgrees(d, l)
  }

  /** Main result: the same for the symbol table, when no label is defined twice. */
  lemma TableExact(ts: seq<Token>)
    requires LabelsDistinct(ts) && Scan(ts, 0, NODATA).1.errors == 0
    ensures var r := Scan(ts, 0, NODATA).1;
            TableRight(r) <==> AllAlike(r.buffer, Occurrences(ts, 0, NODATA, 1))
  {
    hide Scan, Occurrences, AllAlike, LabelsDistinct;
    var r, labels := Scan(ts, 0, NODATA).1, Occurrences(ts, 0, NODATA, 1);
    SectionExact(ts);
    ScanStands(ts, 0, NODATA, [], 1);
    assert [] + labels == labels;
    if AllRight(r.buffer, labels) {
      forall l | l in r.marks && r.marks[l] < |r.buffer| ensures Known(r, l) && LabelAgrees(r, l) {
        var k :| 0 <= k < |labels| && labels[k].name == l;
        assert Stands(ts, |ts|, r, labels[k]) && Right(r.buffer, labels[k]);
      }
    }
    if TableRight(r) {
      forall k | 0 <= k < |labels| ensures Right(r.buffer, labels[k]) {
        assert Stands(ts, |ts|, r, labels[k]);
        if labels[k].mark < |r.buffer| { assert LabelAgrees(r, labels[k].name); }
      }
    }
  }
}
