/**
 The text section pass and the back-patching pass of the parser. A line is a label, an instruction
 without a label operand, or a branch or jump to a label; the fields after it are those of Parser.
 */
module TextParser {
  import opened InstructionSet
  import opened CodeGenerator
  import opened Limbs
  import opened SymbolTable
  import opened TextLayout

  /** An entry of the intermediate code, with the flag that says its operands are known. */
  datatype Block = Block(unit: ICUnit, target: string, known: bool)

  datatype Line = Label(name: string, line: nat) | Plain(unit: ICUnit) | Labelled(unit: ICUnit, target: string)

  /** Code, back-patch list, symbols, error count (the parser counts each error twice), and the M-extension setting. */
  datatype Text = Text(code: seq<Block>, backPatch: seq<nat>, symbols: Symbols, errors: nat, mul: bool)

  /** Instructions of the M extension, which a setting can disable. */
  predicate IsMultiplyDivide(op: Opcode) {
    op.R? && (op.r.Mul? || op.r.Mulh? || op.r.Mulhsu? || op.r.Mulhu?
              || op.r.Div? || op.r.Divu? || op.r.Rem? || op.r.Remu?
              || op.r.Mulw? || op.r.Divw? || op.r.Divuw? || op.r.Remw? || op.r.Remuw?)
  }

  /** They are the register instructions whose funct7 is 1. */
  lemma MultiplyDivideByFunct7(op: Opcode)
    ensures IsMultiplyDivide(op) <==> op.R? && EncodingOf(op).funct7 == 1
  {
    if op.R? { IntegerNumbering(op.r); }
  }

  predicate IsTransfer(u: ICUnit) { u.op.Branch? || u.op.Jal? }

  predicate WellTyped(lines: seq<Line>) {
    forall i :: 0 <= i < |lines| && lines[i].Labelled? ==> IsTransfer(lines[i].unit)
  }

  // ------------------------------------------------------------ the text pass

  predicate KnownCode(symbols: Symbols, target: string) { target in symbols && !symbols[target].isData }

  function Append(t: Text, b: Block): Text { t.(code := t.code + [b]) }

  function OneLine(t: Text, line: Line): Text {
    var k := |t.code|;
    match line
    case Label(name, line) =>
      if name in t.symbols then t.(errors := t.errors + 2)
      else t.(symbols := t.symbols[name := Symbol(Pc(k), line, false)])
    case Plain(u) =>
      if IsMultiplyDivide(u.op) && !t.mul then t.(errors := t.errors + 2) else Append(t, Block(u, "", true))
    case Labelled(u, target) =>
      if !KnownCode(t.symbols, target) then Append(t, Block(u, target, false)).(backPatch := t.backPatch + [k])
      else if InReach(u.op, Offset(t.symbols[target].Word(), k)) then
        Append(t, Block(Aim(u, t.symbols[target].Word(), k), target, true))
      else t.(errors := t.errors + 2)
  }

  function TextPass(t: Text, lines: seq<Line>, n: nat): Text
    requires n <= |lines|
  {
    if n == 0 then t else OneLine(TextPass(t, lines, n - 1), lines[n - 1])
  }

  // ------------------------------------------------------------ the back-patching pass

  predicate Resolves(symbols: Symbols, b: Block, k: nat) {
    && b.target in symbols && IsTransfer(b.unit)
    && (b.unit.op.Branch? ==> !symbols[b.target].isData)
    && InReach(b.unit.op, Offset(symbols[b.target].Word(), k))
  }

  /** A branch to a data label is an error, but its block is still marked as known. */
  function Patched(symbols: Symbols, b: Block, k: nat): Block {
    if Resolves(symbols, b, k) then b.(unit := Aim(b.unit, symbols[b.target].Word(), k), known := true)
    else if b.target in symbols && b.unit.op.Branch? && symbols[b.target].isData then b.(known := true)
    else b
  }

  predicate InCode(t: Text) { forall m :: 0 <= m < |t.backPatch| ==> t.backPatch[m] < |t.code| }

  function PatchPass(t: Text, n: nat): Text
    requires n <= |t.backPatch|
    requires InCode(t)
    ensures |PatchPass(t, n).code| == |t.code|
    ensures PatchPass(t, n).backPatch == t.backPatch
    ensures PatchPass(t, n).symbols == t.symbols && PatchPass(t, n).mul == t.mul
  {
    if n == 0 then t
    else
      var s := PatchPass(t, n - 1);
      var k := t.backPatch[n - 1];
      s.(code := s.code[k := Patched(s.symbols, s.code[k], k)],
         errors := if Resolves(s.symbols, s.code[k], k) then s.errors else s.errors + 2)
  }

  // ------------------------------------------------------------ what the two passes should come to

  /** The number of the instruction that line i becomes, or that a label there stands before. */
  function Index(lines: seq<Line>, i: nat): nat
    requires i <= |lines|
  {
    if i == 0 then 0 else Index(lines, i - 1) + if lines[i - 1].Label? then 0 else 1
  }

  /** The labels of the data section and of the lines before i; the first of a name counts. */
  function Table(data: Symbols, lines: seq<Line>, i: nat): Symbols
    requires i <= |lines|
  {
    if i == 0 then data
    else
      var s := Table(data, lines, i - 1);
      if lines[i - 1].Label? && lines[i - 1].name !in s
      then s[lines[i - 1].name := Symbol(Pc(Index(lines, i - 1)), lines[i - 1].line, false)] else s
  }

  /** Line i is free of errors: a new label, an enabled instruction, or a transfer to a label that it can reach. */
  predicate LineOk(data: Symbols, mul: bool, lines: seq<Line>, i: nat)
    requires i < |lines|
  {
    match lines[i]
    case Label(name, line) => name !in Table(data, lines, i)
    case Plain(u) => IsMultiplyDivide(u.op) ==> mul
    case Labelled(u, target) => Resolves(Table(data, lines, |lines|), Block(u, target, false), Index(lines, i))
  }

  predicate AllOk(data: Symbols, mul: bool, lines: seq<Line>) {
    forall i :: 0 <= i < |lines| ==> LineOk(data, mul, lines, i)
  }

  /** The finished block of line i: a transfer is aimed at its label, wherever the label stands. */
  function Final(data: Symbols, lines: seq<Line>, i: nat): Block
    requires i < |lines| && !lines[i].Label?
  {
    match lines[i]
    case Plain(u) => Block(u, "", true)
    case Labelled(u, target) => Patched(Table(data, lines, |lines|), Block(u, target, true), Index(lines, i))
  }

  // ------------------------------------------------------------ tables and indices

  lemma {:induction false} IndexGrows(lines: seq<Line>, i: nat, j: nat)
    requires i <= j <= |lines|
    ensures Index(lines, i) <= Index(lines, j)
    ensures i < j && !lines[i].Label? ==> Index(lines, i) < Index(lines, j)
  {
    if i < j { IndexGrows(lines, i, j - 1); }
  }

  /** A name keeps the symbol it got first. */
  lemma {:induction false} TableKeeps(data: Symbols, lines: seq<Line>, i: nat, j: nat, name: string)
    requires i <= j <= |lines|
    requires name in Table(data, lines, i)
    ensures name in Table(data, lines, j) && Table(data, lines, j)[name] == Table(data, lines, i)[name]
  {
    hide Index, Pc;
    if i < j { TableKeeps(data, lines, i, j - 1, name); }
  }

  /** In a file without errors a code label's address is that of the instruction after it. */
  lemma LabelAddress(data: Symbols, mul: bool, lines: seq<Line>, j: nat)
    requires j < |lines| && lines[j].Label?
    requires LineOk(data, mul, lines, j)
    ensures lines[j].name in Table(data, lines, |lines|)
    ensures Table(data, lines, |lines|)[lines[j].name] == Symbol(Pc(Index(lines, j)), lines[j].line, false)
  {
    TableKeeps(data, lines, j + 1, |lines|, lines[j].name);
  }

  // ------------------------------------------------------------ the text pass meets its meaning

  predicate Forward(data: Symbols, lines: seq<Line>, i: nat)
    requires i < |lines|
  {
    lines[i].Labelled? && !KnownCode(Table(data, lines, i), lines[i].target)
  }

  predicate EarlyOk(data: Symbols, mul: bool, lines: seq<Line>, i: nat)
    requires i < |lines|
  {
    match lines[i]
    case Label(name, line) => name !in Table(data, lines, i)
    case Plain(u) => IsMultiplyDivide(u.op) ==> mul
    case Labelled(u, target) =>
      var s := Table(data, lines, i);
      KnownCode(s, target) ==> InReach(u.op, Offset(s[target].Word(), Index(lines, i)))
  }

  /** The block of line i before back-patching. */
  function Early(data: Symbols, lines: seq<Line>, i: nat): Block
    requires i < |lines| && !lines[i].Label?
  {
    match lines[i]
    case Plain(u) => Block(u, "", true)
    case Labelled(u, target) =>
      var s := Table(data, lines, i);
      if KnownCode(s, target) then Block(Aim(u, s[target].Word(), Index(lines, i)), target, true)
      else Block(u, target, false)
  }

  function Fresh(data: Symbols, mul: bool): Text { Text([], [], data, 0, mul) }

  lemma OneLineInCode(t: Text, line: Line)
    requires InCode(t)
    ensures InCode(OneLine(t, line))
  {
    hide InReach, Offset, Aim, KnownCode;
    var s := OneLine(t, line);
    forall m | 0 <= m < |s.backPatch| ensures s.backPatch[m] < |s.code| {
      if m < |t.backPatch| { assert t.backPatch[m] < |t.code|; }
    }
  }

  lemma {:induction false} BackPatchInCode(data: Symbols, mul: bool, lines: seq<Line>, n: nat)
    requires n <= |lines|
    ensures InCode(TextPass(Fresh(data, mul), lines, n))
  {
    if n > 0 {
      BackPatchInCode(data, mul, lines, n - 1);
      OneLineInCode(TextPass(Fresh(data, mul), lines, n - 1), lines[n - 1]);
    }
  }

  lemma {:induction false} ErrorsStay(data: Symbols, mul: bool, lines: seq<Line>, n: nat)
    requires n <= |lines|
    ensures TextPass(Fresh(data, mul), lines, n).errors == 0
            <==> forall i :: 0 <= i < n ==> EarlyOk(data, mul, lines, i)
    ensures var t := TextPass(Fresh(data, mul), lines, n);
            t.mul == mul && (t.errors == 0 ==> |t.code| == Index(lines, n) && t.symbols == Table(data, lines, n))
  {
    hide InReach, Offset, Pc, Aim, IsMultiplyDivide;
    if n > 0 {
      ErrorsStay(data, mul, lines, n - 1);
      var early := EarlyOk(data, mul, lines, n - 1);
      assert TextPass(Fresh(data, mul), lines, n - 1).errors == 0 ==>
          (TextPass(Fresh(data, mul), lines, n).errors == 0 <==> early);
    }
  }

  /** Line i has its block at its index, and is on the back-patch list when its label is still to come. */
  predicate Settled(data: Symbols, lines: seq<Line>, i: nat, t: Text)
    requires i < |lines| && !lines[i].Label?
  {
    && Index(lines, i) < |t.code|
    && t.code[Index(lines, i)] == Early(data, lines, i)
    && (Index(lines, i) in t.backPatch <==> Forward(data, lines, i))
  }

  lemma {:induction false} LinesSettled(data: Symbols, mul: bool, lines: seq<Line>, n: nat, i: nat)
    requires i < n <= |lines| && !lines[i].Label?
    requires TextPass(Fresh(data, mul), lines, n).errors == 0
    ensures Settled(data, lines, i, TextPass(Fresh(data, mul), lines, n))
  {
    hide InReach, Offset, Pc, Aim, OneLine, Settled, InCode;
    var t := TextPass(Fresh(data, mul), lines, n - 1);
    ErrorsGrow(t, lines[n - 1]);
    ErrorsStay(data, mul, lines, n - 1);
    BackPatchInCode(data, mul, lines, n - 1);
    if i < n - 1 {
      LinesSettled(data, mul, lines, n - 1, i);
      StaysSettled(data, lines, i, t, lines[n - 1]);
    } else {
      LineSettled(data, lines, i, t);
    }
  }

  lemma ErrorsGrow(t: Text, line: Line)
    ensures OneLine(t, line).errors >= t.errors
  {
    hide InReach, Offset, Pc, Aim, IsMultiplyDivide;
  }

  lemma StaysSettled(data: Symbols, lines: seq<Line>, i: nat, t: Text, line: Line)
    requires i < |lines| && !lines[i].Label?
    requires Settled(data, lines, i, t)
    ensures Settled(data, lines, i, OneLine(t, line))
  {
    hide InReach, Offset, Pc, Aim, Index, Early, Forward, IsMultiplyDivide;
  }

  lemma LineSettled(data: Symbols, lines: seq<Line>, i: nat, t: Text)
    requires i < |lines| && !lines[i].Label? && InCode(t)
    requires |t.code| == Index(lines, i) && t.symbols == Table(data, lines, i)
    requires OneLine(t, lines[i]).errors == 0 && t.errors == 0
    ensures Settled(data, lines, i, OneLine(t, lines[i]))
  {
    hide InReach, Offset, Pc, Aim, Index, Table, IsMultiplyDivide;
  }

  /** Only lines with a label still to come are on the back-patch list. */
  lemma {:induction false} BackPatchLine(data: Symbols, mul: bool, lines: seq<Line>, n: nat, k: nat) returns (i: nat)
    requires n <= |lines|
    requires TextPass(Fresh(data, mul), lines, n).errors == 0
    requires k in TextPass(Fresh(data, mul), lines, n).backPatch
    ensures i < n && Forward(data, lines, i) && Index(lines, i) == k
  {
    hide InReach, Offset, Pc, Aim, IsMultiplyDivide;
    ErrorsStay(data, mul, lines, n - 1);
    if k in TextPass(Fresh(data, mul), lines, n - 1).backPatch {
      i := BackPatchLine(data, mul, lines, n - 1, k);
    } else {
      i := n - 1;
    }
  }

  // ------------------------------------------------------------ the back-patching pass

  lemma {:induction false} PatchPassCode(t: Text, n: nat, k: nat)
    requires n <= |t.backPatch| && k < |t.code|
    requires InCode(t)
    ensures PatchPass(t, n).code[k]
            == if k in t.backPatch[..n] then Patched(t.symbols, t.code[k], k) else t.code[k]
  {
    hide InReach, Offset;
    if n > 0 {
      PatchPassCode(t, n - 1, k);
      assert t.backPatch[..n] == t.backPatch[..n - 1] + [t.backPatch[n - 1]];
    }
  }

  lemma {:induction false} PatchPassErrors(t: Text, n: nat)
    requires n <= |t.backPatch|
    requires InCode(t)
    ensures PatchPass(t, n).errors >= t.errors
    ensures PatchPass(t, n).errors == t.errors <==>
            forall m :: 0 <= m < n ==> Resolves(t.symbols, t.code[t.backPatch[m]], t.backPatch[m])
  {
    hide InReach, Offset;
    if n > 0 {
      PatchPassErrors(t, n - 1);
      PatchPassCode(t, n - 1, t.backPatch[n - 1]);
    }
  }

  // ------------------------------------------------------------ both passes

  /** Both passes over the lines of a file with these data symbols. */
  function Parsed(data: Symbols, mul: bool, lines: seq<Line>): Text {
    var t := TextPass(Fresh(data, mul), lines, |lines|);
    BackPatchInCode(data, mul, lines, |lines|);
    PatchPass(t, |t.backPatch|)
  }

  /** A label known early keeps its symbol to the end, so an early aim is the final one. */
  lemma EarlyIsFinal(data: Symbols, mul: bool, lines: seq<Line>, i: nat)
    requires WellTyped(lines)
    requires i < |lines| && !lines[i].Label? && !Forward(data, lines, i)
    requires EarlyOk(data, mul, lines, i)
    ensures LineOk(data, mul, lines, i)
    ensures Early(data, lines, i) == Final(data, lines, i)
  {
    hide InReach, Offset, Index;
    if lines[i].Labelled? { TableKeeps(data, lines, i, |lines|, lines[i].target); }
  }

  /** Line i ends with its final block. */
  lemma LineFinal(data: Symbols, mul: bool, lines: seq<Line>, i: nat)
    requires WellTyped(lines)
    requires i < |lines| && !lines[i].Label?
    requires Parsed(data, mul, lines).errors == 0
    ensures LineOk(data, mul, lines, i)
    ensures Index(lines, i) < |Parsed(data, mul, lines).code|
    ensures Parsed(data, mul, lines).code[Index(lines, i)] == Final(data, lines, i)
  {
    hide InReach, Offset, TextPass, PatchPass;
    var t := TextPass(Fresh(data, mul), lines, |lines|);
    var k, n := Index(lines, i), |t.backPatch|;
    BackPatchInCode(data, mul, lines, |lines|);
    PatchPassErrors(t, n);
    LinesSettled(data, mul, lines, |lines|, i);
    ErrorsStay(data, mul, lines, |lines|);
    PatchPassCode(t, n, k);
    assert t.backPatch[..n] == t.backPatch;
    if Forward(data, lines, i) {
      var m :| 0 <= m < n && t.backPatch[m] == k;
      assert Resolves(t.symbols, t.code[t.backPatch[m]], t.backPatch[m]);
    } else {
      assert EarlyOk(data, mul, lines, i);
      EarlyIsFinal(data, mul, lines, i);
    }
  }

  lemma OkIsEarlyOk(data: Symbols, mul: bool, lines: seq<Line>, i: nat)
    requires i < |lines|
    requires LineOk(data, mul, lines, i)
    ensures EarlyOk(data, mul, lines, i)
  {
    hide InReach, Offset, Index;
    if lines[i].Labelled? && lines[i].target in Table(data, lines, i) {
      TableKeeps(data, lines, i, |lines|, lines[i].target);
    }
  }

  lemma OkResolves(data: Symbols, mul: bool, lines: seq<Line>, m: nat)
    requires AllOk(data, mul, lines)
    requires TextPass(Fresh(data, mul), lines, |lines|).errors == 0
    requires m < |TextPass(Fresh(data, mul), lines, |lines|).backPatch|
    ensures var t := TextPass(Fresh(data, mul), lines, |lines|);
            t.backPatch[m] < |t.code| && Resolves(t.symbols, t.code[t.backPatch[m]], t.backPatch[m])
  {
    hide InReach, Offset, TextPass;
    var t := TextPass(Fresh(data, mul), lines, |lines|);
    ErrorsStay(data, mul, lines, |lines|);
    var i := BackPatchLine(data, mul, lines, |lines|, t.backPatch[m]);
    LinesSettled(data, mul, lines, |lines|, i);
    assert LineOk(data, mul, lines, i);
  }

  /** Main result: the passes report no error exactly when every label is new and every transfer reaches its label. */
  lemma ErrorFree(data: Symbols, mul: bool, lines: seq<Line>)
    requires WellTyped(lines)
    ensures Parsed(data, mul, lines).errors == 0 <==> AllOk(data, mul, lines)
  {
    hide InReach, Offset, TextPass, PatchPass, LineOk, EarlyOk, Resolves;
    var t := TextPass(Fresh(data, mul), lines, |lines|);
    BackPatchInCode(data, mul, lines, |lines|);
    PatchPassErrors(t, |t.backPatch|);
    ErrorsStay(data, mul, lines, |lines|);
    if Parsed(data, mul, lines).errors == 0 {
      forall i | 0 <= i < |lines| ensures LineOk(data, mul, lines, i) {
        assert EarlyOk(data, mul, lines, i);
        LabelOk(data, mul, lines, i);
        if !lines[i].Label? { LineFinal(data, mul, lines, i); }
      }
    }
    if AllOk(data, mul, lines) {
      forall i | 0 <= i < |lines| ensures EarlyOk(data, mul, lines, i) {
        assert LineOk(data, mul, lines, i);
        OkIsEarlyOk(data, mul, lines, i);
      }
      forall m | 0 <= m < |t.backPatch| ensures Resolves(t.symbols, t.code[t.backPatch[m]], t.backPatch[m]) {
        OkResolves(data, mul, lines, m);
      }
    }
  }

  lemma LabelOk(data: Symbols, mul: bool, lines: seq<Line>, i: nat)
    requires i < |lines|
    ensures lines[i].Label? && EarlyOk(data, mul, lines, i) ==> LineOk(data, mul, lines, i)
  {
  }
}
