/** From the lines of the text section to instruction words whose immediates lead to their labels. */
module TextAssembler {
  import opened InstructionSet
  import opened CodeGenerator
  import opened Limbs
  import opened SymbolTable
  import opened TextLayout
  import opened TextParser

  predicate RegistersIn(lines: seq<Line>) {
    forall i :: 0 <= i < |lines| && lines[i].Labelled? ==> RegistersOk(lines[i].unit)
  }

  /** Where the machine finds what a symbol names: data addresses are relative to the data section. */
  function Home(s: Symbol, base: u64): u64 { if s.isData then (base + s.Word()) % B else s.Word() }

  /** The address the machine goes to when it takes the transfer that line i became. */
  function Taken(code: seq<Block>, lines: seq<Line>, i: nat): u64
    requires i < |lines| && Index(lines, i) < |code|
  {
    Landing(Index(lines, i), Encode(code[Index(lines, i)].unit))
  }

  /** The block of line i is aimed at the symbol of its target. */
  lemma AimedBlock(data: Symbols, mul: bool, lines: seq<Line>, i: nat)
    requires WellTyped(lines)
    requires i < |lines| && lines[i].Labelled?
    requires Parsed(data, mul, lines).errors == 0
    ensures lines[i].target in Table(data, lines, |lines|)
    ensures var u, k, a := lines[i].unit, Index(lines, i), Table(data, lines, |lines|)[lines[i].target].Word();
            && k < |Parsed(data, mul, lines).code|
            && InReach(u.op, Offset(a, k))
            && Parsed(data, mul, lines).code[k].unit == Aim(u, a, k)
  {
    hide InReach, Offset, Aim, Parsed, Table, Index;
    LineFinal(data, mul, lines, i);
  }

  /** Transfers go to the address in the symbol table, rounded down to an even one. */
  lemma TransferGoes(data: Symbols, mul: bool, lines: seq<Line>, i: nat)
    requires WellTyped(lines) && RegistersIn(lines)
    requires i < |lines| && lines[i].Labelled?
    requires Parsed(data, mul, lines).errors == 0
    ensures lines[i].target in Table(data, lines, |lines|)
    ensures Index(lines, i) < |Parsed(data, mul, lines).code|
    ensures var a := Table(data, lines, |lines|)[lines[i].target].Word();
            Taken(Parsed(data, mul, lines).code, lines, i) == a - a % 2
  {
    hide InReach, Offset, Aim, Parsed, Table, Index, Landing, Encode;
    AimedBlock(data, mul, lines, i);
    var u, k, a := lines[i].unit, Index(lines, i), Table(data, lines, |lines|)[lines[i].target].Word();
    assert RegistersOk(u);
    Arrives(u, a, k);
  }

  /** A code symbol stands for an instruction, so its address is a multiple of four. */
  lemma {:induction false} CodeSymbolAligned(data: Symbols, lines: seq<Line>, n: nat, name: string) returns (q: int)
    requires n <= |lines| && name in Table(data, lines, n) && !Table(data, lines, n)[name].isData
    requires name in data ==> data[name].isData
    ensures Table(data, lines, n)[name].Word() == 4 * q
  {
    hide Index, Pc;
    if name in Table(data, lines, n - 1) {
      q := CodeSymbolAligned(data, lines, n - 1, name);
    } else {
      PcIsMultiple(Index(lines, n - 1));
      q := Pc(Index(lines, n - 1)) / 4;
    }
  }

  predicate DataOnly(data: Symbols) { forall l :: l in data ==> data[l].isData }

  /**
   Main result: in a file parsed without errors a transfer arrives at its label exactly when the label
   is a code label, or a data label for which the start of the data section makes up for the bit the
   encoding drops: the back-patch of a jump leaves out that start.
   */
  lemma TransferArrives(data: Symbols, mul: bool, lines: seq<Line>, i: nat, base: u64)
    requires WellTyped(lines) && RegistersIn(lines) && DataOnly(data)
    requires i < |lines| && lines[i].Labelled?
    requires Parsed(data, mul, lines).errors == 0
    ensures lines[i].target in Table(data, lines, |lines|)
    ensures Index(lines, i) < |Parsed(data, mul, lines).code|
    ensures var s := Table(data, lines, |lines|)[lines[i].target];
            Taken(Parsed(data, mul, lines).code, lines, i) == Home(s, base)
            <==> (s.isData ==> (base + s.Word() % 2) % B == 0)
  {
    hide Parsed, Table, Index, Taken;
    TransferGoes(data, mul, lines, i);
    var s := Table(data, lines, |lines|)[lines[i].target];
    if s.isData {
      BaseMatters(base, s.Word());
    } else {
      var q := CodeSymbolAligned(data, lines, |lines|, lines[i].target);
      Parity(0, 2 * q);
    }
  }

  lemma BaseMatters(base: u64, address: u64)
    ensures address - address % 2 == (base + address) % B <==> (base + address % 2) % B == 0
  {
    var b := address % 2;
    assert (base + address) % B == if base + address < B then base + address else base + address - B;
    assert (base + b) % B == if base + b < B then base + b else base + b - B;
  }

  /** Main result: a transfer to a code label, before or after it, arrives at the instruction at the label. */
  lemma CodeLabelReached(data: Symbols, mul: bool, lines: seq<Line>, i: nat, j: nat)
    requires WellTyped(lines) && RegistersIn(lines)
    requires Parsed(data, mul, lines).errors == 0
    requires i < |lines| && lines[i].Labelled?
    requires j < |lines| && lines[j].Label? && lines[j].name == lines[i].target
    ensures Index(lines, i) < |Parsed(data, mul, lines).code|
    ensures Taken(Parsed(data, mul, lines).code, lines, i) == Pc(Index(lines, j))
  {
    hide InReach, Offset, Aim, Parsed, Table, Index, Taken, LineOk;
    TransferGoes(data, mul, lines, i);
    ErrorFree(data, mul, lines);
    assert LineOk(data, mul, lines, j);
    LabelAddress(data, mul, lines, j);
    PcIsMultiple(Index(lines, j));
    hide Pc;
    Parity(0, 2 * (Pc(Index(lines, j)) / 4));
  }

  // A file with one data label, at offset 0, and a jump to it.
  const JUMP := ICUnit(Jal, 1, 0, 0, 0, 0, 0, 0)
  const JUMPDATA: Symbols := map["x" := Symbol(0, 1, true)]
  const JUMPLINES: seq<Line> := [Labelled(JUMP, "x")]

  lemma JumpTable()
    ensures Table(JUMPDATA, JUMPLINES, 1) == JUMPDATA && Index(JUMPLINES, 0) == 0
    ensures JUMPDATA["x"].Word() == 0 && Offset(0, 0) == 0
  {
  }

  lemma JumpAccepted()
    ensures Parsed(JUMPDATA, true, JUMPLINES).errors == 0
  {
    hide Parsed, Table, Index, Offset, Symbol.Word;
    JumpTable();
    assert LineOk(JUMPDATA, true, JUMPLINES, 0);
    ErrorFree(JUMPDATA, true, JUMPLINES);
  }

  /** A jump to a data label, also at an even offset, is accepted, and goes to the text section instead. */
  lemma DataLabelMissed()
    ensures Parsed(JUMPDATA, true, JUMPLINES).errors == 0
    ensures Index(JUMPLINES, 0) < |Parsed(JUMPDATA, true, JUMPLINES).code|
    ensures Taken(Parsed(JUMPDATA, true, JUMPLINES).code, JUMPLINES, 0) == 0
    ensures Home(JUMPDATA["x"], 0x1000_0000) == 0x1000_0000
  {
    hide Parsed, Table, Index, Taken, Offset;
    JumpTable();
    JumpAccepted();
    TransferGoes(JUMPDATA, true, JUMPLINES, 0);
  }

  lemma CodeLength(data: Symbols, mul: bool, lines: seq<Line>)
    requires WellTyped(lines) && Parsed(data, mul, lines).errors == 0
    ensures |Parsed(data, mul, lines).code| == Index(lines, |lines|)
  {
    hide Index, TextPass, PatchPass;
    var t := TextPass(Fresh(data, mul), lines, |lines|);
    BackPatchInCode(data, mul, lines, |lines|);
    PatchPassErrors(t, |t.backPatch|);
    ErrorsStay(data, mul, lines, |lines|);
  }

  // ------------------------------------------------------------ the parser

  class Parser {
    var instructionIndex: nat
    var intermediateCode: seq<Block>
    var backPatch: seq<nat>
    var symbolTable: Symbols
    var errors: nat
    const mExtension: bool

    ghost predicate Valid()
      reads this
    {
      instructionIndex == |intermediateCode| && InCode(State())
    }

    ghost function State(): Text
      reads this
    {
      Text(intermediateCode, backPatch, symbolTable, errors, mExtension)
    }

    /** The second pass starts with the data section's symbols. */
    constructor (data: Symbols, mul: bool)
      ensures Valid() && State() == Fresh(data, mul)
    {
      mExtension := mul;
      instructionIndex, intermediateCode, backPatch, symbolTable, errors := 0, [], [], data, 0;
    }

    method ParseLine(line: Line)
      requires Valid()
      requires line.Labelled? ==> IsTransfer(line.unit)
      modifies this
      ensures Valid() && State() == OneLine(old(State()), line)
    {
      hide InReach, Offset, Pc, InCode, IsMultiplyDivide;
      OneLineInCode(State(), line);
      match line {
        case Label(name, line) =>
          if name in symbolTable {
            errors := errors + 2;
          } else {
            symbolTable := symbolTable[name := Symbol(Pc(instructionIndex), line, false)];
          }
        case Plain(u) =>
          if IsMultiplyDivide(u.op) && !mExtension {
            errors := errors + 2;
            return;
          }
          Emit(Block(u, "", true));
        case Labelled(u, target) =>
          if target in symbolTable && !symbolTable[target].isData {
            var address := symbolTable[target].Word();
            if InReach(u.op, Offset(address, instructionIndex)) {
              Emit(Block(Aim(u, address, instructionIndex), target, true));
            } else {
              errors := errors + 2;
            }
          } else {
            backPatch := backPatch + [instructionIndex];
            Emit(Block(u, target, false));
          }
      }
    }

    method Emit(b: Block)
      modifies `intermediateCode, `instructionIndex
      ensures intermediateCode == old(intermediateCode) + [b] && instructionIndex == old(instructionIndex) + 1
    {
      intermediateCode := intermediateCode + [b];
      instructionIndex := instructionIndex + 1;
    }

    method ParseTextDirective(lines: seq<Line>)
      requires Valid() && WellTyped(lines)
      modifies this
      ensures Valid() && State() == TextPass(old(State()), lines, |lines|)
    {
      hide OneLine, InCode;
      for n := 0 to |lines|
        invariant Valid() && State() == TextPass(old(State()), lines, n)
      {
        ParseLine(lines[n]);
      }
    }

    method PatchBlock(index: nat)
      requires Valid() && index < |intermediateCode|
      modifies this
      ensures Valid() && backPatch == old(backPatch) && symbolTable == old(symbolTable)
      ensures var b := old(intermediateCode)[index];
              && intermediateCode == old(intermediateCode)[index := Patched(symbolTable, b, index)]
              && errors == old(errors) + if Resolves(symbolTable, b, index) then 0 else 2
    {
      hide InReach, Offset;
      var block := intermediateCode[index];
      if block.target in symbolTable {
        var s := symbolTable[block.target];
        if block.unit.op.Branch? {
          if !s.isData {
            if InReach(block.unit.op, Offset(s.Word(), index)) {
              block := block.(unit := Aim(block.unit, s.Word(), index));
            } else {
              errors := errors + 2;
              return;
            }
          } else {
            errors := errors + 2;
          }
        } else if block.unit.op.Jal? {
          if InReach(block.unit.op, Offset(s.Word(), index)) {
            block := block.(unit := Aim(block.unit, s.Word(), index));
          } else {
            errors := errors + 2;
            return;
          }
        } else {
          errors := errors + 2;
          return;
        }
        intermediateCode := intermediateCode[index := block.(known := true)];
      } else {
        errors := errors + 2;
      }
    }

    method BackPatch()
      requires Valid()
      modifies this
      ensures Valid() && State() == PatchPass(old(State()), |old(backPatch)|)
    {
      hide Resolves, Patched;
      for n := 0 to |backPatch|
        invariant Valid() && backPatch == old(backPatch)
        invariant State() == PatchPass(old(State()), n)
      {
        PatchBlock(backPatch[n]);
      }
    }

    /** Both passes over the text section of a file. */
    method Parse(lines: seq<Line>)
      requires Valid() && State() == Fresh(symbolTable, mExtension) && WellTyped(lines)
      modifies this
      ensures State() == Parsed(old(symbolTable), mExtension, lines)
      ensures errors == 0 <==> AllOk(old(symbolTable), mExtension, lines)
    {
      hide InCode, PatchPass, AllOk;
      ErrorFree(symbolTable, mExtension, lines);
      ParseTextDirective(lines);
      BackPatch();
    }
  }

  // ------------------------------------------------------------ what is accepted, said of the lines and words

  /** The word of transfer u brings the distance back, up to the bit the formats drop. */
  predicate Carries(u: ICUnit, distance: int) {
    Signed32(ImmGenerator(Encode(u.(imm := Int32(distance))))) == distance - distance % 2
  }

  predicate NewLabel(data: Symbols, lines: seq<Line>, i: nat)
    requires i < |lines| && lines[i].Label?
  {
    && lines[i].name !in data
    && forall j :: 0 <= j < i ==> !(lines[j].Label? && lines[j].name == lines[i].name)
  }

  /**
   A label is new, a multiplication or division is enabled, and a transfer names a label, a branch one
   in the code, whose distance its word can carry.
   */
  predicate Acceptable(data: Symbols, mul: bool, lines: seq<Line>, i: nat)
    requires i < |lines|
  {
    match lines[i]
    case Label(_, _) => NewLabel(data, lines, i)
    case Plain(u) => mul || !u.op.R? || EncodingOf(u.op).funct7 != 1
    case Labelled(u, target) =>
      var table := Table(data, lines, |lines|);
      && target in table
      && (table[target].isData ==> u.op.Jal?)
      && Carries(u, Offset(table[target].Word(), Index(lines, i)))
  }

  predicate AllAcceptable(data: Symbols, mul: bool, lines: seq<Line>) {
    forall i :: 0 <= i < |lines| ==> Acceptable(data, mul, lines, i)
  }

  lemma {:induction false} TableNames(data: Symbols, lines: seq<Line>, i: nat, name: string)
    requires i <= |lines|
    ensures name in Table(data, lines, i)
            <==> name in data || exists j :: 0 <= j < i && lines[j].Label? && lines[j].name == name
  {
    hide Index, Pc;
    if i > 0 { TableNames(data, lines, i - 1, name); }
  }

  lemma OkIsAcceptable(data: Symbols, mul: bool, lines: seq<Line>, i: nat)
    requires WellTyped(lines) && RegistersIn(lines) && i < |lines|
    ensures LineOk(data, mul, lines, i) <==> Acceptable(data, mul, lines, i)
  {
    hide Index, Table, Offset, Encode, ImmGenerator, Int32, Signed32, InReach, EncodingOf, IsMultiplyDivide;
    match lines[i] {
      case Label(name, _) => TableNames(data, lines, i, name);
      case Plain(u) => MultiplyDivideByFunct7(u.op);
      case Labelled(u, target) =>
        var table := Table(data, lines, |lines|);
        assert RegistersOk(u) && IsTransfer(u);
        if target in table { ReachIsExact(u, Offset(table[target].Word(), Index(lines, i))); }
    }
  }

  /** Main result: the conditions under which no line is an error are exactly those of the lines and their words. */
  lemma AcceptedExactly(data: Symbols, mul: bool, lines: seq<Line>)
    requires WellTyped(lines) && RegistersIn(lines)
    ensures AllOk(data, mul, lines) <==> AllAcceptable(data, mul, lines)
  {
    hide LineOk, Acceptable;
    forall i | 0 <= i < |lines| ensures LineOk(data, mul, lines, i) <==> Acceptable(data, mul, lines, i) {
      OkIsAcceptable(data, mul, lines, i);
    }
  }

  /** The word is that of line i: as written, or with the distance to its label for its immediate. */
  predicate IsWordOf(word: bv32, data: Symbols, lines: seq<Line>, i: nat)
    requires i < |lines| && !lines[i].Label?
  {
    match lines[i]
    case Plain(u) => word == Encode(u)
    case Labelled(u, target) =>
      var table := Table(data, lines, |lines|);
      && target in table
      && word == Encode(u.(imm := Int32(Offset(table[target].Word(), Index(lines, i)))))
  }

  lemma FinalWord(data: Symbols, mul: bool, lines: seq<Line>, i: nat)
    requires i < |lines| && !lines[i].Label? && LineOk(data, mul, lines, i)
    ensures IsWordOf(Encode(Final(data, lines, i).unit), data, lines, i)
  {
    hide Index, Table, Offset, Encode, Int32, InReach, IsMultiplyDivide;
  }

  predicate LabelOf(lines: seq<Line>, i: nat, j: nat) {
    i < |lines| && j < |lines| && lines[i].Labelled? && lines[j].Label? && lines[j].name == lines[i].target
  }

  /**
   Main result: parse, then generate the words. There is one word for each line that is no label, in
   order, and every transfer to a code label goes to the address of the instruction at the label. A
   file is refused only if a line cannot be assembled.
   */
  method Assemble(data: Symbols, mul: bool, lines: seq<Line>) returns (ok: bool, words: seq<bv32>)
    requires WellTyped(lines) && RegistersIn(lines)
    ensures ok <==> AllAcceptable(data, mul, lines)
    ensures ok ==> |words| == Index(lines, |lines|)
    ensures ok ==> forall i :: 0 <= i < |lines| && !lines[i].Label? ==>
              Index(lines, i) < |words| && IsWordOf(words[Index(lines, i)], data, lines, i)
    ensures ok ==> forall i, j :: LabelOf(lines, i, j) ==>
              && Index(lines, i) < |words|
              && Landing(Index(lines, i), words[Index(lines, i)]) == Pc(Index(lines, j))
  {
    hide Parsed, AllOk, AllAcceptable, LineOk, IsWordOf, Index, Landing, Pc, Encode, Final;
    AcceptedExactly(data, mul, lines);
    var parser := new Parser(data, mul);
    parser.Parse(lines);
    ok, words := parser.errors == 0, [];
    if ok {
      var blocks := parser.intermediateCode;
      words := GenerateMachineCode(seq(|blocks|, i requires 0 <= i < |blocks| => blocks[i].unit));
      CodeLength(data, mul, lines);
      forall i | 0 <= i < |lines| && !lines[i].Label?
        ensures Index(lines, i) < |words| && IsWordOf(words[Index(lines, i)], data, lines, i)
      {
        LineFinal(data, mul, lines, i);
        FinalWord(data, mul, lines, i);
      }
      forall i: nat, j: nat | LabelOf(lines, i, j)
        ensures Index(lines, i) < |words|
                && Landing(Index(lines, i), words[Index(lines, i)]) == Pc(Index(lines, j))
      {
        CodeLabelReached(data, mul, lines, i, j);
      }
    }
  }
}
