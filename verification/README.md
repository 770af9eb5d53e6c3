# Verification of the RISC-V simulator: big multiplier, assembler, loader, memory

The simulator executes RV64 programs with a custom instruction that multiplies two 4096-bit
numbers. This project models, in Dafny, the parts where a wrong step would go unnoticed longest,
and proves what they compute for every input.

* **The multiplier.** Two numbers of 64-bit limbs are multiplied diagonal by diagonal, at most 25
  limb products a clock. Four engines share the registers: one without a pipeline, one with a
  four-stage adder pipeline, one with generate/load/multiply registers, and one that adds a five-slot
  delay queue whose latency depends on the batch sizes. `Machine` states the four engines as one
  transition function over unbounded integers; its invariant says that the words already written, the
  accumulator, everything in flight and everything not yet generated add up to the diagonals seen so
  far. `MachineProofs` and `MachineRuns` prove the invariant, termination, the exact number of calls
  and the result. `BigMulUnit` is the unit itself, with its 64-bit accumulator words, arrays, batch
  structures and delay queue; each of its clock methods is proved equal to the transition function,
  so no 192-bit addition wraps and no batch is dropped.
* **The reference multiplier** of the test program, a schoolbook algorithm with in-place carries, is
  proved on its arrays and shown to write the same words.
* **The memory**, a map of blocks allocated on demand, refines a flat zero-initialised byte array; in
  any sequence of accesses a load gives the bytes stored last.
* **The data section.** The parser assigns addresses and the loader places elements, each with its own
  alignment loop. They are proved to agree, and loads behind a label give the numbers, floats, strings
  and zeros written in its directive. Which sections are accepted, where they end and which labels they
  define is stated on the tokens.
* **The text section.** Labels, immediate operands computed at once, and the back-patch pass. A file is
  accepted exactly when every label is new, every instruction enabled and every transfer's word can carry
  the distance to its label; then every transfer to a code label, encoded, loaded, fetched, decoded and taken, arrives at its
  label.
* **Encoding.** All formats; a disassembler inverts the code generator and the code generator inverts the
  disassembler, so encoding is injective and no word has a stray bit; the machine's immediate decoder
  inverts it as well.
* **The line map** behind line breakpoints, and **the multiply group** of the arithmetic unit.

Modules, from the bottom up: `Limbs`, `Convolution`, `Machine`, `MachineProofs`, `MachineRuns`,
`BigMulWords`, `BigMulUnit`, `Schoolbook`; `BlockMemory`, `MainMemory`, `DataLayout`, `SymbolTable`,
`DataParser`, `SectionLabels`, `EmptyDirectives`, `DataValues`, `DataGrammar`, `LineMap`,
`VirtualMachine`, `DataEndToEnd`; `InstructionSet`, `CodeGenerator`, `Disassembly`, `Reassembly`,
`TextLayout`, `TextParser`, `TextAssembler`, `ProgramEndToEnd`; `Alu`.

What the proofs found about the code:

* The two engines that take the operand size from the unit read past their 64-limb caches for the sizes
  65 to 511, which the decode stage accepts (`MachineRuns.ReadsInBounds`, `MachineRuns.OverrunAt65`).
* The operand size is not part of the undo snapshot. Executing the instruction again after an undo
  reproduces the result exactly when it brings its own size, or the size has not changed in between, or
  the engine has its size built in (`BigMulUnit.RerunNeedsSameSize`).
* The bound check of a sized write wraps when the memory is smaller than the access less one byte; such
  a write leaves bytes behind before it faults (`BlockMemory.AtomicStores`).
* A labelled data directive without elements is accepted, and the parser pads for it while the loader
  does not. The labels of an error-free section address their elements exactly when, at each of them,
  padding for all the labels that wait there comes to the same offset as padding for the element
  (`SectionLabels.SectionExact`). Otherwise the label behind can be misplaced
  (`EmptyDirectives.EmptyDirectiveMisplaces`), and so can labels behind later elements
  (`EmptyDirectives.PaddingSpreads`).
* Engines with the size built in and engines that take it from the unit write the same words only at 64
  limbs (`BigMulUnit.EnginesAgreeOnUnit`).
* A jump to a data label is accepted, but its offset leaves out the start of the data section. It arrives
  exactly when that start plus the lowest bit of the label's offset is zero modulo 2^64, so with the
  default start never (`TextAssembler.TransferArrives`, `TextAssembler.DataLabelMissed`).
* The immediate decoder has no case for the opcode of `addiw` and of the word shifts and gives zero
  there (`Disassembly.ImmediateRoundTrip`, `Disassembly.ShiftAmount`).

Requirements on memory size, address ranges and register numbers are those of the configuration and of
the parser's tables. Immediates are the 32 bits of the generator's `int32_t`; their ranges are
compared after shifting them to start at zero. Files under `src` are cited by path and line.

## Model

| member | source | states |
|---|---|---|
| Convolution.ConvolutionIsProduct | src/vm/bigmul_unit.cpp:216-287 | the diagonals, weighted by powers of 2^64, sum to the product of the operands |
| MachineProofs.AdvanceConserves | src/vm/bigmul_unit.cpp:546-619 | a clock of any engine neither loses nor invents a partial product: accumulator, queue, registers and ungenerated pairs keep their sum |
| MachineProofs.CarryBound | src/vm/bigmul_unit.cpp:97-101 | the carry into a diagonal plus the diagonal stays within N*(2^64-1)*2^64, for every N |
| MachineProofs.LastWord | src/vm/bigmul_unit.cpp:261-270 | after the last diagonal the leftover carry fits one word and completes the product |
| MachineProofs.AdvanceKeepsBatchBound | src/vm/bigmul_unit.cpp:114-124 | the number of batches in flight of one diagonal never exceeds the batches its length allows |
| MachineProofs.StartInv | src/vm/bigmul_unit.cpp:162-189 | starting the unit establishes the invariant from any earlier state |
| MachineProofs.StepInv | src/vm/bigmul_unit.cpp:207-647 | a clock keeps the invariant, or ends the run with the product written |
| MachineRuns.RankDrops | src/vm/bigmul_unit.cpp:538-647 | each clock brings the end of the diagonal exactly one call nearer, for the delay queue as well |
| MachineRuns.Stage7OnSchedule | src/vm/bigmul_unit.cpp:546-600 | the delay queue releases every queued batch on schedule |
| MachineRuns.RunComputesProduct | src/vm/bigmul_unit.cpp:207-647 | from any state, calling an engine until it stops writes exactly the 2N words of A*B and leaves the rest of the result alone, for every N >= 1; the two staged engines are the unit's for N = 64, the size built into them |
| MachineRuns.EnginesAgree | src/vm/bigmul_unit.cpp:207-647 | engines given the same N limbs write the same words, also from different hidden states; the two staged engines are the unit's for N = 64 |
| BigMulUnit.EnginesAgreeOnUnit | src/vm/bigmul_unit.cpp:207-647 | on one unit two engines write the same words for all operands if and only if the operand size is 64, or both take it, or neither does |
| MachineRuns.CallsOfRun | src/vm/bigmul_unit.cpp:216-287 | the number of calls is a sum over the diagonals, whatever the operands |
| MachineRuns.CallsAt64 | src/vm/bigmul_unit.cpp:216-287 | for 64 limbs: 231, 739 and 612 calls for the three engines without a delay queue |
| MachineRuns.Stage7CallsAt64 | src/vm/bigmul_unit.cpp:538-647 | for 64 limbs the engine with the delay queue takes 1175 calls |
| MachineRuns.Stage7DiagCalls | src/vm/bigmul_unit.cpp:105-112 | how long a diagonal of each length takes, given the adder-tree depth of its batches |
| MachineRuns.EveryPairOnce | src/vm/bigmul_unit.cpp:226-235 | a run visits every pair of limb indices exactly once and no other pair |
| MachineRuns.ReadsInBounds | src/vm/bigmul_unit.cpp:233-235 | every cache read of a run is inside the caches if and only if the operands are no longer than the caches |
| MachineRuns.OverrunAt65 | src/vm/rvss/rvss_vm.cpp:90-92 | a run with the accepted size 65 reads limb 64 of both 64-limb caches |
| BigMulWords.AddWide | src/vm/bigmul_unit.cpp:92-95 | three-word addition with carries is exact modulo 2^192 |
| BigMulWords.AddProduct | src/vm/bigmul_unit.cpp:236-252 | adding one limb product to three words is exact |
| BigMulWords.AccumulatorFits | src/vm/bigmul_unit.cpp:80-101 | in every state of a run the accumulator after the next clock is below 2^192 |
| BigMulWords.QueueHasRoom | src/vm/bigmul_unit.cpp:120-124 | at most three batches are in flight, so the queue has a free slot whenever one is pushed |
| BigMulUnit.Unit.AccAddU128 | src/vm/bigmul_unit.cpp:80-90 | the accumulator grows by the two-word number |
| BigMulUnit.Unit.AccAddU192 | src/vm/bigmul_unit.cpp:92-95 | the accumulator grows by the three-word number |
| BigMulUnit.Unit.AccShr64 | src/vm/bigmul_unit.cpp:97-101 | the accumulator is divided by 2^64 |
| BigMulUnit.Unit.DqPopFront | src/vm/bigmul_unit.cpp:114-118 | the queue loses its first batch |
| BigMulUnit.Unit.DqPush | src/vm/bigmul_unit.cpp:120-124 | the queue gains the batch at its end, if there is room |
| BigMulUnit.Unit.StartBigmul | src/vm/bigmul_unit.cpp:162-189 | every hidden register gets the start value |
| BigMulUnit.Unit.Singlecycle | src/vm/bigmul_unit.cpp:207-289 | one call is one transition of the unpipelined engine |
| BigMulUnit.Unit.CsaOnlyPipeline | src/vm/bigmul_unit.cpp:291-427 | one call is one transition of the engine with the adder pipeline |
| BigMulUnit.Unit.Staged3Pipeline | src/vm/bigmul_unit.cpp:431-536 | one call is one transition of the generate/load/multiply engine |
| BigMulUnit.Unit.Stage7Pipeline | src/vm/bigmul_unit.cpp:538-647 | one call is one transition of the engine with the delay queue |
| BigMulUnit.Unit.Multiply | src/vm/bigmul_unit.cpp:207-647 | calling an engine until it clears the write flag leaves the product of the caches in the result cache, after a known number of calls |
| BigMulUnit.Unit.Arm | src/vm/rvss/rvss_vm.cpp:84-98 | the decode stage readies an idle unit; the size becomes the register's value if that is 1 to 511 and stays otherwise; a busy unit is left alone |
| BigMulUnit.Unit.DecodeAndMultiply | src/vm/rvss/rvss_vm.cpp:84-98 | decoding on an idle unit and running: the product of as many limbs as the register says for 1 to 64, of the old size for 0 and for 512 and more, of all 64 on the staged engines, after the known number of calls |
| BigMulUnit.Unit.Restore | src/vm/bigmul_unit.cpp:730-749 | restoring puts exactly those back |
| BigMulUnit.Unit.RestoreAndMultiply | src/vm/bigmul_unit.cpp:707-749 | restoring any snapshot of an idle or an armed unit into any unit, decoding and running again gives the words its caches and the operand size determine |
| BigMulUnit.Unit.ExecuteUndoExecute | src/vm/bigmul_unit.cpp:707-749 | snapshot, execute, restore, execute again: the same words twice, the product of the operands |
| BigMulUnit.RerunNeedsSameSize | src/vm/rvss/rvss_vm.cpp:90-92 | executing again gives the same words for all operands if and only if the engine has its size built in, the instruction brings a size, or the unit still has the size |
| Schoolbook.RowLoop | bigmul_testcases/testing.c:68-75 | the inner loop adds one limb times an operand, the 128-bit sum never overflowing |
| Schoolbook.AddRow | bigmul_testcases/testing.c:66-77 | a row lands on words that are still zero above it and adds exactly its value |
| Schoolbook.MultiplyBignum | bigmul_testcases/testing.c:63-78 | the result array holds the exact product, for operands of any length |
| Schoolbook.ReferenceMatchesUnit | bigmul_testcases/testing.c:63-78 | the reference and every engine write the same words |
| BlockMemory.BytesRoundTrip | src/vm/main_memory.cpp:60-75 | little-endian bytes give the value back |
| BlockMemory.ByteByShift | src/vm/main_memory.cpp:71-75 | byte i of a stored value is the value shifted right by 8*i |
| BlockMemory.LoadAfterStore | src/vm/main_memory.cpp:84-157 | a load returns what was stored, and bytes elsewhere are unchanged |
| BlockMemory.LoadIsExact | src/vm/main_memory.cpp:84-103 | a sized load returns its bytes or faults exactly when one of them does not exist, for every memory size |
| BlockMemory.AtomicStores | src/vm/main_memory.cpp:131-157 | a sized store is all or nothing if and only if the memory is empty or not smaller than the access less one byte |
| BlockMemory.PartialStore | src/vm/main_memory.cpp:138-157 | a store that faults after writing a byte |
| MainMemory.Memory.Read | src/vm/main_memory.cpp:21-31 | a byte read gives the latest byte, zero if there is none, or faults outside the memory |
| MainMemory.Memory.Write | src/vm/main_memory.cpp:33-41 | a byte write changes that byte only, or faults and changes nothing |
| MainMemory.Memory.EnsureBlockExists | src/vm/main_memory.cpp:55-59 | a missing block is added as zeros, the others stay |
| MainMemory.Memory.ReadGeneric | src/vm/main_memory.cpp:60-69 | the byte loop gives the little-endian number |
| MainMemory.Memory.WriteGeneric | src/vm/main_memory.cpp:70-75 | the byte loop writes the little-endian bytes up to the first fault |
| MainMemory.Memory.LoadSized | src/vm/main_memory.cpp:84-103 | a sized load is the load of the flat memory |
| MainMemory.Memory.StoreSized | src/vm/main_memory.cpp:131-157 | a sized store is the bound check and the byte loop on the flat memory, and the all-or-nothing store whenever the bound does not wrap |
| MainMemory.Memory.Execute | src/vm/main_memory.cpp:21-157 | any sequence of sized accesses, overlapping or across blocks, behaves as the code's accesses to a flat byte array, and as exact loads and all-or-nothing stores when the memory is empty or has seven bytes |
| MainMemory.FlatFromSeven | src/vm/main_memory.cpp:84-157 | all sequences of sized accesses are exact loads and all-or-nothing stores if and only if the memory is empty or has at least seven bytes |
| MainMemory.LatestBytes | src/vm/main_memory.cpp:21-157 | in every sequence of accesses a load gives the bytes stored last, lowest first, zero where there are none, and an access faults if and only if it leaves the memory |
| MainMemory.FreshLoad | src/vm/main_memory.cpp:21-31 | a load from a memory nothing was written to gives zero |
| DataLayout.OffsetsApart | src/vm/vm_base.cpp:32-79 | elements do not overlap |
| DataLayout.OffsetsExact | src/vm/vm_base.cpp:34-79 | an element lies at the first multiple of its size (1, 2, 4 or 8; any offset for a string) behind the element before it |
| DataLayout.DataImageHolds | src/vm/vm_base.cpp:40-79 | later elements never disturb earlier ones |
| DataLayout.ElementLoaded | src/vm/vm_base.cpp:32-79 | every element is in memory at its offset |
| DataLayout.InstructionLoaded | src/vm/vm_base.cpp:24-29 | every instruction below the data section is fetched as assembled |
| DataParser.Parser.ParseItems | src/assembler/parser.cpp:109-247 | the token loop of a directive computes the elements, offset and errors of its specification |
| DataParser.Parser.ParseDataDirective | src/assembler/parser.cpp:63-269 | the token loop computes the section of its specification, and keeps parser and loader in step |
| DataParser.SectionAgrees | src/assembler/parser.cpp:63-248 | in an error-free section whose labels have elements every label address is the loader's offset of the element it marks |
| DataGrammar.Accepted | src/assembler/parser.cpp:63-269 | a section in which labels stand before directives, directives are one of the nine, and every other token is an element or comma of one, has no errors |
| DataGrammar.SectionEnds | src/assembler/parser.cpp:68-72 | a section ends at the first token that starts another one or ends the file, and without errors every label in it stands before one of the nine directives and every other word is one |
| DataGrammar.SymbolsDefined | src/assembler/parser.cpp:111 | the symbol table holds exactly the labels in front of the section's end |
| DataGrammar.ScanFromLabels | src/assembler/parser.cpp:111 | every symbol of the section is a data symbol with the line of a label of its name |
| DataValues.CommaSeparated | src/assembler/parser.cpp:109-247 | element t of a list with commas is the token 2t behind the first |
| DataValues.DirectiveLoad | src/assembler/parser.cpp:109-247 | from a label's address on, the loaded memory holds the bytes of all element tokens of the label's directive, without gaps |
| DataValues.TokensRead | src/assembler/parser.cpp:109-247 | those bytes read back are the tokens: number j modulo 256 to the power of the directive's width, the bits of float or double j, the characters of string j and a zero byte, or as many zeros as the zero directives say |
| SectionLabels.SectionExact | src/assembler/parser.cpp:63-248 | in every error-free section the labels that have an element all address it if and only if padding for the directives of the labels waiting at an element always comes to the same offset as padding for the element |
| SectionLabels.TableExact | src/assembler/parser.cpp:63-248 | the same for the symbol table, when no label is defined twice |
| EmptyDirectives.EmptyDirective | src/assembler/parser.cpp:75-96 | where a labelled directive without elements stands directly in front of a labelled one with an element, in a section in step so far, the second label is right if and only if the first one's padding does not exceed its own, and the first if and only if both pad alike |
| EmptyDirectives.RunningOffset | src/assembler/parser.cpp:75-96 | after such a directive and an element, parser and loader are in step if and only if the label's padding does not exceed the element's |
| EmptyDirectives.EmptyDirectiveMisplaces | src/assembler/parser.cpp:75-96 | an input: a section accepted without errors in which the next label is right if and only if the directive needs no alignment |
| EmptyDirectives.PaddingSpreads | src/assembler/parser.cpp:63-248 | an input: an accepted section in which a label behind a later element gets address 8 while its element is loaded at offset 4 |
| LineMap.Invert | src/assembler/assembler.cpp:56-72 | every line up to the last is sent to the first instruction at or after it, for several instructions on a line too |
| LineMap.FirstFromUnique | src/assembler/assembler.cpp:56-72 | there is only one such instruction |
| VirtualMachine.LineBreakpoint | src/vm/vm_base.cpp:176-189 | a line breakpoint goes to the first instruction at or after its line |
| VirtualMachine.AddThenRemove | src/vm/vm_base.cpp:176-233 | removing a breakpoint undoes adding it, and breakpoints stay distinct |
| VirtualMachine.AddedMeans | src/vm/vm_base.cpp:176-203 | for every request, repeated or not: no repetitions arise, at most one element comes behind the others, the elements are the old ones and the target, and the same request again changes nothing |
| VirtualMachine.WithoutPlace | src/vm/vm_base.cpp:205-233 | removal takes the breakpoint out of its place and keeps the order of the others |
| VirtualMachine.WithoutHolds | src/vm/vm_base.cpp:205-233 | removal takes away that breakpoint and no other |
| VirtualMachine.VmBase.AddBreakpoint | src/vm/vm_base.cpp:176-203 | a misaligned address and a line the map does not have add nothing; otherwise the list gains the address, or four times the line's instruction number, behind the others unless it is there already |
| VirtualMachine.VmBase.RemoveBreakpoint | src/vm/vm_base.cpp:205-233 | the list loses the target of the request |
| VirtualMachine.VmBase.LoadProgram | src/vm/vm_base.cpp:22-79 | memory, program size and breakpoints after the load, also when a store faults on the way; a program that fits is in memory as text from address 0 and data from its base, one that does not fit faults, and breakpoints stay without repetitions |
| VirtualMachine.FittingProgram | src/vm/vm_base.cpp:22-79 | the loader's 32-bit counters and alignment give exactly the program image when text and data fit |
| VirtualMachine.LoadExact | src/vm/vm_base.cpp:22-79 | while no counter wraps, a program loads without a fault if and only if its text and its data lie inside the memory |
| VirtualMachine.TextStops | src/vm/vm_base.cpp:24-27 | a load of text that fails has stored the instructions before the first fault and nothing behind it |
| VirtualMachine.DataStops | src/vm/vm_base.cpp:32-79 | the same for the data elements |
| DataEndToEnd.LabelLoad | src/vm/vm_base.cpp:32-79 | a load behind the address the parser gave a label returns those bytes of the label's first element |
| DataEndToEnd.ScanBounded | src/assembler/parser.cpp:110-247 | every number in the data buffer fits the width of its directive |
| DataEndToEnd.ParseLoadRead | src/assembler/parser.cpp:63-248 | parse, load, then load from memory behind a label: in an error-free section whose labels have elements, the number, the float's bits, the character or the zero that the tokens of the label's directive have there |
| InstructionSet.ROpFound | src/common/instructions.cpp:397-436 | opcode, funct3 and funct7 determine the R mnemonic |
| InstructionSet.I1OpFound | src/common/instructions.cpp:441-460 | opcode and funct3 determine the I mnemonic |
| InstructionSet.FdR2OpFound | src/common/instructions.cpp:549-579 | funct7 and funct5 determine the conversion mnemonic |
| InstructionSet.IntegerNumbering | src/common/instructions.cpp:397-432 | the numbers of the register instructions: an opcode for each width, a funct3 for each operation, a funct7 for subtraction and arithmetic shift and one for the M extension |
| InstructionSet.ImmediateNumbering | src/common/instructions.cpp:441-474 | immediate forms have the funct3 of their register forms, loads number width and sign |
| InstructionSet.FloatNumbering | src/common/instructions.cpp:513-547 | a funct7 for each floating-point operation, its lowest bit set for doubles, and the funct3 inside it |
| InstructionSet.ConversionNumbering | src/common/instructions.cpp:549-579 | conversions: a funct7 for each direction and precision, the integer type in the field of the second register |
| InstructionSet.ControlNumbering | src/common/instructions.cpp:476-511 | stores number their width, branches pair a test and its negation, a CSR immediate form is its register form plus 4, and the custom instructions have their own opcodes |
| InstructionSet.MoveNumbering | src/common/instructions.cpp:581-589 | moves and classification by funct7 and funct3 |
| InstructionSet.FusedNumbering | src/common/instructions.cpp:591-601 | an opcode for each fused operation, funct2 for the precision |
| CodeGenerator.GenerateMachineCode | src/assembler/code_generator.cpp:351-403 | one word per unit of intermediate code, in order; `Reassembly.WordLayout` says where its fields stand, `Reassembly.EncodeDisassemble` that no other bit is set |
| Disassembly.DisassembleEncode | src/assembler/code_generator.cpp:52-403 | every instruction with operands in range is read back from its word, in all formats |
| Reassembly.EncodeDisassemble | src/assembler/code_generator.cpp:52-403 | a word that reads as an instruction is that instruction's word, bit for bit, and its operands are in range |
| Reassembly.WordLayout | src/assembler/code_generator.cpp:52-403 | opcode, register numbers and function fields stand at the bits of the base formats, and `ecall` has only its opcode |
| Disassembly.EncodeInjective | src/assembler/code_generator.cpp:52-403 | equal words mean the same mnemonic and the same encoded operands |
| Disassembly.ImmediateRoundTrip | src/vm/vm_base.cpp:96-172 | the decoded immediate is the encoded one for all I, S, B, U and J immediates in range, if and only if the instruction is not `addiw` with a non-zero immediate |
| Disassembly.BranchImmediate | src/vm/vm_base.cpp:124-136 | any 13-bit branch offset comes back without its lowest bit |
| Disassembly.JumpImmediate | src/vm/vm_base.cpp:144-152 | any 21-bit jump offset comes back without its lowest bit |
| Disassembly.ShiftAmount | src/vm/vm_base.cpp:102-113 | the low six bits of the decoded immediate of a shift are its amount; word shifts decode to zero |
| Reassembly.NoImmediate | src/vm/vm_base.cpp:96-172 | the decoder gives zero for the formats that carry no immediate |
| TextLayout.Int32RoundTrip | src/assembler/parser.cpp:617 | an offset survives its conversion to the bits of an `int32_t` |
| TextLayout.RangeFits | src/assembler/parser.cpp:616-646 | an offset that passes the range check is an immediate of its format |
| TextLayout.ReachIsExact | src/assembler/parser.cpp:608-650 | the range check of branches and jumps admits an offset if and only if the machine reads it off the word again, up to its lowest bit |
| TextLayout.ClearLowRounds | src/vm/vm_base.cpp:124-152 | dropping the lowest bit rounds the immediate down to an even number, for negative ones too |
| TextLayout.Arrives | src/assembler/parser.cpp:608-650 | encoded, decoded and taken, an offset in reach leads to the address it was computed from, rounded down to an even one |
| TextParser.LabelAddress | src/assembler/parser.cpp:293 | a code label's address is four times the index of the instruction after it |
| TextParser.PatchPassErrors | src/assembler/parser.cpp:608-693 | back-patching adds no error exactly when every block on the list resolves |
| TextParser.LineFinal | src/assembler/parser.cpp:276-693 | in an error-free file every line ends as its final block at its index, whether its label came before or after it |
| TextParser.ErrorFree | src/assembler/parser.cpp:276-698 | the text passes report no error if and only if every label is new, every instruction enabled and every transfer in reach of a label it may use |
| TextParser.MultiplyDivideByFunct7 | src/common/instructions.cpp:331-335 | the instructions a setting disables are the register instructions with funct7 1 |
| TextAssembler.AcceptedExactly | src/assembler/parser.cpp:276-698 | no line is an error if and only if every label is new, every disabled instruction absent, and every transfer names a label, a branch a code label, at a distance its word carries |
| TextAssembler.TransferArrives | src/assembler/parser.cpp:608-693 | in an error-free file a transfer arrives at its label if and only if that is a code label, or the start of the data section plus the address's lowest bit is zero modulo 2^64 |
| TextAssembler.CodeLabelReached | src/assembler/parser.cpp:608-650 | a transfer to a code label, forward or backward, arrives at the instruction at the label |
| TextAssembler.DataLabelMissed | src/assembler/parser.cpp:659-661 | an input: a jump to a data label at offset 0 is accepted and goes to address 0, while the label is at the start of the data section |
| TextAssembler.Parser.ParseLine | src/assembler/parse_formats/i_m_formats.cpp:252-374 | a label, an instruction or a transfer changes the tables as specified, resolving known labels at once; a disabled instruction of the M extension is an error |
| TextAssembler.Parser.ParseTextDirective | src/assembler/parser.cpp:270-306 | the text pass over all modelled lines, with the test of the M-extension setting |
| TextAssembler.Parser.BackPatch | src/assembler/parser.cpp:608-693 | the back-patch pass over the list |
| TextAssembler.Assemble | src/assembler/parser.cpp:276-698 | accepted exactly when every line can be assembled; one word per instruction in order, the unit as written or with the distance to its label, and every transfer to a code label arrives at it |
| TextLayout.WordIsNumber | src/vm/vm_base.cpp:24-29 | an instruction word is a 32-bit number, and the number gives the word back |
| ProgramEndToEnd.TakenFromWord | src/assembler/parser.cpp:608-693 | the word of a transfer arrives at its symbol if and only if that is code, or the start of the data section allows it |
| ProgramEndToEnd.LoadAndFetch | src/vm/vm_base.cpp:22-79 | the word fetched at an instruction's address after the load is the one that was generated |
| ProgramEndToEnd.BuildAndFetch | src/assembler/parser.cpp:521-698 | parse both sections, generate, load and fetch: accepted exactly when both are free of errors; what is fetched for a line is its word, and a transfer in it goes to the instruction at its code label |
| Alu.HighIsQuotient | src/vm/alu.cpp:86-88 | the shifted 128-bit product is the high word even where the signed 128-bit type wraps |
| Alu.MulExact | src/vm/alu.cpp:73-92 | `kMul` and `kMulh` together are the exact signed product |
| Alu.MulOverflow | src/vm/alu.cpp:73-79 | the overflow flag of `kMul` is set if and only if `kMulh` is not the sign fill of its result |
| Alu.MulhsuExact | src/vm/alu.cpp:93-104 | `kMulhsu` and `kMul` together are the exact signed-by-unsigned product |
| Alu.MulhuExact | src/vm/alu.cpp:105-116 | `kMulhu` and `kMul` together are the exact unsigned product |
| Alu.SignCorrections | src/vm/alu.cpp:80-116 | the unsigned high words are `kMulh` plus the sign corrections, modulo 2^64 |
| Alu.MulwExact | src/vm/alu.cpp:117-124 | `kMulw` gives the product of the low words modulo 2^32, sign-extended, also when it does not fit, and flags exactly the products that do not |

## Left out

- BigMulUnit.Unit.Multiply: the two engines that take the operand size from the unit are excluded for sizes above 64, where `MachineRuns.ReadsInBounds` shows their reads leave the caches and C++ defines nothing; the machine-level results hold for every size.
- DataGrammar.Accepted: one direction; a token of another kind whose text is a directive word is taken for the directive too, so the condition is sufficient. `DataGrammar.SectionEnds` has the conditions every accepted section meets.
- DataEndToEnd.ParseLoadRead: about labels that are defined once; `SectionLabels.TableExact` says why.
- DataParser.SectionAgrees: one direction, under a condition on the tokens alone; `SectionLabels.SectionExact` is the exact condition for every section.
- EmptyDirectives.EmptyDirective: only a labelled directive directly behind the empty one; `SectionLabels.SectionExact` covers every other arrangement.
- SectionLabels.TableExact: a label that is defined again is replaced in the symbol table without an error; `SectionLabels.SectionExact` speaks of each definition.
- TextParser.ErrorFree: lines are labels, instructions without a label, and branches or jumps to labels; the token shapes of the other syntax formats and their errors are not modelled.
- TextAssembler.CodeLabelReached: instruction addresses are four times the index in 32 bits, as in the parser, so programs of 2^30 and more instructions wrap.
- BigMulUnit.Unit.RestoreAndMultiply: snapshots of a unit in the middle of a run are excluded; the simulator takes none, and their hidden registers are not in them.
- TextAssembler.Parser.ParseTextDirective: the token shapes of the other syntax formats are not modelled.
- Alu.MulExact: signed overflow of the plain 64-bit multiplication is modelled as wrapping, as the built-in that follows it computes.
- `systolicmultiply`, which keeps no carry between diagonals and is not called.
- `csa_depth_for_count` is the integer rule its rounded logarithm gives for the 25 possible counts.
- The write-back phase of the big multiplier, its cache loads, and `reset`.
- Bitwise or of bytes at different positions, in the memory, is modelled as addition.
- Data offsets are unbounded in the parser model; the simulator keeps them in 64 bits, the loader in 32, and the loader's width is modelled.
- Lexing, conversion of literals from text, escape sequences, and exceptions of the conversions; tokens carry their values.
- Error messages, line numbers in errors, the printed listing, memory and state dumps; errors are counted.
- Addition, division, remainder and shifts of the arithmetic unit, and all floating-point execution.
- Changing the block size of a memory that is in use.
- Register names are numbers; the register alias table is not modelled.
- The bss section and the other instruction syntaxes.
- The undo/redo stack, the control unit and the fetch loop of the virtual machine.
