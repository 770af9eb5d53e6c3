/** The entries of the assembler's symbol table. */
module SymbolTable {
  import opened Limbs

  /** An offset in the data section, or the address of an instruction, with the line of the definition. */
  datatype Symbol = Symbol(address: nat, line: nat, isData: bool) {
    /** The address as the uint64_t it is kept in. */
    function Word(): u64 { address % B }
  }

  type Symbols = map<string, Symbol>
}
