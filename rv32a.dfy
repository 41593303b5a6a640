/** The RV32A atomic instructions and their disassembly.  LR.W prints
    `lr.w rd,(rs1)`; SC.W and the AMOs print `op rd,rs2,(rs1)`, the source
    register before the address register.  The aq and rl ordering bits are
    stored by the constructors and never printed.  No rendering branches on
    the operands. */
module RV32A {
  import opened Text
  import opened AsmText

  datatype AmoKind = SWAP | ADD | XOR | AND | OR | MIN | MAX | MINU | MAXU

  datatype Op =
    | LR_W(rd: int, rs1: int, aq: bool, rl: bool)
    | SC_W(rd: int, rs1: int, rs2: int, aq: bool, rl: bool)
    | AMO_W(amo: AmoKind, rd: int, rs1: int, rs2: int, aq: bool, rl: bool)

  /** The mnemonic without its width suffix. */
  function AmoStem(k: AmoKind): string {
    match k
    case SWAP => "amoswap" case ADD => "amoadd" case XOR => "amoxor" case AND => "amoand"
    case OR => "amoor" case MIN => "amomin" case MAX => "amomax" case MINU => "amominu"
    case MAXU => "amomaxu"
  }

  function Stem(op: Op): string {
    match op
    case LR_W(_, _, _, _) => "lr"
    case SC_W(_, _, _, _, _) => "sc"
    case AMO_W(k, _, _, _, _, _) => AmoStem(k)
  }

  /** The address operand `(name)`. */
  function Indirect(base: string): string {
    "(" + base + ")"
  }

  function ToString(op: Op, reg: int -> string): string {
    match op
    case LR_W(rd, rs1, _, _) => Asm("lr.w", [reg(rd), Indirect(reg(rs1))])
    case SC_W(rd, rs1, rs2, _, _) => Asm("sc.w", [reg(rd), reg(rs2), Indirect(reg(rs1))])
    case AMO_W(k, rd, rs1, rs2, _, _) => Asm(AmoStem(k) + ".w", [reg(rd), reg(rs2), Indirect(reg(rs1))])
  }

  /** The operands as the ISA manual lists them for the assembler: rd, then
      rs2 for a store-conditional or an AMO, then the address register. */
  function Operands(op: Op, reg: int -> string): seq<string> {
    if op.LR_W? then [reg(op.rd), Indirect(reg(op.rs1))]
    else [reg(op.rd), reg(op.rs2), Indirect(reg(op.rs1))]
  }

  lemma StemClean(op: Op)
    ensures NoChar(Stem(op) + ".w", ' ')
  {
    match op
    case LR_W(_, _, _, _) =>
    case SC_W(_, _, _, _, _) =>
    case AMO_W(k, _, _, _, _, _) =>
      match k
      case SWAP => case ADD => case XOR => case AND => case OR =>
      case MIN => case MAX => case MINU => case MAXU =>
  }

  lemma IndirectCommaFree(base: string)
    requires NoChar(base, ',')
    ensures NoChar(Indirect(base), ',')
  {
    WrapCommaFree("(", base, ")");
  }

  /** Every line reads back as the stem with `.w` and the operands in the
      assembler's order. */
  lemma Forms(op: Op, reg: int -> string)
    requires CleanNames(reg)
    ensures ReadAsm(ToString(op, reg)) == (Stem(op) + ".w", Operands(op, reg))
  {
    StemClean(op);
    IndirectCommaFree(reg(op.rs1));
    assert "lr" + ".w" == "lr.w" && "sc" + ".w" == "sc.w";
    ReadAsmRoundTrip(Stem(op) + ".w", Operands(op, reg));
  }

  /** The ordering bits do not reach the text. */
  lemma OrderingNotPrinted(op: Op, aq: bool, rl: bool, reg: int -> string)
    ensures ToString(op.(aq := aq, rl := rl), reg) == ToString(op, reg)
  {
  }
}
