/** The RV32M multiply and divide instructions and their disassembly.  Every
    class prints its mnemonic and the names of rd, rs1 and rs2, with no
    branch on the operands; `reg` is the integer register naming function,
    supplied from outside. */
module RV32M {
  import opened Text
  import opened AsmText

  datatype MulKind = MUL | MULH | MULHSU | MULHU | DIV | DIVU | REM | REMU

  /** One class per kind; the constructor stores rd, rs1 and rs2. */
  datatype Op = Op(kind: MulKind, rd: int, rs1: int, rs2: int)

  function Mnemonic(k: MulKind): string {
    match k
    case MUL => "mul" case MULH => "mulh" case MULHSU => "mulhsu" case MULHU => "mulhu"
    case DIV => "div" case DIVU => "divu" case REM => "rem" case REMU => "remu"
  }

  /** `"<mnemonic> %s,%s,%s"` of the three register names. */
  function ToString(op: Op, reg: int -> string): string {
    Asm(Mnemonic(op.kind), [reg(op.rd), reg(op.rs1), reg(op.rs2)])
  }

  /** The reader's inverse of `Mnemonic`. */
  function KindOf(m: string): Option<MulKind> {
    if m == "mul" then Some(MUL) else if m == "mulh" then Some(MULH)
    else if m == "mulhsu" then Some(MULHSU) else if m == "mulhu" then Some(MULHU)
    else if m == "div" then Some(DIV) else if m == "divu" then Some(DIVU)
    else if m == "rem" then Some(REM) else if m == "remu" then Some(REMU)
    else None
  }

  /** Each mnemonic names its own kind only, so the eight are pairwise
      distinct. */
  lemma KindOfMnemonic(k: MulKind)
    ensures KindOf(Mnemonic(k)) == Some(k)
    ensures NoChar(Mnemonic(k), ' ')
  {
    match k
    case MUL => case MULH => case MULHSU => case MULHU =>
    case DIV => case DIVU => case REM => case REMU =>
  }

  lemma MnemonicsDistinct(a: MulKind, b: MulKind)
    ensures Mnemonic(a) == Mnemonic(b) <==> a == b
  {
    KindOfMnemonic(a);
    KindOfMnemonic(b);
  }

  /** A printed line reads back as the mnemonic and rd, rs1, rs2 in that
      order. */
  lemma Forms(op: Op, reg: int -> string)
    requires CleanNames(reg)
    ensures ReadAsm(ToString(op, reg)) == (Mnemonic(op.kind), [reg(op.rd), reg(op.rs1), reg(op.rs2)])
  {
    KindOfMnemonic(op.kind);
    ReadAsmRoundTrip(Mnemonic(op.kind), [reg(op.rd), reg(op.rs1), reg(op.rs2)]);
  }

  /** The line determines the kind and the three register names, and
      nothing else about the op enters it. */
  lemma ToStringDetermines(a: Op, b: Op, reg: int -> string)
    requires CleanNames(reg)
    ensures ToString(a, reg) == ToString(b, reg) <==>
      a.kind == b.kind && reg(a.rd) == reg(b.rd) && reg(a.rs1) == reg(b.rs1) && reg(a.rs2) == reg(b.rs2)
  {
    Forms(a, reg);
    Forms(b, reg);
    MnemonicsDistinct(a.kind, b.kind);
  }
}
