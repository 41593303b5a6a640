/** The RV64M multiply and divide instructions: the eight RV32M operations
    and the five 32-bit "W" variants, each printed as its mnemonic and the
    names of rd, rs1 and rs2 with no branch on the operands. */
module RV64M {
  import opened Text
  import opened AsmText
  import RV32M

  datatype MulKind =
    | MUL | MULH | MULHSU | MULHU | MULW | DIV | DIVW | DIVU | DIVUW
    | REM | REMW | REMU | REMUW

  datatype Op = Op(kind: MulKind, rd: int, rs1: int, rs2: int)

  function Mnemonic(k: MulKind): string {
    match k
    case MUL => "mul" case MULH => "mulh" case MULHSU => "mulhsu" case MULHU => "mulhu"
    case MULW => "mulw" case DIV => "div" case DIVW => "divw" case DIVU => "divu"
    case DIVUW => "divuw" case REM => "rem" case REMW => "remw" case REMU => "remu"
    case REMUW => "remuw"
  }

  function ToString(op: Op, reg: int -> string): string {
    Asm(Mnemonic(op.kind), [reg(op.rd), reg(op.rs1), reg(op.rs2)])
  }

  /** The operations that work on the low 32 bits of the registers. */
  predicate IsWord(k: MulKind) {
    k == MULW || k == DIVW || k == DIVUW || k == REMW || k == REMUW
  }

  /** The RV32M operation a kind computes on full registers: the kind itself,
      or for a W variant the operation it narrows. */
  function Base(k: MulKind): RV32M.MulKind {
    match k
    case MUL | MULW => RV32M.MUL
    case MULH => RV32M.MULH
    case MULHSU => RV32M.MULHSU
    case MULHU => RV32M.MULHU
    case DIV | DIVW => RV32M.DIV
    case DIVU | DIVUW => RV32M.DIVU
    case REM | REMW => RV32M.REM
    case REMU | REMUW => RV32M.REMU
  }

  /** A W variant's mnemonic is its base operation's with a `w` appended;
      every other mnemonic is the RV32M one, and none of those ends in `w`. */
  lemma WordMnemonics(k: MulKind)
    ensures |Mnemonic(k)| > 0 && NoChar(Mnemonic(k), ' ')
    ensures IsWord(k) ==> Mnemonic(k) == RV32M.Mnemonic(Base(k)) + "w"
    ensures !IsWord(k) ==> Mnemonic(k) == RV32M.Mnemonic(Base(k))
    ensures Mnemonic(k)[|Mnemonic(k)| - 1] == 'w' <==> IsWord(k)
  {
    match k
    case MUL => case MULH => case MULHSU => case MULHU => case MULW =>
    case DIV => case DIVW => case DIVU => case DIVUW =>
    case REM => case REMW => case REMU => case REMUW =>
  }

  /** The thirteen mnemonics are pairwise distinct. */
  lemma MnemonicsDistinct(a: MulKind, b: MulKind)
    ensures Mnemonic(a) == Mnemonic(b) <==> a == b
  {
    WordMnemonics(a);
    WordMnemonics(b);
    RV32M.MnemonicsDistinct(Base(a), Base(b));
    if IsWord(a) && IsWord(b) && Mnemonic(a) == Mnemonic(b) {
      var m := RV32M.Mnemonic(Base(a));
      assert Mnemonic(a)[..|m|] == m;
    }
  }

  /** The operations shared with RV32M print exactly as RV32M prints them. */
  lemma SharedWithRV32M(op: Op, reg: int -> string)
    requires !IsWord(op.kind)
    ensures ToString(op, reg) == RV32M.ToString(RV32M.Op(Base(op.kind), op.rd, op.rs1, op.rs2), reg)
  {
    WordMnemonics(op.kind);
  }

  lemma Forms(op: Op, reg: int -> string)
    requires CleanNames(reg)
    ensures ReadAsm(ToString(op, reg)) == (Mnemonic(op.kind), [reg(op.rd), reg(op.rs1), reg(op.rs2)])
  {
    WordMnemonics(op.kind);
    ReadAsmRoundTrip(Mnemonic(op.kind), [reg(op.rd), reg(op.rs1), reg(op.rs2)]);
  }
}
