/** The RV64A atomic instructions: LR, SC and the AMOs, each in a 32-bit
    (.w) and a 64-bit (.d) form.  They print as in RV32A, with the width as
    the mnemonic's suffix; the aq and rl bits are never printed. */
module RV64A {
  import opened Text
  import opened AsmText
  import RV32A

  datatype Width = W | D

  datatype Op =
    | LR(width: Width, rd: int, rs1: int, aq: bool, rl: bool)
    | SC(width: Width, rd: int, rs1: int, rs2: int, aq: bool, rl: bool)
    | AMO(amo: RV32A.AmoKind, width: Width, rd: int, rs1: int, rs2: int, aq: bool, rl: bool)

  function Suffix(w: Width): string {
    if w == W then ".w" else ".d"
  }

  function Stem(op: Op): string {
    match op
    case LR(_, _, _, _, _) => "lr"
    case SC(_, _, _, _, _, _) => "sc"
    case AMO(k, _, _, _, _, _, _) => RV32A.AmoStem(k)
  }

  function ToString(op: Op, reg: int -> string): string {
    match op
    case LR(w, rd, rs1, _, _) => Asm("lr" + Suffix(w), [reg(rd), RV32A.Indirect(reg(rs1))])
    case SC(w, rd, rs1, rs2, _, _) => Asm("sc" + Suffix(w), [reg(rd), reg(rs2), RV32A.Indirect(reg(rs1))])
    case AMO(k, w, rd, rs1, rs2, _, _) =>
      Asm(RV32A.AmoStem(k) + Suffix(w), [reg(rd), reg(rs2), RV32A.Indirect(reg(rs1))])
  }

  /** The same operation in RV32A, for the .w forms. */
  function Narrow(op: Op): RV32A.Op
    requires op.width == W
  {
    match op
    case LR(_, rd, rs1, aq, rl) => RV32A.LR_W(rd, rs1, aq, rl)
    case SC(_, rd, rs1, rs2, aq, rl) => RV32A.SC_W(rd, rs1, rs2, aq, rl)
    case AMO(k, _, rd, rs1, rs2, aq, rl) => RV32A.AMO_W(k, rd, rs1, rs2, aq, rl)
  }

  /** The .w forms print exactly as RV32A prints them. */
  lemma WordFormsAsRV32A(op: Op, reg: int -> string)
    requires op.width == W
    ensures ToString(op, reg) == RV32A.ToString(Narrow(op), reg)
    ensures Stem(op) == RV32A.Stem(Narrow(op))
  {
  }

  /** Read back, a line is the stem with the width's suffix and the RV32A
      operands. */
  lemma Forms(op: Op, reg: int -> string)
    requires CleanNames(reg)
    ensures ReadAsm(ToString(op, reg)) == (Stem(op) + Suffix(op.width), RV32A.Operands(Narrow(op.(width := W)), reg))
  {
    var n := Narrow(op.(width := W));
    RV32A.StemClean(n);
    assert NoChar(Stem(op) + ".d", ' ') by {
      assert forall i :: 0 <= i < |Stem(op)| ==> (Stem(op) + ".d")[i] == (Stem(op) + ".w")[i];
    }
    RV32A.IndirectCommaFree(reg(op.rs1));
    ReadAsmRoundTrip(Stem(op) + Suffix(op.width), RV32A.Operands(n, reg));
  }

  /** A .w op and the .d op with the same fields differ only in the
      mnemonic's suffix. */
  lemma WidthOnlyInSuffix(op: Op, reg: int -> string)
    requires CleanNames(reg)
    ensures var (mw, ow) := ReadAsm(ToString(op.(width := W), reg));
      var (md, od) := ReadAsm(ToString(op.(width := D), reg));
      && ow == od
      && mw == Stem(op) + ".w" && md == Stem(op) + ".d"
  {
    Forms(op.(width := W), reg);
    Forms(op.(width := D), reg);
  }

  lemma OrderingNotPrinted(op: Op, aq: bool, rl: bool, reg: int -> string)
    ensures ToString(op.(aq := aq, rl := rl), reg) == ToString(op, reg)
  {
  }
}
