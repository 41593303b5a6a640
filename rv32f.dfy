/** The RV32F single-precision instructions and their disassembly.  Integer
    registers are named by `intReg`, floating-point registers by `fpReg`,
    and a rounding-mode field by `rmName`, which gives None where the
    emulator's name lookup returns the null pointer; all three are supplied
    from outside.  An op with a rounding mode prints the mode's name as a
    last operand exactly when the lookup finds one. */
module RV32F {
  import opened Text
  import opened AsmText

  datatype FusedKind = FMADD | FMSUB | FNMADD | FNMSUB
  datatype ArithKind = FADD | FSUB | FMUL | FDIV
  /** The sign-injection, minimum and maximum ops: three FP registers, no
      rounding mode. */
  datatype SignKind = FSGNJ | FSGNJN | FSGNJX | FMIN | FMAX
  datatype CompareKind = FEQ | FLT | FLE
  /** Signed (`w`) or unsigned (`wu`) 32-bit integers. */
  datatype IntKind = W | WU

  datatype Op =
    | FLW(rd: int, rs1: int, imm: uint32)
    | FSW(rs1: int, rs2: int, imm: uint32)
    | Fused(fused: FusedKind, rd: int, rs1: int, rs2: int, rs3: int, rm: int)
    | Arith(arith: ArithKind, rd: int, rs1: int, rs2: int, rm: int)
    | FSQRT_S(rd: int, rs1: int, rm: int)
    | Sign(sign: SignKind, rd: int, rs1: int, rs2: int)
    | FCVT_W_S(toInt: IntKind, rd: int, rs1: int, rm: int)
    | FMV_X_W(rd: int, rs1: int)
    | Compare(compare: CompareKind, rd: int, rs1: int, rs2: int)
    | FCLASS_S(rd: int, rs1: int)
    | FCVT_S_W(fromInt: IntKind, rd: int, rs1: int, rm: int)
    | FMV_W_X(rd: int, rs1: int)

  // ---------------------------------------------------------------------------
  // Mnemonics, shared with the double-precision ops

  function FusedStem(k: FusedKind): string {
    match k case FMADD => "fmadd" case FMSUB => "fmsub" case FNMADD => "fnmadd" case FNMSUB => "fnmsub"
  }

  function ArithStem(k: ArithKind): string {
    match k case FADD => "fadd" case FSUB => "fsub" case FMUL => "fmul" case FDIV => "fdiv"
  }

  function SignStem(k: SignKind): string {
    match k case FSGNJ => "fsgnj" case FSGNJN => "fsgnjn" case FSGNJX => "fsgnjx" case FMIN => "fmin" case FMAX => "fmax"
  }

  function CompareStem(k: CompareKind): string {
    match k case FEQ => "feq" case FLT => "flt" case FLE => "fle"
  }

  function IntName(k: IntKind): string {
    match k case W => "w" case WU => "wu"
  }

  /** None of the stems holds a space. */
  lemma StemsClean(f: FusedKind, a: ArithKind, s: SignKind, c: CompareKind, i: IntKind)
    ensures NoChar(FusedStem(f), ' ') && NoChar(ArithStem(a), ' ') && NoChar(SignStem(s), ' ')
    ensures NoChar(CompareStem(c), ' ') && NoChar(IntName(i), ' ')
  {
    match f case FMADD => case FMSUB => case FNMADD => case FNMSUB =>
    match a case FADD => case FSUB => case FMUL => case FDIV =>
    match s case FSGNJ => case FSGNJN => case FSGNJX => case FMIN => case FMAX =>
    match c case FEQ => case FLT => case FLE =>
    match i case W => case WU =>
  }

  /** Three pieces glued together have no space when the pieces have
      none. */
  lemma GlueClean(a: string, b: string, c: string)
    requires NoChar(a, ' ') && NoChar(b, ' ') && NoChar(c, ' ')
    ensures NoChar(a + b + c, ' ')
  {
    var t := a + b + c;
    forall i | 0 <= i < |t| ensures t[i] != ' ' {
      if i < |a| {
        assert t[i] == a[i];
      } else if i < |a| + |b| {
        assert t[i] == b[i - |a|];
      } else {
        assert t[i] == c[i - |a| - |b|];
      }
    }
  }

  function Mnemonic(op: Op): string {
    match op
    case FLW(_, _, _) => "flw"
    case FSW(_, _, _) => "fsw"
    case Fused(k, _, _, _, _, _) => FusedStem(k) + ".s"
    case Arith(k, _, _, _, _) => ArithStem(k) + ".s"
    case FSQRT_S(_, _, _) => "fsqrt.s"
    case Sign(k, _, _, _) => SignStem(k) + ".s"
    case FCVT_W_S(k, _, _, _) => "fcvt." + IntName(k) + ".s"
    case FMV_X_W(_, _) => "fmv.x.w"
    case Compare(k, _, _, _) => CompareStem(k) + ".s"
    case FCLASS_S(_, _) => "fclass.s"
    case FCVT_S_W(k, _, _, _) => "fcvt.s." + IntName(k)
    case FMV_W_X(_, _) => "fmv.w.x"
  }

  lemma MnemonicClean(op: Op)
    ensures NoChar(Mnemonic(op), ' ')
  {
    match op
    case Fused(k, _, _, _, _, _) => StemsClean(k, FADD, FSGNJ, FEQ, W); GlueClean(FusedStem(k), ".s", "");
    case Arith(k, _, _, _, _) => StemsClean(FMADD, k, FSGNJ, FEQ, W); GlueClean(ArithStem(k), ".s", "");
    case Sign(k, _, _, _) => StemsClean(FMADD, FADD, k, FEQ, W); GlueClean(SignStem(k), ".s", "");
    case Compare(k, _, _, _) => StemsClean(FMADD, FADD, FSGNJ, k, W); GlueClean(CompareStem(k), ".s", "");
    case FCVT_W_S(k, _, _, _) => StemsClean(FMADD, FADD, FSGNJ, FEQ, k); GlueClean("fcvt.", IntName(k), ".s");
    case FCVT_S_W(k, _, _, _) => StemsClean(FMADD, FADD, FSGNJ, FEQ, k); GlueClean("fcvt.s.", IntName(k), "");
    case _ =>
  }

  // ---------------------------------------------------------------------------
  // Printing

  /** The two `sprintf` calls behind a rounding-mode test: with the mode's
      name as a last operand when there is one, without it otherwise. */
  function WithRm(m: string, operands: seq<string>, rm: Option<string>): string {
    if rm.Some? then Asm(m, operands + [rm.value]) else Asm(m, operands)
  }

  function ToString(op: Op, intReg: int -> string, fpReg: int -> string, rmName: int -> Option<string>): string {
    match op
    case FLW(rd, rs1, imm) => Asm("flw", [fpReg(rd), Address(imm, intReg(rs1))])
    case FSW(rs1, rs2, imm) => Asm("fsw", [fpReg(rs2), Address(imm, intReg(rs1))])
    case Fused(_, rd, rs1, rs2, rs3, rm) => WithRm(Mnemonic(op), [fpReg(rd), fpReg(rs1), fpReg(rs2), fpReg(rs3)], rmName(rm))
    case Arith(_, rd, rs1, rs2, rm) => WithRm(Mnemonic(op), [fpReg(rd), fpReg(rs1), fpReg(rs2)], rmName(rm))
    case FSQRT_S(rd, rs1, rm) => WithRm(Mnemonic(op), [fpReg(rd), fpReg(rs1)], rmName(rm))
    case Sign(_, rd, rs1, rs2) => Asm(Mnemonic(op), [fpReg(rd), fpReg(rs1), fpReg(rs2)])
    case FCVT_W_S(_, rd, rs1, rm) => WithRm(Mnemonic(op), [intReg(rd), fpReg(rs1)], rmName(rm))
    case FMV_X_W(rd, rs1) => Asm(Mnemonic(op), [intReg(rd), fpReg(rs1)])
    case Compare(_, rd, rs1, rs2) => Asm(Mnemonic(op), [intReg(rd), fpReg(rs1), fpReg(rs2)])
    case FCLASS_S(rd, rs1) => Asm(Mnemonic(op), [intReg(rd), fpReg(rs1)])
    case FCVT_S_W(_, rd, rs1, rm) => WithRm(Mnemonic(op), [fpReg(rd), intReg(rs1)], rmName(rm))
    case FMV_W_X(rd, rs1) => Asm(Mnemonic(op), [fpReg(rd), intReg(rs1)])
  }

  // ---------------------------------------------------------------------------
  // The operand layout each op has in the ISA manual

  /** A register operand: its register file and its number. */
  datatype Reg = X(x: int) | F(f: int)

  function RegName(r: Reg, intReg: int -> string, fpReg: int -> string): string {
    match r case X(n) => intReg(n) case F(n) => fpReg(n)
  }

  function Names(regs: seq<Reg>, intReg: int -> string, fpReg: int -> string): (r: seq<string>)
    ensures |r| == |regs|
    ensures forall i :: 0 <= i < |regs| ==> r[i] == RegName(regs[i], intReg, fpReg)
  {
    if regs == [] then [] else [RegName(regs[0], intReg, fpReg)] + Names(regs[1..], intReg, fpReg)
  }

  /** The register operands of a non-memory op, destination first: results
      of comparisons, classifications, conversions to integers and moves to
      integers are integer registers, as are the sources of conversions and
      moves from integers; all others are FP registers. */
  function Layout(op: Op): seq<Reg>
    requires !op.FLW? && !op.FSW?
  {
    match op
    case Fused(_, rd, rs1, rs2, rs3, _) => [F(rd), F(rs1), F(rs2), F(rs3)]
    case Arith(_, rd, rs1, rs2, _) => [F(rd), F(rs1), F(rs2)]
    case FSQRT_S(rd, rs1, _) => [F(rd), F(rs1)]
    case Sign(_, rd, rs1, rs2) => [F(rd), F(rs1), F(rs2)]
    case FCVT_W_S(_, rd, rs1, _) => [X(rd), F(rs1)]
    case FMV_X_W(rd, rs1) => [X(rd), F(rs1)]
    case Compare(_, rd, rs1, rs2) => [X(rd), F(rs1), F(rs2)]
    case FCLASS_S(rd, rs1) => [X(rd), F(rs1)]
    case FCVT_S_W(_, rd, rs1, _) => [F(rd), X(rs1)]
    case FMV_W_X(rd, rs1) => [F(rd), X(rs1)]
  }

  /** The ops with a rounding-mode field. */
  predicate HasRm(op: Op) {
    op.Fused? || op.Arith? || op.FSQRT_S? || op.FCVT_W_S? || op.FCVT_S_W?
  }

  /** The rounding-mode operand printed after the registers. */
  function RmOperand(op: Op, rmName: int -> Option<string>): seq<string> {
    if HasRm(op) && rmName(op.rm).Some? then [rmName(op.rm).value] else []
  }

  /** Rounding-mode names the reader can take back. */
  ghost predicate CleanRm(rmName: int -> Option<string>) {
    forall rm :: rmName(rm).Some? ==> NoChar(rmName(rm).value, ',')
  }

  lemma NamesCommaFree(regs: seq<Reg>, intReg: int -> string, fpReg: int -> string)
    requires CleanNames(intReg) && CleanNames(fpReg)
    ensures CommaFree(Names(regs, intReg, fpReg))
  {
    var names := Names(regs, intReg, fpReg);
    forall i | 0 <= i < |names| ensures NoChar(names[i], ',') {
      match regs[i] case X(n) => case F(n) =>
    }
  }

  lemma Shape(op: Op, intReg: int -> string, fpReg: int -> string, rmName: int -> Option<string>)
    requires !op.FLW? && !op.FSW?
    ensures ToString(op, intReg, fpReg, rmName) == Asm(Mnemonic(op), Names(Layout(op), intReg, fpReg) + RmOperand(op, rmName))
  {
    var names := Names(Layout(op), intReg, fpReg);
    assert names + [] == names;
    match op
    case Fused(_, rd, rs1, rs2, rs3, _) => assert names == [fpReg(rd), fpReg(rs1), fpReg(rs2), fpReg(rs3)];
    case Arith(_, rd, rs1, rs2, _) => assert names == [fpReg(rd), fpReg(rs1), fpReg(rs2)];
    case FSQRT_S(rd, rs1, _) => assert names == [fpReg(rd), fpReg(rs1)];
    case Sign(_, rd, rs1, rs2) => assert names == [fpReg(rd), fpReg(rs1), fpReg(rs2)];
    case FCVT_W_S(_, rd, rs1, _) => assert names == [intReg(rd), fpReg(rs1)];
    case FMV_X_W(rd, rs1) => assert names == [intReg(rd), fpReg(rs1)];
    case Compare(_, rd, rs1, rs2) => assert names == [intReg(rd), fpReg(rs1), fpReg(rs2)];
    case FCLASS_S(rd, rs1) => assert names == [intReg(rd), fpReg(rs1)];
    case FCVT_S_W(_, rd, rs1, _) => assert names == [fpReg(rd), intReg(rs1)];
    case FMV_W_X(rd, rs1) => assert names == [fpReg(rd), intReg(rs1)];
  }

  /** Every non-memory line reads back as the mnemonic, the register names
      of the op's layout, and the rounding mode's name when the op has one
      and the lookup finds it. */
  lemma Forms(op: Op, intReg: int -> string, fpReg: int -> string, rmName: int -> Option<string>)
    requires !op.FLW? && !op.FSW?
    requires CleanNames(intReg) && CleanNames(fpReg) && CleanRm(rmName)
    ensures ReadAsm(ToString(op, intReg, fpReg, rmName)) ==
      (Mnemonic(op), Names(Layout(op), intReg, fpReg) + RmOperand(op, rmName))
  {
    Shape(op, intReg, fpReg, rmName);
    MnemonicClean(op);
    var names := Names(Layout(op), intReg, fpReg);
    NamesCommaFree(Layout(op), intReg, fpReg);
    var all := names + RmOperand(op, rmName);
    assert CommaFree(all) by {
      forall i | 0 <= i < |all| ensures NoChar(all[i], ',') {
        if i >= |names| {
          assert all[i] == rmName(op.rm).value;
        }
      }
    }
    ReadAsmRoundTrip(Mnemonic(op), all);
  }

  /** FLW prints `flw fd,imm(xs1)`; FSW prints `fsw fs2,imm(xs1)`. */
  lemma MemoryForms(op: Op, intReg: int -> string, fpReg: int -> string, rmName: int -> Option<string>)
    requires op.FLW? || op.FSW?
    requires CleanNames(intReg) && CleanNames(fpReg)
    ensures ReadAsm(ToString(op, intReg, fpReg, rmName)) ==
      if op.FLW? then ("flw", [fpReg(op.rd), Address(op.imm, intReg(op.rs1))])
      else ("fsw", [fpReg(op.rs2), Address(op.imm, intReg(op.rs1))])
  {
    AddressCommaFree(op.imm, intReg(op.rs1));
    if op.FLW? {
      ReadAsmRoundTrip("flw", [fpReg(op.rd), Address(op.imm, intReg(op.rs1))]);
    } else {
      ReadAsmRoundTrip("fsw", [fpReg(op.rs2), Address(op.imm, intReg(op.rs1))]);
    }
  }

  /** A rounding mode is printed, as the last operand, exactly when the op
      has one and the lookup finds a name for it. */
  lemma RoundingSuffix(op: Op, intReg: int -> string, fpReg: int -> string, rmName: int -> Option<string>)
    requires !op.FLW? && !op.FSW?
    requires CleanNames(intReg) && CleanNames(fpReg) && CleanRm(rmName)
    ensures var (_, operands) := ReadAsm(ToString(op, intReg, fpReg, rmName));
      && (|operands| == |Layout(op)| + 1 <==> HasRm(op) && rmName(op.rm).Some?)
      && (|operands| == |Layout(op)| + 1 ==> operands[|operands| - 1] == rmName(op.rm).value)
      && (!HasRm(op) ==> |operands| == |Layout(op)|)
  {
    Forms(op, intReg, fpReg, rmName);
  }

  /** Comparisons, classification, conversion to an integer and FMV.X.W
      print an integer destination and FP sources; conversion from an
      integer and FMV.W.X print an FP destination and an integer source. */
  lemma RegisterFiles(op: Op, intReg: int -> string, fpReg: int -> string, rmName: int -> Option<string>)
    requires op.Compare? || op.FCLASS_S? || op.FCVT_W_S? || op.FMV_X_W? || op.FCVT_S_W? || op.FMV_W_X?
    requires CleanNames(intReg) && CleanNames(fpReg) && CleanRm(rmName)
    ensures var (_, operands) := ReadAsm(ToString(op, intReg, fpReg, rmName));
      && |operands| >= 2
      && (op.FCVT_S_W? || op.FMV_W_X? ==> operands[0] == fpReg(op.rd) && operands[1] == intReg(op.rs1))
      && (!op.FCVT_S_W? && !op.FMV_W_X? ==> operands[0] == intReg(op.rd) && operands[1] == fpReg(op.rs1))
      && (op.Compare? ==> |operands| == 3 && operands[2] == fpReg(op.rs2))
  {
    Forms(op, intReg, fpReg, rmName);
  }
}
