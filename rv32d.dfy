/** The RV32D double-precision instructions and their disassembly.  They
    print like their RV32F counterparts with a `.d` suffix, except that
    FCVT.D.S, FCVT.D.W and FCVT.D.WU test the rounding-mode lookup the other
    way round: a name found prints no rounding-mode operand, and a name not
    found hands the null pointer to `%s`, which glibc prints as
    `(null)`. */
module RV32D {
  import opened Text
  import opened AsmText
  import opened RV32F

  datatype Op =
    | FLD(rd: int, rs1: int, imm: uint32)
    | FSD(rs1: int, rs2: int, imm: uint32)
    | Fused(fused: FusedKind, rd: int, rs1: int, rs2: int, rs3: int, rm: int)
    | Arith(arith: ArithKind, rd: int, rs1: int, rs2: int, rm: int)
    | FSQRT_D(rd: int, rs1: int, rm: int)
    | Sign(sign: SignKind, rd: int, rs1: int, rs2: int)
    | FCVT_S_D(rd: int, rs1: int, rm: int)
    | FCVT_D_S(rd: int, rs1: int, rm: int)
    | Compare(compare: CompareKind, rd: int, rs1: int, rs2: int)
    | FCLASS_D(rd: int, rs1: int)
    | FCVT_W_D(toInt: IntKind, rd: int, rs1: int, rm: int)
    | FCVT_D_W(fromInt: IntKind, rd: int, rs1: int, rm: int)

  /** What printf writes for a null `%s` argument. */
  const NullText: string := "(null)"

  function Mnemonic(op: Op): string {
    match op
    case FLD(_, _, _) => "fld"
    case FSD(_, _, _) => "fsd"
    case Fused(k, _, _, _, _, _) => FusedStem(k) + ".d"
    case Arith(k, _, _, _, _) => ArithStem(k) + ".d"
    case FSQRT_D(_, _, _) => "fsqrt.d"
    case Sign(k, _, _, _) => SignStem(k) + ".d"
    case FCVT_S_D(_, _, _) => "fcvt.s.d"
    case FCVT_D_S(_, _, _) => "fcvt.d.s"
    case Compare(k, _, _, _) => CompareStem(k) + ".d"
    case FCLASS_D(_, _) => "fclass.d"
    case FCVT_W_D(k, _, _, _) => "fcvt." + IntName(k) + ".d"
    case FCVT_D_W(k, _, _, _) => "fcvt.d." + IntName(k)
  }

  lemma MnemonicClean(op: Op)
    ensures NoChar(Mnemonic(op), ' ')
  {
    match op
    case Fused(k, _, _, _, _, _) => StemsClean(k, FADD, FSGNJ, FEQ, W); GlueClean(FusedStem(k), ".d", "");
    case Arith(k, _, _, _, _) => StemsClean(FMADD, k, FSGNJ, FEQ, W); GlueClean(ArithStem(k), ".d", "");
    case Sign(k, _, _, _) => StemsClean(FMADD, FADD, k, FEQ, W); GlueClean(SignStem(k), ".d", "");
    case Compare(k, _, _, _) => StemsClean(FMADD, FADD, FSGNJ, k, W); GlueClean(CompareStem(k), ".d", "");
    case FCVT_W_D(k, _, _, _) => StemsClean(FMADD, FADD, FSGNJ, FEQ, k); GlueClean("fcvt.", IntName(k), ".d");
    case FCVT_D_W(k, _, _, _) => StemsClean(FMADD, FADD, FSGNJ, FEQ, k); GlueClean("fcvt.d.", IntName(k), "");
    case _ =>
  }

  /** The inverted test of FCVT.D.S, FCVT.D.W and FCVT.D.WU: the short form
      when a name is found, the long form with the null pointer otherwise. */
  function WithRmInverted(m: string, operands: seq<string>, rm: Option<string>): string {
    if rm.Some? then Asm(m, operands) else Asm(m, operands + [NullText])
  }

  function ToString(op: Op, intReg: int -> string, fpReg: int -> string, rmName: int -> Option<string>): string {
    match op
    case FLD(rd, rs1, imm) => Asm("fld", [fpReg(rd), Address(imm, intReg(rs1))])
    case FSD(rs1, rs2, imm) => Asm("fsd", [fpReg(rs2), Address(imm, intReg(rs1))])
    case Fused(_, rd, rs1, rs2, rs3, rm) => WithRm(Mnemonic(op), [fpReg(rd), fpReg(rs1), fpReg(rs2), fpReg(rs3)], rmName(rm))
    case Arith(_, rd, rs1, rs2, rm) => WithRm(Mnemonic(op), [fpReg(rd), fpReg(rs1), fpReg(rs2)], rmName(rm))
    case FSQRT_D(rd, rs1, rm) => WithRm(Mnemonic(op), [fpReg(rd), fpReg(rs1)], rmName(rm))
    case Sign(_, rd, rs1, rs2) => Asm(Mnemonic(op), [fpReg(rd), fpReg(rs1), fpReg(rs2)])
    case FCVT_S_D(rd, rs1, rm) => WithRm(Mnemonic(op), [fpReg(rd), fpReg(rs1)], rmName(rm))
    case FCVT_D_S(rd, rs1, rm) => WithRmInverted(Mnemonic(op), [fpReg(rd), fpReg(rs1)], rmName(rm))
    case Compare(_, rd, rs1, rs2) => Asm(Mnemonic(op), [intReg(rd), fpReg(rs1), fpReg(rs2)])
    case FCLASS_D(rd, rs1) => Asm(Mnemonic(op), [intReg(rd), fpReg(rs1)])
    case FCVT_W_D(_, rd, rs1, rm) => WithRm(Mnemonic(op), [intReg(rd), fpReg(rs1)], rmName(rm))
    case FCVT_D_W(_, rd, rs1, rm) => WithRmInverted(Mnemonic(op), [fpReg(rd), intReg(rs1)], rmName(rm))
  }

  /** The register operands of a non-memory op, destination first. */
  function Layout(op: Op): seq<Reg>
    requires !op.FLD? && !op.FSD?
  {
    match op
    case Fused(_, rd, rs1, rs2, rs3, _) => [F(rd), F(rs1), F(rs2), F(rs3)]
    case Arith(_, rd, rs1, rs2, _) => [F(rd), F(rs1), F(rs2)]
    case FSQRT_D(rd, rs1, _) => [F(rd), F(rs1)]
    case Sign(_, rd, rs1, rs2) => [F(rd), F(rs1), F(rs2)]
    case FCVT_S_D(rd, rs1, _) => [F(rd), F(rs1)]
    case FCVT_D_S(rd, rs1, _) => [F(rd), F(rs1)]
    case Compare(_, rd, rs1, rs2) => [X(rd), F(rs1), F(rs2)]
    case FCLASS_D(rd, rs1) => [X(rd), F(rs1)]
    case FCVT_W_D(_, rd, rs1, _) => [X(rd), F(rs1)]
    case FCVT_D_W(_, rd, rs1, _) => [F(rd), X(rs1)]
  }

  predicate HasRm(op: Op) {
    op.Fused? || op.Arith? || op.FSQRT_D? || op.FCVT_S_D? || op.FCVT_D_S? || op.FCVT_W_D? || op.FCVT_D_W?
  }

  /** The conversions into double (FCVT.D.S, FCVT.D.W, FCVT.D.WU) whose
      rounding-mode test is inverted. */
  predicate Inverted(op: Op) {
    op.FCVT_D_S? || op.FCVT_D_W?
  }

  /** The operand printed after the registers: the mode's name when found,
      for the ops that test the lookup as RV32F does; `(null)` when not
      found, for the inverted ones. */
  function RmOperand(op: Op, rmName: int -> Option<string>): seq<string> {
    if !HasRm(op) then []
    else if Inverted(op) then (if rmName(op.rm).Some? then [] else [NullText])
    else if rmName(op.rm).Some? then [rmName(op.rm).value] else []
  }

  lemma Shape(op: Op, intReg: int -> string, fpReg: int -> string, rmName: int -> Option<string>)
    requires !op.FLD? && !op.FSD?
    ensures ToString(op, intReg, fpReg, rmName) == Asm(Mnemonic(op), Names(Layout(op), intReg, fpReg) + RmOperand(op, rmName))
  {
    var names := Names(Layout(op), intReg, fpReg);
    assert names + [] == names;
    match op
    case Fused(_, rd, rs1, rs2, rs3, _) => assert names == [fpReg(rd), fpReg(rs1), fpReg(rs2), fpReg(rs3)];
    case Arith(_, rd, rs1, rs2, _) => assert names == [fpReg(rd), fpReg(rs1), fpReg(rs2)];
    case FSQRT_D(rd, rs1, _) => assert names == [fpReg(rd), fpReg(rs1)];
    case Sign(_, rd, rs1, rs2) => assert names == [fpReg(rd), fpReg(rs1), fpReg(rs2)];
    case FCVT_S_D(rd, rs1, _) => assert names == [fpReg(rd), fpReg(rs1)];
    case FCVT_D_S(rd, rs1, _) => assert names == [fpReg(rd), fpReg(rs1)];
    case Compare(_, rd, rs1, rs2) => assert names == [intReg(rd), fpReg(rs1), fpReg(rs2)];
    case FCLASS_D(rd, rs1) => assert names == [intReg(rd), fpReg(rs1)];
    case FCVT_W_D(_, rd, rs1, _) => assert names == [intReg(rd), fpReg(rs1)];
    case FCVT_D_W(_, rd, rs1, _) => assert names == [fpReg(rd), intReg(rs1)];
  }

  /** Every non-memory line reads back as the mnemonic, the register names
      of the op's layout, and the rounding-mode operand. */
  lemma Forms(op: Op, intReg: int -> string, fpReg: int -> string, rmName: int -> Option<string>)
    requires !op.FLD? && !op.FSD?
    requires CleanNames(intReg) && CleanNames(fpReg) && CleanRm(rmName)
    ensures ReadAsm(ToString(op, intReg, fpReg, rmName)) ==
      (Mnemonic(op), Names(Layout(op), intReg, fpReg) + RmOperand(op, rmName))
  {
    Shape(op, intReg, fpReg, rmName);
    MnemonicClean(op);
    var names := Names(Layout(op), intReg, fpReg);
    NamesCommaFree(Layout(op), intReg, fpReg);
    var all := names + RmOperand(op, rmName);
    assert CommaFree(all) by {
      forall i | 0 <= i < |all| ensures NoChar(all[i], ',') {
        if i >= |names| {
          assert all[i] in RmOperand(op, rmName);
        }
      }
    }
    ReadAsmRoundTrip(Mnemonic(op), all);
  }

  /** FLD prints `fld fd,imm(xs1)`; FSD prints `fsd fs2,imm(xs1)`. */
  lemma MemoryForms(op: Op, intReg: int -> string, fpReg: int -> string, rmName: int -> Option<string>)
    requires op.FLD? || op.FSD?
    requires CleanNames(intReg) && CleanNames(fpReg)
    ensures ReadAsm(ToString(op, intReg, fpReg, rmName)) ==
      if op.FLD? then ("fld", [fpReg(op.rd), Address(op.imm, intReg(op.rs1))])
      else ("fsd", [fpReg(op.rs2), Address(op.imm, intReg(op.rs1))])
  {
    AddressCommaFree(op.imm, intReg(op.rs1));
    if op.FLD? {
      ReadAsmRoundTrip("fld", [fpReg(op.rd), Address(op.imm, intReg(op.rs1))]);
    } else {
      ReadAsmRoundTrip("fsd", [fpReg(op.rs2), Address(op.imm, intReg(op.rs1))]);
    }
  }

  /** The rounding-mode operand: for most ops the mode's name, printed
      exactly when the lookup finds one; for FCVT.D.S, FCVT.D.W and
      FCVT.D.WU an extra operand exactly when the lookup finds none, and
      that operand is `(null)`. */
  lemma RoundingSuffix(op: Op, intReg: int -> string, fpReg: int -> string, rmName: int -> Option<string>)
    requires !op.FLD? && !op.FSD?
    requires CleanNames(intReg) && CleanNames(fpReg) && CleanRm(rmName)
    ensures var (_, operands) := ReadAsm(ToString(op, intReg, fpReg, rmName));
      && (!HasRm(op) ==> |operands| == |Layout(op)|)
      && (HasRm(op) && !Inverted(op) ==>
            (|operands| == |Layout(op)| + 1 <==> rmName(op.rm).Some?)
            && (rmName(op.rm).Some? ==> operands[|operands| - 1] == rmName(op.rm).value))
      && (Inverted(op) ==>
            (|operands| == |Layout(op)| + 1 <==> rmName(op.rm).None?)
            && (rmName(op.rm).None? ==> operands[|operands| - 1] == NullText))
  {
    Forms(op, intReg, fpReg, rmName);
  }

  /** Comparisons, classification and conversion to an integer print an
      integer destination and FP sources; conversion from an integer prints
      an FP destination and an integer source. */
  lemma RegisterFiles(op: Op, intReg: int -> string, fpReg: int -> string, rmName: int -> Option<string>)
    requires op.Compare? || op.FCLASS_D? || op.FCVT_W_D? || op.FCVT_D_W?
    requires CleanNames(intReg) && CleanNames(fpReg) && CleanRm(rmName)
    ensures var (_, operands) := ReadAsm(ToString(op, intReg, fpReg, rmName));
      && |operands| >= 2
      && (op.FCVT_D_W? ==> operands[0] == fpReg(op.rd) && operands[1] == intReg(op.rs1))
      && (!op.FCVT_D_W? ==> operands[0] == intReg(op.rd) && operands[1] == fpReg(op.rs1))
      && (op.Compare? ==> |operands| == 3 && operands[2] == fpReg(op.rs2))
  {
    Forms(op, intReg, fpReg, rmName);
  }

  /** The single-precision op with the same kind and operands. */
  function Single(op: Op): RV32F.Op
    requires op.Fused? || op.Arith? || op.Sign? || op.Compare?
  {
    match op
    case Fused(k, rd, rs1, rs2, rs3, rm) => RV32F.Fused(k, rd, rs1, rs2, rs3, rm)
    case Arith(k, rd, rs1, rs2, rm) => RV32F.Arith(k, rd, rs1, rs2, rm)
    case Sign(k, rd, rs1, rs2) => RV32F.Sign(k, rd, rs1, rs2)
    case Compare(k, rd, rs1, rs2) => RV32F.Compare(k, rd, rs1, rs2)
  }

  /** The double-precision ops that have a single-precision counterpart
      print its line with `.s` changed to `.d`: the same operands, and a
      mnemonic that differs only in the suffix. */
  lemma LikeRV32F(op: Op, intReg: int -> string, fpReg: int -> string, rmName: int -> Option<string>)
    requires op.Fused? || op.Arith? || op.Sign? || op.Compare?
    requires CleanNames(intReg) && CleanNames(fpReg) && CleanRm(rmName)
    ensures var (md, od) := ReadAsm(ToString(op, intReg, fpReg, rmName));
      var (ms, os) := ReadAsm(RV32F.ToString(Single(op), intReg, fpReg, rmName));
      && od == os
      && |md| == |ms| >= 2 && md[..|md| - 2] == ms[..|ms| - 2]
      && md[|md| - 2..] == ".d" && ms[|ms| - 2..] == ".s"
  {
    Forms(op, intReg, fpReg, rmName);
    RV32F.Forms(Single(op), intReg, fpReg, rmName);
    SameLayout(op, rmName);
    SuffixSwap(op);
  }

  lemma SameLayout(op: Op, rmName: int -> Option<string>)
    requires op.Fused? || op.Arith? || op.Sign? || op.Compare?
    ensures Layout(op) == RV32F.Layout(Single(op))
    ensures RmOperand(op, rmName) == RV32F.RmOperand(Single(op), rmName)
  {
  }

  lemma SuffixSwap(op: Op)
    requires op.Fused? || op.Arith? || op.Sign? || op.Compare?
    ensures var md, ms := Mnemonic(op), RV32F.Mnemonic(Single(op));
      && |md| == |ms| >= 2 && md[..|md| - 2] == ms[..|ms| - 2]
      && md[|md| - 2..] == ".d" && ms[|ms| - 2..] == ".s"
  {
    var stem :=
      if op.Fused? then FusedStem(op.fused) else if op.Arith? then ArithStem(op.arith)
      else if op.Sign? then SignStem(op.sign) else CompareStem(op.compare);
    assert Mnemonic(op) == stem + ".d" && RV32F.Mnemonic(Single(op)) == stem + ".s";
    assert (stem + ".d")[..|stem|] == stem && (stem + ".s")[..|stem|] == stem;
  }


}
