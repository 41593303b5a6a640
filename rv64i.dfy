/** The base integer instructions (RV32I and the RV64I additions, the
    Zifencei and Zicsr ops and the privileged SRET, MRET, WFI and SFENCE.VMA)
    and their disassembly.  Each instruction class of the emulator is one
    constructor here (the classes sharing an operand layout share a
    constructor and are told apart by a kind); a constructor stores its
    arguments unchanged.  Register numbers are C++ `int`s and immediates
    `uint32_t`s; `reg` names an integer register and `csrName` a CSR address,
    both supplied from outside. */
module RV64I {
  import opened Text
  import opened AsmText

  datatype BranchKind = BEQ | BNE | BLT | BGE | BLTU | BGEU
  datatype LoadKind = LB | LH | LW | LD | LBU | LHU | LWU
  datatype StoreKind = SB | SH | SW | SD
  datatype ImmKind = ADDI | ADDIW | SLTI | SLTIU | XORI | ORI | ANDI
  datatype ShiftKind = SLLI | SLLIW | SRLI | SRLIW | SRAI | SRAIW
  datatype RegKind =
    | ADD | ADDW | SUB | SUBW | SLL | SLLW | SLT | SLTU
    | XOR | SRL | SRLW | SRA | SRAW | OR | AND
  datatype SystemKind = ECALL | EBREAK | URET | SRET | MRET | WFI
  datatype CsrKind = CSRRW | CSRRS | CSRRC
  datatype CsrImmKind = CSRRWI | CSRRSI | CSRRCI

  datatype Op =
    | LUI(rd: int, imm: uint32)
    | AUIPC(rd: int, imm: uint32)
    | JAL(rd: int, imm: uint32)
    | JALR(rd: int, rs1: int, imm: uint32)
    | Branch(branch: BranchKind, rs1: int, rs2: int, imm: uint32)
    | Load(load: LoadKind, rd: int, rs1: int, imm: uint32)
    | Store(store: StoreKind, rs1: int, rs2: int, imm: uint32)
    | OpImm(opImm: ImmKind, rd: int, rs1: int, imm: uint32)
    | Shift(shift: ShiftKind, rd: int, rs1: int, shamt: int)
    | OpReg(opReg: RegKind, rd: int, rs1: int, rs2: int)
    | FENCE(rd: int, rs1: int, fm: uint32, pred: uint32, succ: uint32)
    | FENCE_I(rd: int, rs1: int, imm: uint32)
    | System(system: SystemKind)
    | Csr(csrOp: CsrKind, csr: uint32, rd: int, rs1: int)
    | CsrImm(csrImmOp: CsrImmKind, csr: uint32, rd: int, uimm: uint32)
    | SFENCE_VMA(rs1: int, rs2: int)

  // ---------------------------------------------------------------------------
  // Mnemonics

  function BranchName(k: BranchKind): string {
    match k
    case BEQ => "beq"
    case BNE => "bne"
    case BLT => "blt"
    case BGE => "bge"
    case BLTU => "bltu"
    case BGEU => "bgeu"
  }

  function LoadName(k: LoadKind): string {
    match k
    case LB => "lb"
    case LH => "lh"
    case LW => "lw"
    case LD => "ld"
    case LBU => "lbu"
    case LHU => "lhu"
    case LWU => "lwu"
  }

  function StoreName(k: StoreKind): string {
    match k
    case SB => "sb"
    case SH => "sh"
    case SW => "sw"
    case SD => "sd"
  }

  function ImmName(k: ImmKind): string {
    match k
    case ADDI => "addi"
    case ADDIW => "addiw"
    case SLTI => "slti"
    case SLTIU => "sltiu"
    case XORI => "xori"
    case ORI => "ori"
    case ANDI => "andi"
  }

  function ShiftName(k: ShiftKind): string {
    match k
    case SLLI => "slli"
    case SLLIW => "slliw"
    case SRLI => "srli"
    case SRLIW => "srliw"
    case SRAI => "srai"
    case SRAIW => "sraiw"
  }

  function RegName(k: RegKind): string {
    match k
    case ADD => "add"
    case ADDW => "addw"
    case SUB => "sub"
    case SUBW => "subw"
    case SLL => "sll"
    case SLLW => "sllw"
    case SLT => "slt"
    case SLTU => "sltu"
    case XOR => "xor"
    case SRL => "srl"
    case SRLW => "srlw"
    case SRA => "sra"
    case SRAW => "sraw"
    case OR => "or"
    case AND => "and"
  }

  function SystemName(k: SystemKind): string {
    match k
    case ECALL => "ecall"
    case EBREAK => "ebreak"
    case URET => "uret"
    case SRET => "sret"
    case MRET => "mret"
    case WFI => "wfi"
  }

  // ---------------------------------------------------------------------------
  // Rendering

  /** BEQ prints its mnemonic only; BNE, BLT and BGE print the "z" form
      naming the other register when either source is x0 (rs1 checked
      first); BLTU and BGEU always print three operands. */
  function BranchText(k: BranchKind, rs1: int, rs2: int, imm: uint32, reg: int -> string): string {
    match k
    case BEQ => "beq"
    case BLTU => Asm("bltu", [reg(rs1), reg(rs2), Dec(imm)])
    case BGEU => Asm("bgeu", [reg(rs1), reg(rs2), Dec(imm)])
    case _ =>
      if rs1 == 0 then Asm(BranchName(k) + "z", [reg(rs2), " #" + Dec(imm)])
      else if rs2 == 0 then Asm(BranchName(k) + "z", [reg(rs1), " #" + Dec(imm)])
      else Asm(BranchName(k), [reg(rs1), reg(rs2), Dec(imm)])
  }

  function CsrText(k: CsrKind, csr: uint32, rd: int, rs1: int, reg: int -> string, csrName: uint32 -> string): string {
    match k
    case CSRRW =>
      if rd == 0 then Asm("csrw", [csrName(csr), reg(rs1)])
      else Asm("csrrw", [reg(rd), csrName(csr), reg(rs1)])
    case CSRRS =>
      if rs1 == 0 then Asm("csrr", [reg(rd), csrName(csr)])
      else if rd == 0 then Asm("csrr", [csrName(csr), reg(rs1)])
      else Asm("csrrs", [reg(rd), csrName(csr), reg(rs1)])
    case CSRRC =>
      if rd == 0 then Asm("csrc", [csrName(csr), reg(rs1)])
      else Asm("csrrc", [reg(rd), csrName(csr), reg(rs1)])
  }

  function CsrImmName(k: CsrImmKind): string {
    match k
    case CSRRWI => "csrrwi"
    case CSRRSI => "csrrsi"
    case CSRRCI => "csrrci"
  }

  /** The mnemonic printed when rd is x0. */
  function CsrImmShortName(k: CsrImmKind): string {
    match k
    case CSRRWI => "csrwi"
    case CSRRSI => "csrsi"
    case CSRRCI => "csrci"
  }

  function CsrImmText(k: CsrImmKind, csr: uint32, rd: int, uimm: uint32, reg: int -> string, csrName: uint32 -> string): string {
    if rd == 0 then Asm(CsrImmShortName(k), [csrName(csr), Dec(uimm)])
    else Asm(CsrImmName(k), [reg(rd), csrName(csr), Dec(uimm)])
  }

  /** The `ToString` of every class. */
  function ToString(op: Op, reg: int -> string, csrName: uint32 -> string): string {
    match op
    case LUI(rd, imm) => Asm("lui", [reg(rd), Dec(imm)])
    case AUIPC(rd, imm) => Asm("auipc", [reg(rd), Dec(imm)])
    case JAL(rd, imm) =>
      if rd == 0 then Asm("j", ["#" + Dec(imm)]) else Asm("jal", [reg(rd), Dec(imm)])
    case JALR(rd, rs1, imm) =>
      if rd == 0 then Asm("jr", [reg(rs1), Dec(imm)]) else Asm("jalr", [reg(rd), reg(rs1), Dec(imm)])
    case Branch(k, rs1, rs2, imm) => BranchText(k, rs1, rs2, imm, reg)
    case Load(k, rd, rs1, imm) => Asm(LoadName(k), [reg(rd), Address(imm, reg(rs1))])
    case Store(k, rs1, rs2, imm) => Asm(StoreName(k), [reg(rs2), Address(imm, reg(rs1))])
    case OpImm(k, rd, rs1, imm) => Asm(ImmName(k), [reg(rd), reg(rs1), Dec(imm)])
    case Shift(k, rd, rs1, shamt) => Asm(ShiftName(k), [reg(rd), reg(rs1), Hex(shamt)])
    case OpReg(k, rd, rs1, rs2) => Asm(RegName(k), [reg(rd), reg(rs1), reg(rs2)])
    case FENCE(_, _, _, _, _) => "fence"
    case FENCE_I(_, _, _) => "fence.i"
    case System(k) => SystemName(k)
    case Csr(k, csr, rd, rs1) => CsrText(k, csr, rd, rs1, reg, csrName)
    case CsrImm(k, csr, rd, uimm) => CsrImmText(k, csr, rd, uimm, reg, csrName)
    case SFENCE_VMA(rs1, rs2) => Asm("sfence.vma", [reg(rs1), reg(rs2)])
  }

  // ---------------------------------------------------------------------------
  // Properties, stated through the reader `ReadAsm`

  /** A line read back, for a literal mnemonic and comma-free operands. */
  lemma Reads(m: string, operands: seq<string>)
    requires NoChar(m, ' ') && CommaFree(operands)
    ensures ReadAsm(Asm(m, operands)) == (m, operands)
  {
    ReadAsmRoundTrip(m, operands);
  }

  /** "#" + a number, and " #" + a number, have no comma. */
  lemma TargetCommaFree(prefix: string, imm: uint32)
    requires NoChar(prefix, ',')
    ensures NoChar(prefix + Dec(imm), ',')
  {
    WrapCommaFree(prefix, Dec(imm), "");
    assert prefix + Dec(imm) + "" == prefix + Dec(imm);
  }

  /** JAL to x0 prints `j #imm`, otherwise `jal rd,imm`; JALR to x0 prints
      `jr rs1,imm`, otherwise `jalr rd,rs1,imm`. */
  lemma JumpForms(rd: int, rs1: int, imm: uint32, reg: int -> string, csrName: uint32 -> string)
    requires CleanNames(reg)
    ensures ReadAsm(ToString(JAL(rd, imm), reg, csrName)) ==
      if rd == 0 then ("j", ["#" + Dec(imm)]) else ("jal", [reg(rd), Dec(imm)])
    ensures ReadAsm(ToString(JALR(rd, rs1, imm), reg, csrName)) ==
      if rd == 0 then ("jr", [reg(rs1), Dec(imm)]) else ("jalr", [reg(rd), reg(rs1), Dec(imm)])
  {
    if rd == 0 {
      TargetCommaFree("#", imm);
      Reads("j", ["#" + Dec(imm)]);
      Reads("jr", [reg(rs1), Dec(imm)]);
    } else {
      Reads("jal", [reg(rd), Dec(imm)]);
      Reads("jalr", [reg(rd), reg(rs1), Dec(imm)]);
    }
  }

  /** BNE, BLT and BGE print their "z" form exactly when one source is x0;
      it names rs2 when rs1 is x0 and rs1 otherwise, followed by " #imm". */
  lemma ZeroBranchForms(k: BranchKind, rs1: int, rs2: int, imm: uint32, reg: int -> string, csrName: uint32 -> string)
    requires k == BNE || k == BLT || k == BGE
    requires CleanNames(reg)
    ensures var (m, operands) := ReadAsm(ToString(Branch(k, rs1, rs2, imm), reg, csrName));
      && (m == BranchName(k) + "z" <==> rs1 == 0 || rs2 == 0)
      && (rs1 == 0 ==> operands == [reg(rs2), " #" + Dec(imm)])
      && (rs1 != 0 && rs2 == 0 ==> operands == [reg(rs1), " #" + Dec(imm)])
      && (rs1 != 0 && rs2 != 0 ==> m == BranchName(k) && operands == [reg(rs1), reg(rs2), Dec(imm)])
  {
    var name := BranchName(k);
    BranchNameClean(k);
    assert |name| < |name + "z"|;
    TargetCommaFree(" #", imm);
    assert ToString(Branch(k, rs1, rs2, imm), reg, csrName) == BranchText(k, rs1, rs2, imm, reg);
    if rs1 == 0 {
      Reads(name + "z", [reg(rs2), " #" + Dec(imm)]);
    } else if rs2 == 0 {
      Reads(name + "z", [reg(rs1), " #" + Dec(imm)]);
    } else {
      Reads(name, [reg(rs1), reg(rs2), Dec(imm)]);
    }
  }

  lemma BranchNameClean(k: BranchKind)
    ensures NoChar(BranchName(k), ' ') && NoChar(BranchName(k) + "z", ' ')
  {
    match k
    case BEQ => case BNE => case BLT => case BGE => case BLTU => case BGEU =>
  }

  /** The classes whose rendering is a constant mnemonic. */
  predicate ConstantClass(op: Op) {
    (op.Branch? && op.branch == BEQ) || op.FENCE? || op.FENCE_I? || op.System?
  }

  /** BEQ, FENCE, FENCE.I, ECALL, EBREAK, URET, SRET, MRET and WFI print a
      bare mnemonic that ignores every field and every register name. */
  lemma ConstantForms(a: Op, b: Op, reg: int -> string, csrName: uint32 -> string, reg': int -> string, csrName': uint32 -> string)
    requires ConstantClass(a) && ConstantClass(b)
    requires a.Branch? == b.Branch? && a.FENCE? == b.FENCE? && a.FENCE_I? == b.FENCE_I?
    requires a.System? ==> a == b
    ensures ToString(a, reg, csrName) == ToString(b, reg', csrName')
    ensures ReadAsm(ToString(a, reg, csrName)).1 == []
  {
    var text := ToString(a, reg, csrName);
    assert text == Asm(text, []);
    assert NoChar(text, ' ') by {
      if a.System? {
        match a.system
        case ECALL => case EBREAK => case URET => case SRET => case MRET => case WFI =>
      }
    }
    Reads(text, []);
  }

  /** Loads print `op rd,imm(rs1)` and stores `op rs2,imm(rs1)`: the data
      register first, then the base register inside the address. */
  lemma MemoryForms(op: Op, reg: int -> string, csrName: uint32 -> string)
    requires op.Load? || op.Store?
    requires CleanNames(reg)
    ensures ReadAsm(ToString(op, reg, csrName)) ==
      if op.Load? then (LoadName(op.load), [reg(op.rd), Address(op.imm, reg(op.rs1))])
      else (StoreName(op.store), [reg(op.rs2), Address(op.imm, reg(op.rs1))])
  {
    AddressCommaFree(op.imm, reg(op.rs1));
    if op.Load? {
      var name := LoadName(op.load);
      assert NoChar(name, ' ') by { match op.load case LB => case LH => case LW => case LD => case LBU => case LHU => case LWU => }
      Reads(name, [reg(op.rd), Address(op.imm, reg(op.rs1))]);
    } else {
      var name := StoreName(op.store);
      assert NoChar(name, ' ') by { match op.store case SB => case SH => case SW => case SD => }
      Reads(name, [reg(op.rs2), Address(op.imm, reg(op.rs1))]);
    }
  }

  /** The immediate of an OP-IMM op reads back, as a signed decimal, to
      the 32-bit value stored; a shift amount reads back, as "0x" and hex
      digits, to its 32-bit pattern. */
  lemma ImmediateForms(op: Op, reg: int -> string, csrName: uint32 -> string)
    requires op.OpImm? || op.Shift?
    requires CleanNames(reg)
    ensures var (_, operands) := ReadAsm(ToString(op, reg, csrName));
      && |operands| == 3 && operands[0] == reg(op.rd) && operands[1] == reg(op.rs1)
      && (op.OpImm? ==> exists v :: ParseDecimal(operands[2]) == Some(v) && v % 0x1_0000_0000 == op.imm
                                    && -0x8000_0000 <= v < 0x8000_0000)
      && (op.Shift? ==> |operands[2]| >= 2 && operands[2][..2] == "0x" && AllHex(operands[2][2..])
                        && HexNumberValue(operands[2][2..]) == op.shamt % 0x1_0000_0000)
  {
    if op.OpImm? {
      var name := ImmName(op.opImm);
      assert NoChar(name, ' ') by { match op.opImm case ADDI => case ADDIW => case SLTI => case SLTIU => case XORI => case ORI => case ANDI => }
      Reads(name, [reg(op.rd), reg(op.rs1), Dec(op.imm)]);
      var v := AsInt32(op.imm);
      assert ParseDecimal(Dec(op.imm)) == Some(v);
    } else {
      var name := ShiftName(op.shift);
      assert NoChar(name, ' ') by { match op.shift case SLLI => case SLLIW => case SRLI => case SRLIW => case SRAI => case SRAIW => }
      Reads(name, [reg(op.rd), reg(op.rs1), Hex(op.shamt)]);
    }
  }

  /** CSRRS prints `csrr rd,csr` when rs1 is x0, else `csrr csr,rs1` when
      rd is x0, else `csrrs rd,csr,rs1`. */
  lemma CsrReadForms(csr: uint32, rd: int, rs1: int, reg: int -> string, csrName: uint32 -> string)
    requires CleanNames(reg) && CleanNames(csrName)
    ensures ReadAsm(ToString(Csr(CSRRS, csr, rd, rs1), reg, csrName)) ==
      if rs1 == 0 then ("csrr", [reg(rd), csrName(csr)])
      else if rd == 0 then ("csrr", [csrName(csr), reg(rs1)])
      else ("csrrs", [reg(rd), csrName(csr), reg(rs1)])
  {
    if rs1 == 0 {
      Reads("csrr", [reg(rd), csrName(csr)]);
    } else if rd == 0 {
      Reads("csrr", [csrName(csr), reg(rs1)]);
    } else {
      Reads("csrrs", [reg(rd), csrName(csr), reg(rs1)]);
    }
  }

  /** With rd = x0, CSRRW and CSRRC print the short forms `csrw` and
      `csrc`, which leave rd out; otherwise the full three-operand form. */
  lemma CsrWriteForms(csr: uint32, rd: int, rs1: int, reg: int -> string, csrName: uint32 -> string)
    requires CleanNames(reg) && CleanNames(csrName)
    ensures ReadAsm(ToString(Csr(CSRRW, csr, rd, rs1), reg, csrName)) ==
      if rd == 0 then ("csrw", [csrName(csr), reg(rs1)]) else ("csrrw", [reg(rd), csrName(csr), reg(rs1)])
    ensures ReadAsm(ToString(Csr(CSRRC, csr, rd, rs1), reg, csrName)) ==
      if rd == 0 then ("csrc", [csrName(csr), reg(rs1)]) else ("csrrc", [reg(rd), csrName(csr), reg(rs1)])
  {
    if rd == 0 {
      Reads("csrw", [csrName(csr), reg(rs1)]);
      Reads("csrc", [csrName(csr), reg(rs1)]);
    } else {
      Reads("csrrw", [reg(rd), csrName(csr), reg(rs1)]);
      Reads("csrrc", [reg(rd), csrName(csr), reg(rs1)]);
    }
  }

  /** With rd = x0, CSRRWI, CSRRSI and CSRRCI print the short forms
      `csrwi`, `csrsi` and `csrci`; the immediate is printed with "%d". */
  lemma CsrImmForms(k: CsrImmKind, csr: uint32, rd: int, uimm: uint32, reg: int -> string, csrName: uint32 -> string)
    requires CleanNames(reg) && CleanNames(csrName)
    ensures ReadAsm(ToString(CsrImm(k, csr, rd, uimm), reg, csrName)) ==
      if rd == 0 then (CsrImmShortName(k), [csrName(csr), Dec(uimm)])
      else (CsrImmName(k), [reg(rd), csrName(csr), Dec(uimm)])
  {
    match k
    case CSRRWI =>
      if rd == 0 { Reads("csrwi", [csrName(csr), Dec(uimm)]); }
      else { Reads("csrrwi", [reg(rd), csrName(csr), Dec(uimm)]); }
    case CSRRSI =>
      if rd == 0 { Reads("csrsi", [csrName(csr), Dec(uimm)]); }
      else { Reads("csrrsi", [reg(rd), csrName(csr), Dec(uimm)]); }
    case CSRRCI =>
      if rd == 0 { Reads("csrci", [csrName(csr), Dec(uimm)]); }
      else { Reads("csrrci", [reg(rd), csrName(csr), Dec(uimm)]); }
  }
}
