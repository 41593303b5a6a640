/** The instruction decoder: a 32-bit word is cut into the fields of the
    RISC-V base formats (section 2.2 of the RISC-V Unprivileged ISA,
    version 20191213) and dispatched on opcode, funct3, funct7 and funct12
    to one of the RV32I, Zifencei, Zicsr or privileged ops; a word no case
    matches decodes to None (the null pointer).  `signExtend(bits, value)`
    is the emulator's sign-extension helper, supplied from outside.  Where
    the source ORs shifted fields together the fields never overlap, so the
    model adds them. */
module OpDecoder {
  import opened Text
  import opened Common
  import opened RV64I

  /** `(insn >> lsb) & ((1 << width) - 1)`, with the source's assertions on
      `lsb` and `width` as the precondition. */
  function Pick(insn: uint32, lsb: int, width: int): (r: uint32)
    requires 0 <= lsb < 32 && 1 <= width < 32
    ensures r == Bits(insn, lsb, width) && r < Pow2(width)
  {
    BitsAtMost(insn, lsb, width);
    Bits(insn, lsb, width)
  }

  /** The decoder object remembers the XLEN it was made for, but decoding
      does not consult it: every word goes through the RV32I table. */
  function Decode(xlen: XLEN, insn: uint32, signExtend: (int, uint32) -> uint32): Option<Op> {
    DecodeRV32I(insn, signExtend)
  }

  /** The fields the decoder cuts out of a word before looking at any of
      them.  The CSR number is `funct12` and the shift amount is `rs2`;
      `immB` and `immJ` are the B- and J-format offsets before sign
      extension; `fm`, `pred` and `succ` are the FENCE fields. */
  datatype Fields = Fields(
    opcode: uint32, funct3: uint32, funct7: uint32, funct12: uint32,
    rd: uint32, rs1: uint32, rs2: uint32, immU: uint32, immI: uint32,
    immB: uint32, immJ: uint32, fm: uint32, pred: uint32, succ: uint32)

  function Cut(insn: uint32): Fields {
    Fields(
      opcode := Pick(insn, 0, 7),
      funct3 := Pick(insn, 12, 3),
      funct7 := Pick(insn, 25, 7),
      funct12 := Pick(insn, 20, 12),
      rd := Pick(insn, 7, 5),
      rs1 := Pick(insn, 15, 5),
      rs2 := Pick(insn, 20, 5),
      immU := Pick(insn, 12, 20),
      immI := Pick(insn, 20, 12),
      immB := Pick(insn, 31, 1) * 0x1000 + Pick(insn, 25, 6) * 0x20
              + Pick(insn, 8, 4) * 0x2 + Pick(insn, 7, 1) * 0x800,
      immJ := Pick(insn, 31, 1) * 0x10_0000 + Pick(insn, 21, 10) * 0x2
              + Pick(insn, 20, 1) * 0x800 + Pick(insn, 12, 8) * 0x1000,
      fm := Pick(insn, 28, 4),
      pred := Pick(insn, 24, 4),
      succ := Pick(insn, 20, 4))
  }

  /** The source also computes the S-format immediate, and never uses it. */
  function DecodeRV32I(insn: uint32, signExtend: (int, uint32) -> uint32): Option<Op> {
    Dispatch(Cut(insn), signExtend)
  }

  function Dispatch(f: Fields, signExtend: (int, uint32) -> uint32): Option<Op> {
    if f.opcode == 0x37 then Some(LUI(f.rd, f.immU))
    else if f.opcode == 0x17 then Some(AUIPC(f.rd, f.immU))
    else if f.opcode == 0x6f then Some(JAL(f.rd, signExtend(20, f.immJ)))
    else if f.opcode == 0x67 then (if f.funct3 == 0 then Some(JALR(f.rd, f.rs1, f.immI)) else None)
    else if f.opcode == 0x63 then DecodeBranch(f.funct3, f.rs1, f.rs2, signExtend(13, f.immB))
    else if f.opcode == 0x03 then DecodeLoad(f.funct3, f.rd, f.rs1, f.immI)
    else if f.opcode == 0x23 then DecodeStore(f.funct3, f.rs1, f.rs2, f.immI)
    else if f.opcode == 0x13 then DecodeOpImm(f.funct3, f.funct7, f.rd, f.rs1, f.immI, f.rs2)
    else if f.opcode == 0x33 then DecodeOp(f.funct3, f.funct7, f.rd, f.rs1, f.rs2)
    else if f.opcode == 0x0f then
      if f.funct3 == 0 && f.rd == 0 && f.rs1 == 0 && f.fm == 0 then Some(FENCE(f.rd, f.rs1, f.fm, f.pred, f.succ))
      else if f.funct3 == 1 && f.rd == 0 && f.rs1 == 0 && f.funct12 == 0 then Some(FENCE_I(f.rd, f.rs1, f.immI))
      else None
    else if f.opcode == 0x73 then DecodeSystem(f.funct3, f.funct7, f.funct12, f.funct12, f.rd, f.rs1, f.rs2)
    else None
  }

  function DecodeBranch(funct3: nat, rs1: int, rs2: int, imm: uint32): Option<Op> {
    if funct3 == 0 then Some(Branch(BEQ, rs1, rs2, imm))
    else if funct3 == 1 then Some(Branch(BNE, rs1, rs2, imm))
    else if funct3 == 4 then Some(Branch(BLT, rs1, rs2, imm))
    else if funct3 == 5 then Some(Branch(BGE, rs1, rs2, imm))
    else if funct3 == 6 then Some(Branch(BLTU, rs1, rs2, imm))
    else if funct3 == 7 then Some(Branch(BGEU, rs1, rs2, imm))
    else None
  }

  function DecodeLoad(funct3: nat, rd: int, rs1: int, imm: uint32): Option<Op> {
    if funct3 == 0 then Some(Load(LB, rd, rs1, imm))
    else if funct3 == 1 then Some(Load(LH, rd, rs1, imm))
    else if funct3 == 2 then Some(Load(LW, rd, rs1, imm))
    else if funct3 == 4 then Some(Load(LBU, rd, rs1, imm))
    else if funct3 == 5 then Some(Load(LHU, rd, rs1, imm))
    else None
  }

  /** Stores are built with the I-format immediate. */
  function DecodeStore(funct3: nat, rs1: int, rs2: int, imm: uint32): Option<Op> {
    if funct3 == 0 then Some(Store(SB, rs1, rs2, imm))
    else if funct3 == 1 then Some(Store(SH, rs1, rs2, imm))
    else if funct3 == 2 then Some(Store(SW, rs1, rs2, imm))
    else None
  }

  /** The six immediate ops are matched on funct3 alone, before the shifts
      test funct7. */
  function DecodeOpImm(funct3: nat, funct7: nat, rd: int, rs1: int, imm: uint32, shamt: int): Option<Op> {
    if funct3 == 0 then Some(OpImm(ADDI, rd, rs1, imm))
    else if funct3 == 2 then Some(OpImm(SLTI, rd, rs1, imm))
    else if funct3 == 3 then Some(OpImm(SLTIU, rd, rs1, imm))
    else if funct3 == 4 then Some(OpImm(XORI, rd, rs1, imm))
    else if funct3 == 6 then Some(OpImm(ORI, rd, rs1, imm))
    else if funct3 == 7 then Some(OpImm(ANDI, rd, rs1, imm))
    else if funct3 == 1 && funct7 == 0 then Some(Shift(SLLI, rd, rs1, shamt))
    else if funct3 == 5 && funct7 == 0 then Some(Shift(SRLI, rd, rs1, shamt))
    else if funct3 == 5 && funct7 == 0x20 then Some(Shift(SRAI, rd, rs1, shamt))
    else None
  }

  function DecodeOp(funct3: nat, funct7: nat, rd: int, rs1: int, rs2: int): Option<Op> {
    if funct7 == 0 then
      if funct3 == 0 then Some(OpReg(ADD, rd, rs1, rs2))
      else if funct3 == 1 then Some(OpReg(SLL, rd, rs1, rs2))
      else if funct3 == 2 then Some(OpReg(SLT, rd, rs1, rs2))
      else if funct3 == 3 then Some(OpReg(SLTU, rd, rs1, rs2))
      else if funct3 == 4 then Some(OpReg(XOR, rd, rs1, rs2))
      else if funct3 == 5 then Some(OpReg(SRL, rd, rs1, rs2))
      else if funct3 == 6 then Some(OpReg(OR, rd, rs1, rs2))
      else if funct3 == 7 then Some(OpReg(AND, rd, rs1, rs2))
      else None
    else if funct7 == 0x20 then
      if funct3 == 0 then Some(OpReg(SUB, rd, rs1, rs2))
      else if funct3 == 5 then Some(OpReg(SRA, rd, rs1, rs2))
      else None
    else None
  }

  /** SFENCE.VMA is checked first; then the funct12 codes of the
      environment-call and trap-return group; then the six CSR ops, whose
      immediate forms take the rs1 field as their immediate. */
  function DecodeSystem(funct3: nat, funct7: nat, funct12: nat, csr: uint32, rd: int, rs1: uint32, rs2: int): Option<Op> {
    if funct3 == 0 && rd == 0 && funct7 == 0x09 then Some(SFENCE_VMA(rs1, rs2))
    else if funct3 == 0 && rd == 0 && rs1 == 0 then
      if funct12 == 0x000 then Some(System(ECALL))
      else if funct12 == 0x001 then Some(System(EBREAK))
      else if funct12 == 0x002 then Some(System(URET))
      else if funct12 == 0x102 then Some(System(SRET))
      else if funct12 == 0x105 then Some(System(WFI))
      else if funct12 == 0x302 then Some(System(MRET))
      else None
    else if funct3 == 1 then Some(Csr(CSRRW, csr, rd, rs1))
    else if funct3 == 2 then Some(Csr(CSRRS, csr, rd, rs1))
    else if funct3 == 3 then Some(Csr(CSRRC, csr, rd, rs1))
    else if funct3 == 5 then Some(CsrImm(CSRRWI, csr, rd, rs1))
    else if funct3 == 6 then Some(CsrImm(CSRRSI, csr, rd, rs1))
    else if funct3 == 7 then Some(CsrImm(CSRRCI, csr, rd, rs1))
    else None
  }

  // ---------------------------------------------------------------------------
  // Instruction words and their fields

  predicate FieldsInRange(f7: nat, rs2: nat, rs1: nat, f3: nat, rd: nat, opcode: nat) {
    f7 < 0x80 && rs2 < 0x20 && rs1 < 0x20 && f3 < 0x8 && rd < 0x20 && opcode < 0x80
  }

  /** The word with the given R-format fields, bit 31 down to bit 0. */
  function Word(f7: nat, rs2: nat, rs1: nat, f3: nat, rd: nat, opcode: nat): uint32
    requires FieldsInRange(f7, rs2, rs1, f3, rd, opcode)
  {
    f7 * 0x200_0000 + rs2 * 0x10_0000 + rs1 * 0x8000 + f3 * 0x1000 + rd * 0x80 + opcode
  }

  /** The decoder's fields read back what `Word` put in. */
  lemma WordFields(f7: nat, rs2: nat, rs1: nat, f3: nat, rd: nat, opcode: nat)
    requires FieldsInRange(f7, rs2, rs1, f3, rd, opcode)
    ensures var w := Word(f7, rs2, rs1, f3, rd, opcode);
      && Pick(w, 0, 7) == opcode && Pick(w, 7, 5) == rd && Pick(w, 12, 3) == f3
      && Pick(w, 15, 5) == rs1 && Pick(w, 20, 5) == rs2 && Pick(w, 25, 7) == f7
      && Pick(w, 20, 12) == f7 * 0x20 + rs2
      && Pick(w, 12, 20) == f7 * 0x2000 + rs2 * 0x100 + rs1 * 0x8 + f3
  {
    var w := Word(f7, rs2, rs1, f3, rd, opcode);
    LowFields(w, f7, rs2, rs1, f3, rd, opcode);
    HighFields(w, f7, rs2, rs1, f3, rd, opcode);
  }

  lemma LowFields(w: nat, f7: nat, rs2: nat, rs1: nat, f3: nat, rd: nat, opcode: nat)
    requires FieldsInRange(f7, rs2, rs1, f3, rd, opcode) && w == Word(f7, rs2, rs1, f3, rd, opcode)
    ensures Bits(w, 0, 7) == opcode && Bits(w, 7, 5) == rd && Bits(w, 12, 3) == f3
  {
    PowersOfTwo();
    BitsOf(w, 0, 7, f7 * 0x4_0000 + rs2 * 0x2000 + rs1 * 0x100 + f3 * 0x20 + rd, opcode, 0);
    BitsOf(w, 7, 5, f7 * 0x2000 + rs2 * 0x100 + rs1 * 0x8 + f3, rd, opcode);
    BitsOf(w, 12, 3, f7 * 0x400 + rs2 * 0x20 + rs1, f3, rd * 0x80 + opcode);
  }

  lemma HighFields(w: nat, f7: nat, rs2: nat, rs1: nat, f3: nat, rd: nat, opcode: nat)
    requires FieldsInRange(f7, rs2, rs1, f3, rd, opcode) && w == Word(f7, rs2, rs1, f3, rd, opcode)
    ensures Bits(w, 15, 5) == rs1 && Bits(w, 20, 5) == rs2 && Bits(w, 25, 7) == f7
    ensures Bits(w, 20, 12) == f7 * 0x20 + rs2
    ensures Bits(w, 12, 20) == f7 * 0x2000 + rs2 * 0x100 + rs1 * 0x8 + f3
  {
    PowersOfTwo();
    BitsOf(w, 15, 5, f7 * 0x20 + rs2, rs1, f3 * 0x1000 + rd * 0x80 + opcode);
    BitsOf(w, 20, 5, f7, rs2, rs1 * 0x8000 + f3 * 0x1000 + rd * 0x80 + opcode);
    BitsOf(w, 25, 7, 0, f7, rs2 * 0x10_0000 + rs1 * 0x8000 + f3 * 0x1000 + rd * 0x80 + opcode);
    BitsOf(w, 20, 12, 0, f7 * 0x20 + rs2, rs1 * 0x8000 + f3 * 0x1000 + rd * 0x80 + opcode);
    BitsOf(w, 12, 20, 0, f7 * 0x2000 + rs2 * 0x100 + rs1 * 0x8 + f3, rd * 0x80 + opcode);
  }

  lemma PowersOfTwo()
    ensures Pow2(0) == 0x1 && Pow2(1) == 0x2 && Pow2(3) == 0x8 && Pow2(4) == 0x10
    ensures Pow2(5) == 0x20 && Pow2(6) == 0x40 && Pow2(7) == 0x80 && Pow2(8) == 0x100
    ensures Pow2(10) == 0x400 && Pow2(12) == 0x1000 && Pow2(15) == 0x8000
    ensures Pow2(20) == 0x10_0000 && Pow2(21) == 0x20_0000 && Pow2(24) == 0x100_0000
    ensures Pow2(25) == 0x200_0000 && Pow2(28) == 0x1000_0000 && Pow2(31) == 0x8000_0000
    ensures Pow2(32) == 0x1_0000_0000
  {
  }

  /** Any word is the `Word` of its own fields. */
  lemma WordOfFields(insn: uint32)
    ensures FieldsInRange(Pick(insn, 25, 7), Pick(insn, 20, 5), Pick(insn, 15, 5), Pick(insn, 12, 3), Pick(insn, 7, 5), Pick(insn, 0, 7))
    ensures insn == Word(Pick(insn, 25, 7), Pick(insn, 20, 5), Pick(insn, 15, 5), Pick(insn, 12, 3), Pick(insn, 7, 5), Pick(insn, 0, 7))
  {
    var opcode, a1 := insn % 0x80, insn / 0x80;
    var rd, a2 := a1 % 0x20, a1 / 0x20;
    var f3, a3 := a2 % 0x8, a2 / 0x8;
    var rs1, a4 := a3 % 0x20, a3 / 0x20;
    var rs2, f7 := a4 % 0x20, a4 / 0x20;
    assert insn == f7 * 0x200_0000 + rs2 * 0x10_0000 + rs1 * 0x8000 + f3 * 0x1000 + rd * 0x80 + opcode;
    assert f7 < 0x80;
    WordFields(f7, rs2, rs1, f3, rd, opcode);
  }

  // ---------------------------------------------------------------------------
  // Encoding: the inverse the decoder is measured against

  /** The I-format word with a 12-bit immediate in bits 31..20. */
  function IWord(imm: nat, rs1: nat, f3: nat, rd: nat, opcode: nat): uint32
    requires imm < 0x1000 && rs1 < 0x20 && f3 < 0x8 && rd < 0x20 && opcode < 0x80
  {
    Word(imm / 0x20, imm % 0x20, rs1, f3, rd, opcode)
  }

  /** The U-format word with a 20-bit immediate in bits 31..12. */
  function UWord(imm: nat, rd: nat, opcode: nat): uint32
    requires imm < 0x10_0000 && rd < 0x20 && opcode < 0x80
  {
    Word(imm / 0x2000, (imm / 0x100) % 0x20, (imm / 0x8) % 0x20, imm % 0x8, rd, opcode)
  }

  predicate IsReg(r: int) {
    0 <= r < 0x20
  }

  function LoadFunct3(k: LoadKind): nat {
    match k
    case LB => 0 case LH => 1 case LW => 2 case LD => 3
    case LBU => 4 case LHU => 5 case LWU => 6
  }

  function ImmFunct3(k: ImmKind): nat {
    match k
    case ADDI => 0 case ADDIW => 0 case SLTI => 2 case SLTIU => 3
    case XORI => 4 case ORI => 6 case ANDI => 7
  }

  function RegFunct3(k: RegKind): nat {
    match k
    case ADD => 0 case ADDW => 0 case SUB => 0 case SUBW => 0
    case SLL => 1 case SLLW => 1 case SLT => 2 case SLTU => 3 case XOR => 4
    case SRL => 5 case SRLW => 5 case SRA => 5 case SRAW => 5 case OR => 6 case AND => 7
  }

  function SystemFunct12(k: SystemKind): (r: nat)
    ensures r < 0x1000 && r / 0x20 != 0x09
  {
    match k
    case ECALL => 0x000 case EBREAK => 0x001 case URET => 0x002
    case SRET => 0x102 case WFI => 0x105 case MRET => 0x302
  }

  function CsrFunct3(k: CsrKind): nat {
    match k
    case CSRRW => 1 case CSRRS => 2 case CSRRC => 3
  }

  function CsrImmFunct3(k: CsrImmKind): nat {
    match k
    case CSRRWI => 5 case CSRRSI => 6 case CSRRCI => 7
  }

  /** The ops this decoder can produce, with fields in range, other than
      JAL, branches and stores (whose immediates are not stored verbatim;
      see `JumpWord`, `BranchWord` and `StoreWord`). */
  predicate Encodable(op: Op) {
    match op
    case LUI(rd, imm) => IsReg(rd) && imm < 0x10_0000
    case AUIPC(rd, imm) => IsReg(rd) && imm < 0x10_0000
    case JAL(_, _) => false
    case JALR(rd, rs1, imm) => IsReg(rd) && IsReg(rs1) && imm < 0x1000
    case Branch(_, _, _, _) => false
    case Load(k, rd, rs1, imm) => k != LD && k != LWU && IsReg(rd) && IsReg(rs1) && imm < 0x1000
    case Store(_, _, _, _) => false
    case OpImm(k, rd, rs1, imm) => k != ADDIW && IsReg(rd) && IsReg(rs1) && imm < 0x1000
    case Shift(k, rd, rs1, shamt) =>
      (k == SLLI || k == SRLI || k == SRAI) && IsReg(rd) && IsReg(rs1) && IsReg(shamt)
    case OpReg(k, rd, rs1, rs2) =>
      k != ADDW && k != SUBW && k != SLLW && k != SRLW && k != SRAW
      && IsReg(rd) && IsReg(rs1) && IsReg(rs2)
    case FENCE(rd, rs1, fm, pred, succ) => rd == 0 && rs1 == 0 && fm == 0 && pred < 0x10 && succ < 0x10
    case FENCE_I(rd, rs1, imm) => rd == 0 && rs1 == 0 && imm == 0
    case System(_) => true
    case Csr(_, csr, rd, rs1) => csr < 0x1000 && IsReg(rd) && IsReg(rs1)
    case CsrImm(_, csr, rd, uimm) => csr < 0x1000 && IsReg(rd) && uimm < 0x20
    case SFENCE_VMA(rs1, rs2) => IsReg(rs1) && IsReg(rs2)
  }

  /** The instruction word of an op, as the RISC-V encoding tables give it. */
  function Encode(op: Op): uint32
    requires Encodable(op)
  {
    match op
    case LUI(rd, imm) => UWord(imm, rd, 0x37)
    case AUIPC(rd, imm) => UWord(imm, rd, 0x17)
    case JALR(rd, rs1, imm) => IWord(imm, rs1, 0, rd, 0x67)
    case Load(k, rd, rs1, imm) => IWord(imm, rs1, LoadFunct3(k), rd, 0x03)
    case OpImm(k, rd, rs1, imm) => IWord(imm, rs1, ImmFunct3(k), rd, 0x13)
    case Shift(k, rd, rs1, shamt) =>
      Word(if k == SRAI then 0x20 else 0, shamt, rs1, if k == SLLI then 1 else 5, rd, 0x13)
    case OpReg(k, rd, rs1, rs2) =>
      Word(if k == SUB || k == SRA then 0x20 else 0, rs2, rs1, RegFunct3(k), rd, 0x33)
    case FENCE(_, _, _, pred, succ) => Word(pred / 2, (pred % 2) * 0x10 + succ, 0, 0, 0, 0x0f)
    case FENCE_I(rd, rs1, _) => Word(0, 0, rs1, 1, rd, 0x0f)
    case System(k) => IWord(SystemFunct12(k), 0, 0, 0, 0x73)
    case Csr(k, csr, rd, rs1) => IWord(csr, rs1, CsrFunct3(k), rd, 0x73)
    case CsrImm(k, csr, rd, uimm) => IWord(csr, uimm, CsrImmFunct3(k), rd, 0x73)
    case SFENCE_VMA(rs1, rs2) => Word(0x09, rs2, rs1, 0, 0, 0x73)
  }

  /** What `Cut` gives for a word assembled from R-format fields. */
  lemma CutWord(f7: nat, rs2: nat, rs1: nat, f3: nat, rd: nat, opcode: nat)
    requires FieldsInRange(f7, rs2, rs1, f3, rd, opcode)
    ensures var f := Cut(Word(f7, rs2, rs1, f3, rd, opcode));
      && f.opcode == opcode && f.funct3 == f3 && f.funct7 == f7
      && f.rd == rd && f.rs1 == rs1 && f.rs2 == rs2
      && f.funct12 == f.immI == f7 * 0x20 + rs2
      && f.immU == f7 * 0x2000 + rs2 * 0x100 + rs1 * 0x8 + f3
  {
    WordFields(f7, rs2, rs1, f3, rd, opcode);
  }

  /** The FENCE fields: fm in bits 31..28, pred in 27..24, succ in 23..20. */
  lemma FenceFields(f7: nat, rs2: nat, rs1: nat, f3: nat, rd: nat, opcode: nat)
    requires FieldsInRange(f7, rs2, rs1, f3, rd, opcode)
    ensures var w := Word(f7, rs2, rs1, f3, rd, opcode);
      && Pick(w, 28, 4) == f7 / 0x8 && Pick(w, 24, 4) == (f7 % 0x8) * 2 + rs2 / 0x10
      && Pick(w, 20, 4) == rs2 % 0x10
  {
    var w := Word(f7, rs2, rs1, f3, rd, opcode);
    var low := rs1 * 0x8000 + f3 * 0x1000 + rd * 0x80 + opcode;
    PowersOfTwo();
    BitsOf(w, 28, 4, 0, f7 / 0x8, (f7 % 0x8) * 0x200_0000 + rs2 * 0x10_0000 + low);
    BitsOf(w, 24, 4, f7 / 0x8, (f7 % 0x8) * 2 + rs2 / 0x10, (rs2 % 0x10) * 0x10_0000 + low);
    BitsOf(w, 20, 4, f7 * 2 + rs2 / 0x10, rs2 % 0x10, low);
  }

  /** The pieces of the B- and J-format offsets. */
  lemma OffsetFields(f7: nat, rs2: nat, rs1: nat, f3: nat, rd: nat, opcode: nat)
    requires FieldsInRange(f7, rs2, rs1, f3, rd, opcode)
    ensures var w := Word(f7, rs2, rs1, f3, rd, opcode);
      && Pick(w, 31, 1) == f7 / 0x40 && Pick(w, 25, 6) == f7 % 0x40
      && Pick(w, 8, 4) == rd / 2 && Pick(w, 7, 1) == rd % 2
      && Pick(w, 21, 10) == (f7 % 0x40) * 0x10 + rs2 / 2 && Pick(w, 20, 1) == rs2 % 2
      && Pick(w, 12, 8) == rs1 * 0x8 + f3
  {
    var w := Word(f7, rs2, rs1, f3, rd, opcode);
    var low20 := rs1 * 0x8000 + f3 * 0x1000 + rd * 0x80 + opcode;
    var low25 := rs2 * 0x10_0000 + low20;
    PowersOfTwo();
    BitsOf(w, 31, 1, 0, f7 / 0x40, (f7 % 0x40) * 0x200_0000 + low25);
    BitsOf(w, 25, 6, f7 / 0x40, f7 % 0x40, low25);
    BitsOf(w, 8, 4, f7 * 0x2000 + rs2 * 0x100 + rs1 * 0x8 + f3, rd / 2, (rd % 2) * 0x80 + opcode);
    BitsOf(w, 7, 1, f7 * 0x2_0000 + rs2 * 0x1000 + rs1 * 0x80 + f3 * 0x10 + rd / 2, rd % 2, opcode);
    BitsOf(w, 21, 10, f7 / 0x40, (f7 % 0x40) * 0x10 + rs2 / 2, (rs2 % 2) * 0x10_0000 + low20);
    BitsOf(w, 20, 1, f7 * 0x10 + rs2 / 2, rs2 % 2, low20);
    BitsOf(w, 12, 8, f7 * 0x20 + rs2, rs1 * 0x8 + f3, rd * 0x80 + opcode);
  }

  /** Decoding an encoded op gives the op back: every field lands where the
      decoder reads it, and no earlier test of the decoder captures the
      word. */
  lemma DecodeEncode(op: Op, signExtend: (int, uint32) -> uint32)
    requires Encodable(op)
    ensures DecodeRV32I(Encode(op), signExtend) == Some(op)
  {
    var w := Encode(op);
    match op
    case LUI(rd, imm) =>
      assert w == UWord(imm, rd, 0x37);
      DecodeUpper(0x37, rd, imm, signExtend);
    case AUIPC(rd, imm) =>
      assert w == UWord(imm, rd, 0x17);
      DecodeUpper(0x17, rd, imm, signExtend);
    case JALR(rd, rs1, imm) =>
      assert w == IWord(imm, rs1, 0, rd, 0x67);
      DecodeJalr(rd, rs1, imm, signExtend);
    case Load(k, rd, rs1, imm) =>
      assert w == IWord(imm, rs1, LoadFunct3(k), rd, 0x03);
      DecodeLoadWord(k, rd, rs1, imm, signExtend);
    case OpImm(k, rd, rs1, imm) =>
      assert w == IWord(imm, rs1, ImmFunct3(k), rd, 0x13);
      DecodeOpImmWord(k, rd, rs1, imm, signExtend);
    case Shift(k, rd, rs1, shamt) =>
      assert w == Word(if k == SRAI then 0x20 else 0, shamt, rs1, if k == SLLI then 1 else 5, rd, 0x13);
      DecodeShiftWord(k, rd, rs1, shamt, signExtend);
    case OpReg(k, rd, rs1, rs2) =>
      assert w == Word(if k == SUB || k == SRA then 0x20 else 0, rs2, rs1, RegFunct3(k), rd, 0x33);
      DecodeOpWord(k, rd, rs1, rs2, signExtend);
    case FENCE(_, _, _, pred, succ) =>
      assert w == Word(pred / 2, (pred % 2) * 0x10 + succ, 0, 0, 0, 0x0f);
      DecodeFence(pred, succ, signExtend);
    case FENCE_I(rd, rs1, _) =>
      assert w == Word(0, 0, rs1, 1, rd, 0x0f);
      DecodeFenceI(rd, rs1, signExtend);
    case System(k) =>
      assert w == IWord(SystemFunct12(k), 0, 0, 0, 0x73);
      DecodeEnvironment(k, signExtend);
    case Csr(k, csr, rd, rs1) =>
      assert w == IWord(csr, rs1, CsrFunct3(k), rd, 0x73);
      DecodeCsr(k, csr, rd, rs1, signExtend);
    case CsrImm(k, csr, rd, uimm) =>
      assert w == IWord(csr, uimm, CsrImmFunct3(k), rd, 0x73);
      DecodeCsrImm(k, csr, rd, uimm, signExtend);
    case SFENCE_VMA(rs1, rs2) =>
      assert w == Word(0x09, rs2, rs1, 0, 0, 0x73);
      DecodeSfence(rs1, rs2, signExtend);
  }


  lemma DecodeUpper(opcode: nat, rd: nat, imm: uint32, signExtend: (int, uint32) -> uint32)
    requires opcode == 0x37 || opcode == 0x17
    requires rd < 0x20 && imm < 0x10_0000
    ensures DecodeRV32I(UWord(imm, rd, opcode), signExtend) ==
      Some(if opcode == 0x37 then LUI(rd, imm) else AUIPC(rd, imm))
  {
    UpperImmediate(imm);
    CutWord(imm / 0x2000, (imm / 0x100) % 0x20, (imm / 0x8) % 0x20, imm % 0x8, rd, opcode);
  }

  /** What `Cut` gives for an I-format word. */
  lemma CutIWord(imm: nat, rs1: nat, f3: nat, rd: nat, opcode: nat)
    requires imm < 0x1000 && rs1 < 0x20 && f3 < 0x8 && rd < 0x20 && opcode < 0x80
    ensures var f := Cut(IWord(imm, rs1, f3, rd, opcode));
      && f.opcode == opcode && f.funct3 == f3 && f.rd == rd && f.rs1 == rs1
      && f.funct12 == f.immI == imm && f.funct7 == imm / 0x20 && f.rs2 == imm % 0x20
  {
    CutWord(imm / 0x20, imm % 0x20, rs1, f3, rd, opcode);
  }

  lemma DecodeJalr(rd: nat, rs1: nat, imm: uint32, signExtend: (int, uint32) -> uint32)
    requires rd < 0x20 && rs1 < 0x20 && imm < 0x1000
    ensures DecodeRV32I(IWord(imm, rs1, 0, rd, 0x67), signExtend) == Some(JALR(rd, rs1, imm))
  {
    CutIWord(imm, rs1, 0, rd, 0x67);
  }

  lemma DecodeLoadWord(k: LoadKind, rd: nat, rs1: nat, imm: uint32, signExtend: (int, uint32) -> uint32)
    requires k != LD && k != LWU && rd < 0x20 && rs1 < 0x20 && imm < 0x1000
    ensures DecodeRV32I(IWord(imm, rs1, LoadFunct3(k), rd, 0x03), signExtend) == Some(Load(k, rd, rs1, imm))
  {
    CutIWord(imm, rs1, LoadFunct3(k), rd, 0x03);
    DispatchLoad(Cut(IWord(imm, rs1, LoadFunct3(k), rd, 0x03)), k, signExtend);
  }

  lemma DispatchLoad(f: Fields, k: LoadKind, signExtend: (int, uint32) -> uint32)
    requires k != LD && k != LWU && f.opcode == 0x03 && f.funct3 == LoadFunct3(k)
    ensures Dispatch(f, signExtend) == Some(Load(k, f.rd, f.rs1, f.immI))
  {
    match k
    case LB => case LH => case LW => case LBU => case LHU =>
  }

  lemma DecodeOpImmWord(k: ImmKind, rd: nat, rs1: nat, imm: uint32, signExtend: (int, uint32) -> uint32)
    requires k != ADDIW && rd < 0x20 && rs1 < 0x20 && imm < 0x1000
    ensures DecodeRV32I(IWord(imm, rs1, ImmFunct3(k), rd, 0x13), signExtend) == Some(OpImm(k, rd, rs1, imm))
  {
    CutIWord(imm, rs1, ImmFunct3(k), rd, 0x13);
    DispatchOpImm(Cut(IWord(imm, rs1, ImmFunct3(k), rd, 0x13)), k, signExtend);
  }

  lemma DispatchOpImm(f: Fields, k: ImmKind, signExtend: (int, uint32) -> uint32)
    requires k != ADDIW && f.opcode == 0x13 && f.funct3 == ImmFunct3(k)
    ensures Dispatch(f, signExtend) == Some(OpImm(k, f.rd, f.rs1, f.immI))
  {
    match k
    case ADDI => case SLTI => case SLTIU => case XORI => case ORI => case ANDI =>
  }

  lemma DecodeShiftWord(k: ShiftKind, rd: nat, rs1: nat, shamt: nat, signExtend: (int, uint32) -> uint32)
    requires (k == SLLI || k == SRLI || k == SRAI) && rd < 0x20 && rs1 < 0x20 && shamt < 0x20
    ensures DecodeRV32I(Word(if k == SRAI then 0x20 else 0, shamt, rs1, if k == SLLI then 1 else 5, rd, 0x13), signExtend)
      == Some(Shift(k, rd, rs1, shamt))
  {
    CutWord(if k == SRAI then 0x20 else 0, shamt, rs1, if k == SLLI then 1 else 5, rd, 0x13);
  }

  lemma DecodeOpWord(k: RegKind, rd: nat, rs1: nat, rs2: nat, signExtend: (int, uint32) -> uint32)
    requires k != ADDW && k != SUBW && k != SLLW && k != SRLW && k != SRAW
    requires rd < 0x20 && rs1 < 0x20 && rs2 < 0x20
    ensures DecodeRV32I(Word(if k == SUB || k == SRA then 0x20 else 0, rs2, rs1, RegFunct3(k), rd, 0x33), signExtend)
      == Some(OpReg(k, rd, rs1, rs2))
  {
    var f7 := if k == SUB || k == SRA then 0x20 else 0;
    CutWord(f7, rs2, rs1, RegFunct3(k), rd, 0x33);
    DispatchOp(Cut(Word(f7, rs2, rs1, RegFunct3(k), rd, 0x33)), k, signExtend);
  }

  lemma DispatchOp(f: Fields, k: RegKind, signExtend: (int, uint32) -> uint32)
    requires k != ADDW && k != SUBW && k != SLLW && k != SRLW && k != SRAW
    requires f.opcode == 0x33 && f.funct3 == RegFunct3(k)
    requires f.funct7 == if k == SUB || k == SRA then 0x20 else 0
    ensures Dispatch(f, signExtend) == Some(OpReg(k, f.rd, f.rs1, f.rs2))
  {
    match k
    case ADD => case SUB => case SLL => case SLT => case SLTU => case XOR =>
    case SRL => case SRA => case OR => case AND =>
  }

  lemma DecodeFence(pred: uint32, succ: uint32, signExtend: (int, uint32) -> uint32)
    requires pred < 0x10 && succ < 0x10
    ensures DecodeRV32I(Word(pred / 2, (pred % 2) * 0x10 + succ, 0, 0, 0, 0x0f), signExtend)
      == Some(FENCE(0, 0, 0, pred, succ))
  {
    FenceSplit(pred, succ);
    DecodeFenceFields(pred / 2, (pred % 2) * 0x10 + succ, pred, succ, signExtend);
  }

  lemma FenceSplit(pred: nat, succ: nat)
    requires pred < 0x10 && succ < 0x10
    ensures var f7, rs2 := pred / 2, (pred % 2) * 0x10 + succ;
      f7 < 0x8 && rs2 < 0x20 && f7 * 2 + rs2 / 0x10 == pred && rs2 % 0x10 == succ
  {
    DivMod((pred % 2) * 0x10 + succ, 0x10, pred % 2, succ);
  }

  /** The same, for the fields pred and succ are split into. */
  lemma DecodeFenceFields(f7: nat, rs2: nat, pred: nat, succ: nat, signExtend: (int, uint32) -> uint32)
    requires f7 < 0x8 && rs2 < 0x20 && f7 * 2 + rs2 / 0x10 == pred && rs2 % 0x10 == succ
    ensures DecodeRV32I(Word(f7, rs2, 0, 0, 0, 0x0f), signExtend) == Some(FENCE(0, 0, 0, pred, succ))
  {
    CutWord(f7, rs2, 0, 0, 0, 0x0f);
    FenceFields(f7, rs2, 0, 0, 0, 0x0f);
    DivMod(f7, 0x8, 0, f7);
  }

  lemma DecodeFenceI(rd: nat, rs1: nat, signExtend: (int, uint32) -> uint32)
    requires rd == 0 && rs1 == 0
    ensures DecodeRV32I(Word(0, 0, rs1, 1, rd, 0x0f), signExtend) == Some(FENCE_I(0, 0, 0))
  {
    CutWord(0, 0, rs1, 1, rd, 0x0f);
  }

  lemma DecodeEnvironment(k: SystemKind, signExtend: (int, uint32) -> uint32)
    ensures DecodeRV32I(IWord(SystemFunct12(k), 0, 0, 0, 0x73), signExtend) == Some(System(k))
  {
    CutIWord(SystemFunct12(k), 0, 0, 0, 0x73);
    DispatchEnvironment(Cut(IWord(SystemFunct12(k), 0, 0, 0, 0x73)), k, signExtend);
  }

  lemma DispatchEnvironment(f: Fields, k: SystemKind, signExtend: (int, uint32) -> uint32)
    requires f.opcode == 0x73 && f.funct3 == 0 && f.rd == 0 && f.rs1 == 0
    requires f.funct12 == SystemFunct12(k) && f.funct7 == SystemFunct12(k) / 0x20
    ensures Dispatch(f, signExtend) == Some(System(k))
  {
    match k
    case ECALL => case EBREAK => case URET => case SRET => case WFI => case MRET =>
  }

  lemma DecodeCsr(k: CsrKind, csr: uint32, rd: nat, rs1: nat, signExtend: (int, uint32) -> uint32)
    requires csr < 0x1000 && rd < 0x20 && rs1 < 0x20
    ensures DecodeRV32I(IWord(csr, rs1, CsrFunct3(k), rd, 0x73), signExtend) == Some(Csr(k, csr, rd, rs1))
  {
    CutIWord(csr, rs1, CsrFunct3(k), rd, 0x73);
    DispatchCsr(Cut(IWord(csr, rs1, CsrFunct3(k), rd, 0x73)), k, signExtend);
  }

  lemma DispatchCsr(f: Fields, k: CsrKind, signExtend: (int, uint32) -> uint32)
    requires f.opcode == 0x73 && f.funct3 == CsrFunct3(k)
    ensures Dispatch(f, signExtend) == Some(Csr(k, f.funct12, f.rd, f.rs1))
  {
    match k
    case CSRRW => case CSRRS => case CSRRC =>
  }

  lemma DecodeCsrImm(k: CsrImmKind, csr: uint32, rd: nat, uimm: uint32, signExtend: (int, uint32) -> uint32)
    requires csr < 0x1000 && rd < 0x20 && uimm < 0x20
    ensures DecodeRV32I(IWord(csr, uimm, CsrImmFunct3(k), rd, 0x73), signExtend) == Some(CsrImm(k, csr, rd, uimm))
  {
    CutIWord(csr, uimm, CsrImmFunct3(k), rd, 0x73);
    DispatchCsrImm(Cut(IWord(csr, uimm, CsrImmFunct3(k), rd, 0x73)), k, signExtend);
  }

  lemma DispatchCsrImm(f: Fields, k: CsrImmKind, signExtend: (int, uint32) -> uint32)
    requires f.opcode == 0x73 && f.funct3 == CsrImmFunct3(k)
    ensures Dispatch(f, signExtend) == Some(CsrImm(k, f.funct12, f.rd, f.rs1))
  {
    match k
    case CSRRWI => case CSRRSI => case CSRRCI =>
  }

  lemma DecodeSfence(rs1: nat, rs2: nat, signExtend: (int, uint32) -> uint32)
    requires rs1 < 0x20 && rs2 < 0x20
    ensures DecodeRV32I(Word(0x09, rs2, rs1, 0, 0, 0x73), signExtend) == Some(SFENCE_VMA(rs1, rs2))
  {
    CutWord(0x09, rs2, rs1, 0, 0, 0x73);
  }

  lemma UpperImmediate(imm: nat)
    requires imm < 0x10_0000
    ensures (imm / 0x2000) * 0x2000 + ((imm / 0x100) % 0x20) * 0x100 + ((imm / 0x8) % 0x20) * 0x8 + imm % 0x8 == imm
  {
  }

  // ---------------------------------------------------------------------------
  // Decoding loses nothing: a decoded word is the encoding of its op

  /** What `CutWord` and `FenceFields` tell about the fields of a word. */
  predicate FieldsOf(f: Fields, f7: nat, rs2: nat, rs1: nat, f3: nat, rd: nat, opcode: nat) {
    && FieldsInRange(f7, rs2, rs1, f3, rd, opcode)
    && f.opcode == opcode && f.funct3 == f3 && f.funct7 == f7
    && f.rd == rd && f.rs1 == rs1 && f.rs2 == rs2
    && f.funct12 == f.immI == f7 * 0x20 + rs2
    && f.immU == f7 * 0x2000 + rs2 * 0x100 + rs1 * 0x8 + f3
    && f.fm == f7 / 0x8 && f.pred == (f7 % 0x8) * 2 + rs2 / 0x10 && f.succ == rs2 % 0x10
  }

  /** Every word the decoder accepts, other than jumps, branches and stores,
      is the encoding of the op it decodes to; with `DecodeEncode` this makes
      the decoder a bijection between those words and the encodable ops. */
  lemma EncodeDecode(insn: uint32, signExtend: (int, uint32) -> uint32)
    requires DecodeRV32I(insn, signExtend).Some?
    requires var op := DecodeRV32I(insn, signExtend).value; !op.JAL? && !op.Branch? && !op.Store?
    ensures var op := DecodeRV32I(insn, signExtend).value; Encodable(op) && Encode(op) == insn
  {
    var f7, rs2, rs1 := Pick(insn, 25, 7), Pick(insn, 20, 5), Pick(insn, 15, 5);
    var f3, rd, opcode := Pick(insn, 12, 3), Pick(insn, 7, 5), Pick(insn, 0, 7);
    WordOfFields(insn);
    CutWord(f7, rs2, rs1, f3, rd, opcode);
    FenceFields(f7, rs2, rs1, f3, rd, opcode);
    Reencode(Cut(insn), f7, rs2, rs1, f3, rd, opcode, signExtend);
  }

  lemma Reencode(f: Fields, f7: nat, rs2: nat, rs1: nat, f3: nat, rd: nat, opcode: nat, signExtend: (int, uint32) -> uint32)
    requires FieldsOf(f, f7, rs2, rs1, f3, rd, opcode) && Dispatch(f, signExtend).Some?
    requires var op := Dispatch(f, signExtend).value; !op.JAL? && !op.Branch? && !op.Store?
    ensures var op := Dispatch(f, signExtend).value;
      Encodable(op) && Encode(op) == Word(f7, rs2, rs1, f3, rd, opcode)
  {
    if opcode == 0x37 || opcode == 0x17 {
      UpperSplit(f7, rs2, rs1, f3);
    } else if opcode == 0x67 || opcode == 0x03 {
      ReencodeLoad(f, f7, rs2, rs1, f3, rd, opcode, signExtend);
    } else if opcode == 0x13 {
      ReencodeOpImm(f, f7, rs2, rs1, f3, rd, signExtend);
    } else if opcode == 0x33 {
      ReencodeOp(f, f7, rs2, rs1, f3, rd, signExtend);
    } else if opcode == 0x0f {
      ReencodeFence(f, f7, rs2, rs1, f3, rd, signExtend);
    } else {
      ReencodeSystem(f, f7, rs2, rs1, f3, rd, opcode, signExtend);
    }
  }

  /** An I-format immediate is split into funct7 and rs2 and back. */
  lemma ISplit(f7: nat, rs2: nat)
    requires f7 < 0x80 && rs2 < 0x20
    ensures (f7 * 0x20 + rs2) / 0x20 == f7 && (f7 * 0x20 + rs2) % 0x20 == rs2
  {
    DivMod(f7 * 0x20 + rs2, 0x20, f7, rs2);
  }

  lemma UpperSplit(f7: nat, rs2: nat, rs1: nat, f3: nat)
    requires f7 < 0x80 && rs2 < 0x20 && rs1 < 0x20 && f3 < 0x8
    ensures var imm := f7 * 0x2000 + rs2 * 0x100 + rs1 * 0x8 + f3;
      imm / 0x2000 == f7 && (imm / 0x100) % 0x20 == rs2 && (imm / 0x8) % 0x20 == rs1 && imm % 0x8 == f3
  {
    var imm := f7 * 0x2000 + rs2 * 0x100 + rs1 * 0x8 + f3;
    DivMod(imm, 0x2000, f7, rs2 * 0x100 + rs1 * 0x8 + f3);
    DivMod(imm, 0x100, f7 * 0x20 + rs2, rs1 * 0x8 + f3);
    DivMod(f7 * 0x20 + rs2, 0x20, f7, rs2);
    DivMod(imm, 0x8, f7 * 0x400 + rs2 * 0x20 + rs1, f3);
    DivMod(f7 * 0x400 + rs2 * 0x20 + rs1, 0x20, f7 * 0x20 + rs2, rs1);
  }

  lemma ReencodeLoad(f: Fields, f7: nat, rs2: nat, rs1: nat, f3: nat, rd: nat, opcode: nat, signExtend: (int, uint32) -> uint32)
    requires FieldsOf(f, f7, rs2, rs1, f3, rd, opcode) && (opcode == 0x67 || opcode == 0x03)
    requires Dispatch(f, signExtend).Some?
    ensures var op := Dispatch(f, signExtend).value;
      Encodable(op) && Encode(op) == Word(f7, rs2, rs1, f3, rd, opcode)
  {
    ISplit(f7, rs2);
  }

  lemma ReencodeOpImm(f: Fields, f7: nat, rs2: nat, rs1: nat, f3: nat, rd: nat, signExtend: (int, uint32) -> uint32)
    requires FieldsOf(f, f7, rs2, rs1, f3, rd, 0x13) && Dispatch(f, signExtend).Some?
    ensures var op := Dispatch(f, signExtend).value;
      Encodable(op) && Encode(op) == Word(f7, rs2, rs1, f3, rd, 0x13)
  {
    ISplit(f7, rs2);
  }

  lemma ReencodeOp(f: Fields, f7: nat, rs2: nat, rs1: nat, f3: nat, rd: nat, signExtend: (int, uint32) -> uint32)
    requires FieldsOf(f, f7, rs2, rs1, f3, rd, 0x33) && Dispatch(f, signExtend).Some?
    ensures var op := Dispatch(f, signExtend).value;
      Encodable(op) && Encode(op) == Word(f7, rs2, rs1, f3, rd, 0x33)
  {
  }

  lemma ReencodeFence(f: Fields, f7: nat, rs2: nat, rs1: nat, f3: nat, rd: nat, signExtend: (int, uint32) -> uint32)
    requires FieldsOf(f, f7, rs2, rs1, f3, rd, 0x0f) && Dispatch(f, signExtend).Some?
    ensures var op := Dispatch(f, signExtend).value;
      Encodable(op) && Encode(op) == Word(f7, rs2, rs1, f3, rd, 0x0f)
  {
  }

  lemma ReencodeSystem(f: Fields, f7: nat, rs2: nat, rs1: nat, f3: nat, rd: nat, opcode: nat, signExtend: (int, uint32) -> uint32)
    requires FieldsOf(f, f7, rs2, rs1, f3, rd, opcode) && Dispatch(f, signExtend).Some?
    requires opcode != 0x37 && opcode != 0x17 && opcode != 0x67 && opcode != 0x03
    requires opcode != 0x13 && opcode != 0x33 && opcode != 0x0f
    requires var op := Dispatch(f, signExtend).value; !op.JAL? && !op.Branch? && !op.Store?
    ensures var op := Dispatch(f, signExtend).value;
      Encodable(op) && Encode(op) == Word(f7, rs2, rs1, f3, rd, opcode)
  {
    ISplit(f7, rs2);
  }

  // ---------------------------------------------------------------------------
  // Jumps, branches and stores

  /** The B- and J-format offsets the decoder assembles. */
  lemma CutOffsets(f7: nat, rs2: nat, rs1: nat, f3: nat, rd: nat, opcode: nat)
    requires FieldsInRange(f7, rs2, rs1, f3, rd, opcode)
    ensures var f := Cut(Word(f7, rs2, rs1, f3, rd, opcode));
      && f.immB == (f7 / 0x40) * 0x1000 + (f7 % 0x40) * 0x20 + (rd / 2) * 0x2 + (rd % 2) * 0x800
      && f.immJ == (f7 / 0x40) * 0x10_0000 + ((f7 % 0x40) * 0x10 + rs2 / 2) * 0x2
                   + (rs2 % 2) * 0x800 + (rs1 * 0x8 + f3) * 0x1000
  {
    OffsetFields(f7, rs2, rs1, f3, rd, opcode);
  }

  function BranchFunct3(k: BranchKind): nat {
    match k
    case BEQ => 0 case BNE => 1 case BLT => 4 case BGE => 5 case BLTU => 6 case BGEU => 7
  }

  /** The B-format word of a branch by the even 13-bit `offset`. */
  function BranchWord(k: BranchKind, rs1: nat, rs2: nat, offset: nat): uint32
    requires rs1 < 0x20 && rs2 < 0x20 && offset < 0x2000
  {
    Word((offset / 0x1000) * 0x40 + (offset / 0x20) % 0x40, rs2, rs1, BranchFunct3(k),
         ((offset / 2) % 0x10) * 2 + (offset / 0x800) % 2, 0x63)
  }

  /** A branch word decodes to its kind and registers, with the offset
      handed to the sign extension as a 13-bit value. */
  lemma DecodeBranchWord(k: BranchKind, rs1: nat, rs2: nat, offset: nat, signExtend: (int, uint32) -> uint32)
    requires rs1 < 0x20 && rs2 < 0x20 && offset < 0x2000 && offset % 2 == 0
    ensures DecodeRV32I(BranchWord(k, rs1, rs2, offset), signExtend) == Some(Branch(k, rs1, rs2, signExtend(13, offset)))
  {
    var f7, rd := (offset / 0x1000) * 0x40 + (offset / 0x20) % 0x40, ((offset / 2) % 0x10) * 2 + (offset / 0x800) % 2;
    BranchOffsetSplit(offset);
    assert BranchWord(k, rs1, rs2, offset) == Word(f7, rs2, rs1, BranchFunct3(k), rd, 0x63);
    DecodeBranchFields(k, rs1, rs2, f7, rd, offset, signExtend);
  }

  /** The same, for the fields the offset is split into. */
  lemma DecodeBranchFields(k: BranchKind, rs1: nat, rs2: nat, f7: nat, rd: nat, offset: nat, signExtend: (int, uint32) -> uint32)
    requires FieldsInRange(f7, rs2, rs1, BranchFunct3(k), rd, 0x63)
    requires (f7 / 0x40) * 0x1000 + (f7 % 0x40) * 0x20 + (rd / 2) * 0x2 + (rd % 2) * 0x800 == offset
    ensures DecodeRV32I(Word(f7, rs2, rs1, BranchFunct3(k), rd, 0x63), signExtend) == Some(Branch(k, rs1, rs2, signExtend(13, offset)))
  {
    CutWord(f7, rs2, rs1, BranchFunct3(k), rd, 0x63);
    CutOffsets(f7, rs2, rs1, BranchFunct3(k), rd, 0x63);
    DispatchBranch(Cut(Word(f7, rs2, rs1, BranchFunct3(k), rd, 0x63)), k, signExtend);
  }

  lemma DispatchBranch(f: Fields, k: BranchKind, signExtend: (int, uint32) -> uint32)
    requires f.opcode == 0x63 && f.funct3 == BranchFunct3(k)
    ensures Dispatch(f, signExtend) == Some(Branch(k, f.rs1, f.rs2, signExtend(13, f.immB)))
  {
    match k
    case BEQ => case BNE => case BLT => case BGE => case BLTU => case BGEU =>
  }

  lemma BranchOffsetSplit(offset: nat)
    requires offset < 0x2000 && offset % 2 == 0
    ensures var f7, rd := (offset / 0x1000) * 0x40 + (offset / 0x20) % 0x40, ((offset / 2) % 0x10) * 2 + (offset / 0x800) % 2;
      && f7 < 0x80 && rd < 0x20
      && (f7 / 0x40) * 0x1000 + (f7 % 0x40) * 0x20 + (rd / 2) * 0x2 + (rd % 2) * 0x800 == offset
  {
    var hi, b11, mid, lo := offset / 0x1000, (offset / 0x800) % 2, (offset / 0x20) % 0x40, (offset / 2) % 0x10;
    DivDiv(offset, 2, 0x10);
    DivDiv(offset, 0x20, 0x40);
    DivDiv(offset, 0x800, 2);
    DivMod(hi * 0x40 + mid, 0x40, hi, mid);
    DivMod(lo * 2 + b11, 2, lo, b11);
  }

  /** The J-format word of a jump by the even 21-bit `offset`. */
  function JumpWord(rd: nat, offset: nat): uint32
    requires rd < 0x20 && offset < 0x20_0000
  {
    Word((offset / 0x10_0000) * 0x40 + (offset / 0x20) % 0x40, ((offset / 2) % 0x10) * 2 + (offset / 0x800) % 2,
         (offset / 0x8000) % 0x20, (offset / 0x1000) % 0x8, rd, 0x6f)
  }

  /** A jump word decodes to JAL with the offset handed to the sign
      extension, together with the width 20. */
  lemma DecodeJumpWord(rd: nat, offset: nat, signExtend: (int, uint32) -> uint32)
    requires rd < 0x20 && offset < 0x20_0000 && offset % 2 == 0
    ensures DecodeRV32I(JumpWord(rd, offset), signExtend) == Some(JAL(rd, signExtend(20, offset)))
  {
    var f7 := (offset / 0x10_0000) * 0x40 + (offset / 0x20) % 0x40;
    var rs2 := ((offset / 2) % 0x10) * 2 + (offset / 0x800) % 2;
    var rs1, f3 := (offset / 0x8000) % 0x20, (offset / 0x1000) % 0x8;
    JumpOffsetSplit(offset);
    assert JumpWord(rd, offset) == Word(f7, rs2, rs1, f3, rd, 0x6f);
    DecodeJumpFields(rd, f7, rs2, rs1, f3, offset, signExtend);
  }

  /** The same, for the fields the offset is split into. */
  lemma DecodeJumpFields(rd: nat, f7: nat, rs2: nat, rs1: nat, f3: nat, offset: nat, signExtend: (int, uint32) -> uint32)
    requires FieldsInRange(f7, rs2, rs1, f3, rd, 0x6f)
    requires (f7 / 0x40) * 0x10_0000 + ((f7 % 0x40) * 0x10 + rs2 / 2) * 0x2 + (rs2 % 2) * 0x800 + (rs1 * 0x8 + f3) * 0x1000 == offset
    ensures DecodeRV32I(Word(f7, rs2, rs1, f3, rd, 0x6f), signExtend) == Some(JAL(rd, signExtend(20, offset)))
  {
    CutWord(f7, rs2, rs1, f3, rd, 0x6f);
    CutOffsets(f7, rs2, rs1, f3, rd, 0x6f);
  }

  lemma JumpOffsetSplit(offset: nat)
    requires offset < 0x20_0000 && offset % 2 == 0
    ensures var f7 := (offset / 0x10_0000) * 0x40 + (offset / 0x20) % 0x40;
      var rs2 := ((offset / 2) % 0x10) * 2 + (offset / 0x800) % 2;
      var rs1, f3 := (offset / 0x8000) % 0x20, (offset / 0x1000) % 0x8;
      && f7 < 0x80 && rs2 < 0x20
      && (f7 / 0x40) * 0x10_0000 + ((f7 % 0x40) * 0x10 + rs2 / 2) * 0x2 + (rs2 % 2) * 0x800 + (rs1 * 0x8 + f3) * 0x1000 == offset
  {
    var hi, b11, mid, lo := offset / 0x10_0000, (offset / 0x800) % 2, (offset / 0x20) % 0x40, (offset / 2) % 0x10;
    var rs1, f3 := (offset / 0x8000) % 0x20, (offset / 0x1000) % 0x8;
    DivDiv(offset, 2, 0x10);
    DivDiv(offset, 0x20, 0x40);
    DivDiv(offset, 0x800, 2);
    DivDiv(offset, 0x1000, 0x100);
    DivDiv(offset, 0x1000, 8);
    DivDiv(offset / 0x1000, 8, 0x20);
    DivMod(hi * 0x40 + mid, 0x40, hi, mid);
    DivMod(lo * 2 + b11, 2, lo, b11);
    DivMod((offset / 0x1000) % 0x100, 8, rs1, f3);
  }

  function StoreFunct3(k: StoreKind): nat {
    match k
    case SB => 0 case SH => 1 case SW => 2 case SD => 3
  }

  /** The S-format word of a store: offset bits 11..5 in bits 31..25 and
      offset bits 4..0 in bits 11..7. */
  function StoreWord(k: StoreKind, rs1: nat, rs2: nat, offset: nat): uint32
    requires rs1 < 0x20 && rs2 < 0x20 && offset < 0x1000
  {
    Word(offset / 0x20, rs2, rs1, StoreFunct3(k), offset % 0x20, 0x23)
  }

  /** A store word decodes with the I-format immediate: the upper seven
      offset bits followed by the rs2 field, so the low five offset bits
      are lost and the register number takes their place. */
  lemma DecodeStoreWord(k: StoreKind, rs1: nat, rs2: nat, offset: nat, signExtend: (int, uint32) -> uint32)
    requires k != SD && rs1 < 0x20 && rs2 < 0x20 && offset < 0x1000
    ensures DecodeRV32I(StoreWord(k, rs1, rs2, offset), signExtend) == Some(Store(k, rs1, rs2, (offset / 0x20) * 0x20 + rs2))
    ensures DecodeRV32I(StoreWord(k, rs1, rs2, offset), signExtend).value.imm == offset <==> offset % 0x20 == rs2
  {
    CutWord(offset / 0x20, rs2, rs1, StoreFunct3(k), offset % 0x20, 0x23);
    DispatchStore(Cut(StoreWord(k, rs1, rs2, offset)), k, signExtend);
    StoreImmediate(offset, rs2);
  }

  lemma DispatchStore(f: Fields, k: StoreKind, signExtend: (int, uint32) -> uint32)
    requires k != SD && f.opcode == 0x23 && f.funct3 == StoreFunct3(k)
    ensures Dispatch(f, signExtend) == Some(Store(k, f.rs1, f.rs2, f.immI))
  {
    match k
    case SB => case SH => case SW =>
  }

  lemma StoreImmediate(offset: nat, rs2: nat)
    requires offset < 0x1000 && rs2 < 0x20
    ensures (offset / 0x20) * 0x20 + rs2 == offset <==> offset % 0x20 == rs2
  {
  }

  /** `sw x2,4(x1)`, the word 0x0020a223, decodes with offset 2. */
  lemma StoreOffsetExample(insn: uint32, signExtend: (int, uint32) -> uint32)
    requires insn == 0x0020_A223
    ensures DecodeRV32I(insn, signExtend) == Some(Store(SW, 1, 2, 2))
  {
    assert insn == Word(0, 2, 1, 2, 4, 0x23);
    assert StoreWord(SW, 1, 2, 4) == Word(0, 2, 1, 2, 4, 0x23);
    DecodeStoreWord(SW, 1, 2, 4, signExtend);
  }

  // ---------------------------------------------------------------------------
  // Words the decoder rejects

  /** The register width never changes the decoding. */
  lemma DecodeIgnoresXlen(insn: uint32, signExtend: (int, uint32) -> uint32)
    ensures Decode(XLEN32, insn, signExtend) == Decode(XLEN64, insn, signExtend) == DecodeRV32I(insn, signExtend)
  {
  }

  /** The opcodes the decoder handles. */
  predicate MajorOpcode(opcode: nat) {
    opcode == 0x37 || opcode == 0x17 || opcode == 0x6f || opcode == 0x67 || opcode == 0x63
    || opcode == 0x03 || opcode == 0x23 || opcode == 0x13 || opcode == 0x33 || opcode == 0x0f
    || opcode == 0x73
  }

  /** The combinations of opcode, funct3 and funct7 with no op: an opcode
      outside the table; JALR with a non-zero funct3; branch funct3 2 and 3;
      load funct3 3, 6 and 7; store funct3 above 2; an OP funct7 other than
      0 and 0b0100000, or 0b0100000 with a funct3 other than SUB's and SRA's;
      MISC-MEM funct3 above 1; SYSTEM funct3 4. */
  predicate Undefined(opcode: nat, f3: nat, f7: nat) {
    || !MajorOpcode(opcode)
    || (opcode == 0x67 && f3 != 0)
    || (opcode == 0x63 && (f3 == 2 || f3 == 3))
    || (opcode == 0x03 && (f3 == 3 || f3 == 6 || f3 == 7))
    || (opcode == 0x23 && f3 > 2)
    || (opcode == 0x33 && f7 != 0 && f7 != 0x20)
    || (opcode == 0x33 && f7 == 0x20 && f3 != 0 && f3 != 5)
    || (opcode == 0x0f && f3 > 1)
    || (opcode == 0x73 && f3 == 4)
  }

  lemma DispatchUndefined(f: Fields, signExtend: (int, uint32) -> uint32)
    requires Undefined(f.opcode, f.funct3, f.funct7)
    ensures Dispatch(f, signExtend) == None
  {
  }

  /** Every such word decodes to None, whatever its other fields hold. */
  lemma DecodeUndefined(insn: uint32, signExtend: (int, uint32) -> uint32)
    requires Undefined(Pick(insn, 0, 7), Pick(insn, 12, 3), Pick(insn, 25, 7))
    ensures DecodeRV32I(insn, signExtend) == None
  {
    DispatchUndefined(Cut(insn), signExtend);
  }

  /** A FENCE needs rd, rs1 and fm all zero, a FENCE.I needs rd, rs1 and
      the immediate all zero; any other MISC-MEM word decodes to None. */
  lemma DecodeMiscMem(insn: uint32, signExtend: (int, uint32) -> uint32)
    requires Pick(insn, 0, 7) == 0x0f
    ensures var f3, rd, rs1 := Pick(insn, 12, 3), Pick(insn, 7, 5), Pick(insn, 15, 5);
      DecodeRV32I(insn, signExtend).Some? <==>
        || (f3 == 0 && rd == 0 && rs1 == 0 && Pick(insn, 28, 4) == 0)
        || (f3 == 1 && rd == 0 && rs1 == 0 && Pick(insn, 20, 12) == 0)
  {
    DispatchMiscMem(Cut(insn), signExtend);
  }

  lemma DispatchMiscMem(f: Fields, signExtend: (int, uint32) -> uint32)
    requires f.opcode == 0x0f
    ensures Dispatch(f, signExtend).Some? <==>
      || (f.funct3 == 0 && f.rd == 0 && f.rs1 == 0 && f.fm == 0)
      || (f.funct3 == 1 && f.rd == 0 && f.rs1 == 0 && f.funct12 == 0)
  {
  }

  /** SFENCE.VMA is recognised before the environment-call group, so its
      rs1 and rs2 fields are free; the CSR ops take the funct12 field as
      the CSR number, and the immediate forms the rs1 field as `uimm`. */
  lemma DecodeSystemWord(insn: uint32, signExtend: (int, uint32) -> uint32)
    requires Pick(insn, 0, 7) == 0x73
    ensures var f3, rd, rs1, csr := Pick(insn, 12, 3), Pick(insn, 7, 5), Pick(insn, 15, 5), Pick(insn, 20, 12);
      && (f3 == 0 && rd == 0 && Pick(insn, 25, 7) == 0x09 ==>
            DecodeRV32I(insn, signExtend) == Some(SFENCE_VMA(rs1, Pick(insn, 20, 5))))
      && (f3 == 1 ==> DecodeRV32I(insn, signExtend) == Some(Csr(CSRRW, csr, rd, rs1)))
      && (f3 == 2 ==> DecodeRV32I(insn, signExtend) == Some(Csr(CSRRS, csr, rd, rs1)))
      && (f3 == 3 ==> DecodeRV32I(insn, signExtend) == Some(Csr(CSRRC, csr, rd, rs1)))
      && (f3 == 5 ==> DecodeRV32I(insn, signExtend) == Some(CsrImm(CSRRWI, csr, rd, rs1)))
      && (f3 == 6 ==> DecodeRV32I(insn, signExtend) == Some(CsrImm(CSRRSI, csr, rd, rs1)))
      && (f3 == 7 ==> DecodeRV32I(insn, signExtend) == Some(CsrImm(CSRRCI, csr, rd, rs1)))
  {
    DispatchSystem(Cut(insn), signExtend);
  }

  lemma DispatchSystem(f: Fields, signExtend: (int, uint32) -> uint32)
    requires f.opcode == 0x73
    ensures && (f.funct3 == 0 && f.rd == 0 && f.funct7 == 0x09 ==>
                  Dispatch(f, signExtend) == Some(SFENCE_VMA(f.rs1, f.rs2)))
            && (f.funct3 == 1 ==> Dispatch(f, signExtend) == Some(Csr(CSRRW, f.funct12, f.rd, f.rs1)))
            && (f.funct3 == 2 ==> Dispatch(f, signExtend) == Some(Csr(CSRRS, f.funct12, f.rd, f.rs1)))
            && (f.funct3 == 3 ==> Dispatch(f, signExtend) == Some(Csr(CSRRC, f.funct12, f.rd, f.rs1)))
            && (f.funct3 == 5 ==> Dispatch(f, signExtend) == Some(CsrImm(CSRRWI, f.funct12, f.rd, f.rs1)))
            && (f.funct3 == 6 ==> Dispatch(f, signExtend) == Some(CsrImm(CSRRSI, f.funct12, f.rd, f.rs1)))
            && (f.funct3 == 7 ==> Dispatch(f, signExtend) == Some(CsrImm(CSRRCI, f.funct12, f.rd, f.rs1)))
  {
  }
}
