/** The operation-name table of the older trace tools: `GetString` maps
    each operation code to its enumerator's identifier, spelled as a string
    (so the codes that clash with C++ keywords keep their trailing
    underscore), and any other code to "unknown"; `IntRegNames` names the
    integer registers x0 to x31.  The codes are grouped by extension, in the
    order of the switch. */
module OpDeprecated {
  import opened Text

  /** The RV32I group: the base integer instructions, Zifencei, Zicsr and the privileged instructions. */
  datatype BaseCode =
    | lui | auipc | jal | jalr | beq | bne | blt | bge
    | bltu | bgeu | lb | lh | lw | lbu | lhu | sb
    | sh | sw | addi | slti | sltiu | xori | ori | andi
    | slli | srli | srai | add | sub | sll | slt | sltu
    | xor_ | srl | sra | or_ | and_ | fence | fence_i | ecall
    | ebreak | csrrw | csrrs | csrrc | csrrwi | csrrsi | csrrci | mret
    | sret | uret | wfi | sfence_vma

  /** The RV32M group: the M extension. */
  datatype MulCode =
    | mul | mulh | mulhsu | mulhu | div | divu | rem | remu

  /** The RV32A group: the A extension. */
  datatype AtomicCode =
    | lr_w | sc_w | amoswap_w | amoadd_w | amoxor_w | amoand_w | amoor_w | amomin_w
    | amomax_w | amominu_w | amomaxu_w

  /** The RV32F group: the F extension. */
  datatype SingleCode =
    | flw | fsw | fmadd_s | fmsub_s | fnmsub_s | fnmadd_s | fadd_s | fsub_s
    | fmul_s | fdiv_s | fsqrt_s | fsgnj_s | fsgnjn_s | fsgnjx_s | fmin_s | fmax_s
    | fcvt_w_s | fcvt_wu_s | fmv_x_w | feq_s | flt_s | fle_s | fclass_s | fcvt_s_w
    | fcvt_s_wu | fmv_w_x

  /** The RV32D group: the D extension. */
  datatype DoubleCode =
    | fld | fsd | fmadd_d | fmsub_d | fnmsub_d | fnmadd_d | fadd_d | fsub_d
    | fmul_d | fdiv_d | fsqrt_d | fsgnj_d | fsgnjn_d | fsgnjx_d | fmin_d | fmax_d
    | fcvt_s_d | fcvt_d_s | feq_d | flt_d | fle_d | fclass_d | fcvt_w_d | fcvt_wu_d
    | fcvt_d_w | fcvt_d_wu

  /** The RVC group: the C extension. */
  datatype CompressedCode =
    | c_addi4spn | c_fld | c_lq | c_lw | c_flw | c_ld | c_fsd | c_sq
    | c_sw | c_fsw | c_sd | c_nop | c_addi | c_jal | c_addiw | c_li
    | c_addi16sp | c_lui | c_srli | c_srli64 | c_srai | c_srai64 | c_andi | c_sub
    | c_xor | c_or | c_and | c_subw | c_addw | c_j | c_beqz | c_bnez
    | c_slli | c_slli64 | c_fldsp | c_lqsp | c_lwsp | c_flwsp | c_ldsp | c_jr
    | c_mv | c_ebreak | c_jalr | c_add | c_fsdsp | c_sqsp | c_swsp | c_fswsp
    | c_sdsp

  datatype OpCode =
    | Base(base: BaseCode)
    | Mul(mul: MulCode)
    | Atomic(atomic: AtomicCode)
    | Single(single: SingleCode)
    | Double(double: DoubleCode)
    | Compressed(compressed: CompressedCode)
    | Other(value: int)

  function GetString(op: OpCode): string {
    match op
    case Base(c) => BaseName(c)
    case Mul(c) => MulName(c)
    case Atomic(c) => AtomicName(c)
    case Single(c) => SingleName(c)
    case Double(c) => DoubleName(c)
    case Compressed(c) => CompressedName(c)
    case Other(_) => "unknown"
  }

  function BaseName(c: BaseCode): string {
    match c
    case lui => "lui"
    case auipc => "auipc"
    case jal => "jal"
    case jalr => "jalr"
    case beq => "beq"
    case bne => "bne"
    case blt => "blt"
    case bge => "bge"
    case bltu => "bltu"
    case bgeu => "bgeu"
    case lb => "lb"
    case lh => "lh"
    case lw => "lw"
    case lbu => "lbu"
    case lhu => "lhu"
    case sb => "sb"
    case sh => "sh"
    case sw => "sw"
    case addi => "addi"
    case slti => "slti"
    case sltiu => "sltiu"
    case xori => "xori"
    case ori => "ori"
    case andi => "andi"
    case slli => "slli"
    case srli => "srli"
    case srai => "srai"
    case add => "add"
    case sub => "sub"
    case sll => "sll"
    case slt => "slt"
    case sltu => "sltu"
    case xor_ => "xor_"
    case srl => "srl"
    case sra => "sra"
    case or_ => "or_"
    case and_ => "and_"
    case fence => "fence"
    case fence_i => "fence_i"
    case ecall => "ecall"
    case ebreak => "ebreak"
    case csrrw => "csrrw"
    case csrrs => "csrrs"
    case csrrc => "csrrc"
    case csrrwi => "csrrwi"
    case csrrsi => "csrrsi"
    case csrrci => "csrrci"
    case mret => "mret"
    case sret => "sret"
    case uret => "uret"
    case wfi => "wfi"
    case sfence_vma => "sfence_vma"
  }

  function MulName(c: MulCode): string {
    match c
    case mul => "mul"
    case mulh => "mulh"
    case mulhsu => "mulhsu"
    case mulhu => "mulhu"
    case div => "div"
    case divu => "divu"
    case rem => "rem"
    case remu => "remu"
  }

  function AtomicName(c: AtomicCode): string {
    match c
    case lr_w => "lr_w"
    case sc_w => "sc_w"
    case amoswap_w => "amoswap_w"
    case amoadd_w => "amoadd_w"
    case amoxor_w => "amoxor_w"
    case amoand_w => "amoand_w"
    case amoor_w => "amoor_w"
    case amomin_w => "amomin_w"
    case amomax_w => "amomax_w"
    case amominu_w => "amominu_w"
    case amomaxu_w => "amomaxu_w"
  }

  function SingleName(c: SingleCode): string {
    match c
    case flw => "flw"
    case fsw => "fsw"
    case fmadd_s => "fmadd_s"
    case fmsub_s => "fmsub_s"
    case fnmsub_s => "fnmsub_s"
    case fnmadd_s => "fnmadd_s"
    case fadd_s => "fadd_s"
    case fsub_s => "fsub_s"
    case fmul_s => "fmul_s"
    case fdiv_s => "fdiv_s"
    case fsqrt_s => "fsqrt_s"
    case fsgnj_s => "fsgnj_s"
    case fsgnjn_s => "fsgnjn_s"
    case fsgnjx_s => "fsgnjx_s"
    case fmin_s => "fmin_s"
    case fmax_s => "fmax_s"
    case fcvt_w_s => "fcvt_w_s"
    case fcvt_wu_s => "fcvt_wu_s"
    case fmv_x_w => "fmv_x_w"
    case feq_s => "feq_s"
    case flt_s => "flt_s"
    case fle_s => "fle_s"
    case fclass_s => "fclass_s"
    case fcvt_s_w => "fcvt_s_w"
    case fcvt_s_wu => "fcvt_s_wu"
    case fmv_w_x => "fmv_w_x"
  }

  function DoubleName(c: DoubleCode): string {
    match c
    case fld => "fld"
    case fsd => "fsd"
    case fmadd_d => "fmadd_d"
    case fmsub_d => "fmsub_d"
    case fnmsub_d => "fnmsub_d"
    case fnmadd_d => "fnmadd_d"
    case fadd_d => "fadd_d"
    case fsub_d => "fsub_d"
    case fmul_d => "fmul_d"
    case fdiv_d => "fdiv_d"
    case fsqrt_d => "fsqrt_d"
    case fsgnj_d => "fsgnj_d"
    case fsgnjn_d => "fsgnjn_d"
    case fsgnjx_d => "fsgnjx_d"
    case fmin_d => "fmin_d"
    case fmax_d => "fmax_d"
    case fcvt_s_d => "fcvt_s_d"
    case fcvt_d_s => "fcvt_d_s"
    case feq_d => "feq_d"
    case flt_d => "flt_d"
    case fle_d => "fle_d"
    case fclass_d => "fclass_d"
    case fcvt_w_d => "fcvt_w_d"
    case fcvt_wu_d => "fcvt_wu_d"
    case fcvt_d_w => "fcvt_d_w"
    case fcvt_d_wu => "fcvt_d_wu"
  }

  function CompressedName(c: CompressedCode): string {
    match c
    case c_addi4spn => "c_addi4spn"
    case c_fld => "c_fld"
    case c_lq => "c_lq"
    case c_lw => "c_lw"
    case c_flw => "c_flw"
    case c_ld => "c_ld"
    case c_fsd => "c_fsd"
    case c_sq => "c_sq"
    case c_sw => "c_sw"
    case c_fsw => "c_fsw"
    case c_sd => "c_sd"
    case c_nop => "c_nop"
    case c_addi => "c_addi"
    case c_jal => "c_jal"
    case c_addiw => "c_addiw"
    case c_li => "c_li"
    case c_addi16sp => "c_addi16sp"
    case c_lui => "c_lui"
    case c_srli => "c_srli"
    case c_srli64 => "c_srli64"
    case c_srai => "c_srai"
    case c_srai64 => "c_srai64"
    case c_andi => "c_andi"
    case c_sub => "c_sub"
    case c_xor => "c_xor"
    case c_or => "c_or"
    case c_and => "c_and"
    case c_subw => "c_subw"
    case c_addw => "c_addw"
    case c_j => "c_j"
    case c_beqz => "c_beqz"
    case c_bnez => "c_bnez"
    case c_slli => "c_slli"
    case c_slli64 => "c_slli64"
    case c_fldsp => "c_fldsp"
    case c_lqsp => "c_lqsp"
    case c_lwsp => "c_lwsp"
    case c_flwsp => "c_flwsp"
    case c_ldsp => "c_ldsp"
    case c_jr => "c_jr"
    case c_mv => "c_mv"
    case c_ebreak => "c_ebreak"
    case c_jalr => "c_jalr"
    case c_add => "c_add"
    case c_fsdsp => "c_fsdsp"
    case c_sqsp => "c_sqsp"
    case c_swsp => "c_swsp"
    case c_fswsp => "c_fswsp"
    case c_sdsp => "c_sdsp"
  }

  // ---------------------------------------------------------------------------
  // Properties

  predicate NotUnknown(name: string) {
    |name| > 0 && name != "unknown"
  }

  lemma BaseNames(c: BaseCode)
    ensures NotUnknown(BaseName(c))
    ensures BaseName(c)[|BaseName(c)| - 1] == '_' <==> c == xor_ || c == or_ || c == and_
  {
    BaseNotUnknown(c);
    BaseUnderscores(c);
  }

  lemma BaseNotUnknown(c: BaseCode)
    ensures NotUnknown(BaseName(c))
  {
    match c
    case lui =>
    case auipc =>
    case jal =>
    case jalr =>
    case beq =>
    case bne =>
    case blt =>
    case bge =>
    case bltu =>
    case bgeu =>
    case lb =>
    case lh =>
    case lw =>
    case lbu =>
    case lhu =>
    case sb =>
    case sh =>
    case sw =>
    case addi =>
    case slti =>
    case sltiu =>
    case xori =>
    case ori =>
    case andi =>
    case slli =>
    case srli =>
    case srai =>
    case add =>
    case sub =>
    case sll =>
    case slt =>
    case sltu =>
    case xor_ =>
    case srl =>
    case sra =>
    case or_ =>
    case and_ =>
    case fence =>
    case fence_i =>
    case ecall =>
    case ebreak =>
    case csrrw =>
    case csrrs =>
    case csrrc =>
    case csrrwi =>
    case csrrsi =>
    case csrrci =>
    case mret =>
    case sret =>
    case uret =>
    case wfi =>
    case sfence_vma =>
  }


  lemma BaseUnderscores(c: BaseCode)
    ensures |BaseName(c)| > 0
    ensures BaseName(c)[|BaseName(c)| - 1] == '_' <==> c == xor_ || c == or_ || c == and_
  {
    match c
    case lui =>
    case auipc =>
    case jal =>
    case jalr =>
    case beq =>
    case bne =>
    case blt =>
    case bge =>
    case bltu =>
    case bgeu =>
    case lb =>
    case lh =>
    case lw =>
    case lbu =>
    case lhu =>
    case sb =>
    case sh =>
    case sw =>
    case addi =>
    case slti =>
    case sltiu =>
    case xori =>
    case ori =>
    case andi =>
    case slli =>
    case srli =>
    case srai =>
    case add =>
    case sub =>
    case sll =>
    case slt =>
    case sltu =>
    case xor_ =>
    case srl =>
    case sra =>
    case or_ =>
    case and_ =>
    case fence =>
    case fence_i =>
    case ecall =>
    case ebreak =>
    case csrrw =>
    case csrrs =>
    case csrrc =>
    case csrrwi =>
    case csrrsi =>
    case csrrci =>
    case mret =>
    case sret =>
    case uret =>
    case wfi =>
    case sfence_vma =>
  }


  lemma MulNames(c: MulCode)
    ensures NotUnknown(MulName(c))
    ensures MulName(c)[|MulName(c)| - 1] != '_'
  {
    match c
    case mul =>
    case mulh =>
    case mulhsu =>
    case mulhu =>
    case div =>
    case divu =>
    case rem =>
    case remu =>
  }

  lemma AtomicNames(c: AtomicCode)
    ensures NotUnknown(AtomicName(c))
    ensures AtomicName(c)[|AtomicName(c)| - 1] != '_'
  {
    match c
    case lr_w =>
    case sc_w =>
    case amoswap_w =>
    case amoadd_w =>
    case amoxor_w =>
    case amoand_w =>
    case amoor_w =>
    case amomin_w =>
    case amomax_w =>
    case amominu_w =>
    case amomaxu_w =>
  }

  lemma SingleNames(c: SingleCode)
    ensures NotUnknown(SingleName(c))
    ensures SingleName(c)[|SingleName(c)| - 1] != '_'
  {
    match c
    case flw =>
    case fsw =>
    case fmadd_s =>
    case fmsub_s =>
    case fnmsub_s =>
    case fnmadd_s =>
    case fadd_s =>
    case fsub_s =>
    case fmul_s =>
    case fdiv_s =>
    case fsqrt_s =>
    case fsgnj_s =>
    case fsgnjn_s =>
    case fsgnjx_s =>
    case fmin_s =>
    case fmax_s =>
    case fcvt_w_s =>
    case fcvt_wu_s =>
    case fmv_x_w =>
    case feq_s =>
    case flt_s =>
    case fle_s =>
    case fclass_s =>
    case fcvt_s_w =>
    case fcvt_s_wu =>
    case fmv_w_x =>
  }

  lemma DoubleNames(c: DoubleCode)
    ensures NotUnknown(DoubleName(c))
    ensures DoubleName(c)[|DoubleName(c)| - 1] != '_'
  {
    match c
    case fld =>
    case fsd =>
    case fmadd_d =>
    case fmsub_d =>
    case fnmsub_d =>
    case fnmadd_d =>
    case fadd_d =>
    case fsub_d =>
    case fmul_d =>
    case fdiv_d =>
    case fsqrt_d =>
    case fsgnj_d =>
    case fsgnjn_d =>
    case fsgnjx_d =>
    case fmin_d =>
    case fmax_d =>
    case fcvt_s_d =>
    case fcvt_d_s =>
    case feq_d =>
    case flt_d =>
    case fle_d =>
    case fclass_d =>
    case fcvt_w_d =>
    case fcvt_wu_d =>
    case fcvt_d_w =>
    case fcvt_d_wu =>
  }

  lemma CompressedNames(c: CompressedCode)
    ensures NotUnknown(CompressedName(c))
    ensures CompressedName(c)[|CompressedName(c)| - 1] != '_'
  {
    match c
    case c_addi4spn =>
    case c_fld =>
    case c_lq =>
    case c_lw =>
    case c_flw =>
    case c_ld =>
    case c_fsd =>
    case c_sq =>
    case c_sw =>
    case c_fsw =>
    case c_sd =>
    case c_nop =>
    case c_addi =>
    case c_jal =>
    case c_addiw =>
    case c_li =>
    case c_addi16sp =>
    case c_lui =>
    case c_srli =>
    case c_srli64 =>
    case c_srai =>
    case c_srai64 =>
    case c_andi =>
    case c_sub =>
    case c_xor =>
    case c_or =>
    case c_and =>
    case c_subw =>
    case c_addw =>
    case c_j =>
    case c_beqz =>
    case c_bnez =>
    case c_slli =>
    case c_slli64 =>
    case c_fldsp =>
    case c_lqsp =>
    case c_lwsp =>
    case c_flwsp =>
    case c_ldsp =>
    case c_jr =>
    case c_mv =>
    case c_ebreak =>
    case c_jalr =>
    case c_add =>
    case c_fsdsp =>
    case c_sqsp =>
    case c_swsp =>
    case c_fswsp =>
    case c_sdsp =>
  }

  /** Only the codes the switch does not list are "unknown", and exactly
      the three codes named after C++ keywords (`xor`, `or`, `and`) keep a
      trailing underscore. */
  lemma Names(op: OpCode)
    ensures op.Other? <==> GetString(op) == "unknown"
    ensures |GetString(op)| > 0
    ensures GetString(op)[|GetString(op)| - 1] == '_' <==>
      op == Base(xor_) || op == Base(or_) || op == Base(and_)
  {
    match op
    case Base(c) => BaseNames(c);
    case Mul(c) => MulNames(c);
    case Atomic(c) => AtomicNames(c);
    case Single(c) => SingleNames(c);
    case Double(c) => DoubleNames(c);
    case Compressed(c) => CompressedNames(c);
    case Other(_) =>
  }

  /** The code a name belongs to, or None for any other string: looked up
      by length, then by second and last letter, then among the few names
      left. */
  function CodeOfName(name: string): Option<OpCode> {
    if |name| == 2 then
      if name[1] == 'b' then
        if name[|name| - 1] == 'b' then
          if name == "lb" then Some(Base(lb))
          else if name == "sb" then Some(Base(sb))
          else None
        else None
      else if name[1] == 'h' then
        if name[|name| - 1] == 'h' then
          if name == "lh" then Some(Base(lh))
          else if name == "sh" then Some(Base(sh))
          else None
        else None
      else if name[1] == 'w' then
        if name[|name| - 1] == 'w' then
          if name == "lw" then Some(Base(lw))
          else if name == "sw" then Some(Base(sw))
          else None
        else None
      else None
    else if |name| == 3 then
      if name[1] == '_' then
        if name[|name| - 1] == 'j' then
          if name == "c_j" then Some(Compressed(c_j))
          else None
        else None
      else if name[1] == 'a' then
        if name[|name| - 1] == 'l' then
          if name == "jal" then Some(Base(jal))
          else None
        else None
      else if name[1] == 'b' then
        if name[|name| - 1] == 'u' then
          if name == "lbu" then Some(Base(lbu))
          else None
        else None
      else if name[1] == 'd' then
        if name[|name| - 1] == 'd' then
          if name == "add" then Some(Base(add))
          else None
        else None
      else if name[1] == 'e' then
        if name[|name| - 1] == 'm' then
          if name == "rem" then Some(Mul(rem))
          else None
        else if name[|name| - 1] == 'q' then
          if name == "beq" then Some(Base(beq))
          else None
        else None
      else if name[1] == 'f' then
        if name[|name| - 1] == 'i' then
          if name == "wfi" then Some(Base(wfi))
          else None
        else None
      else if name[1] == 'g' then
        if name[|name| - 1] == 'e' then
          if name == "bge" then Some(Base(bge))
          else None
        else None
      else if name[1] == 'h' then
        if name[|name| - 1] == 'u' then
          if name == "lhu" then Some(Base(lhu))
          else None
        else None
      else if name[1] == 'i' then
        if name[|name| - 1] == 'v' then
          if name == "div" then Some(Mul(div))
          else None
        else None
      else if name[1] == 'l' then
        if name[|name| - 1] == 'd' then
          if name == "fld" then Some(Double(fld))
          else None
        else if name[|name| - 1] == 'l' then
          if name == "sll" then Some(Base(sll))
          else None
        else if name[|name| - 1] == 't' then
          if name == "blt" then Some(Base(blt))
          else if name == "slt" then Some(Base(slt))
          else None
        else if name[|name| - 1] == 'w' then
          if name == "flw" then Some(Single(flw))
          else None
        else None
      else if name[1] == 'n' then
        if name[|name| - 1] == 'e' then
          if name == "bne" then Some(Base(bne))
          else None
        else None
      else if name[1] == 'r' then
        if name[|name| - 1] == '_' then
          if name == "or_" then Some(Base(or_))
          else None
        else if name[|name| - 1] == 'a' then
          if name == "sra" then Some(Base(sra))
          else None
        else if name[|name| - 1] == 'i' then
          if name == "ori" then Some(Base(ori))
          else None
        else if name[|name| - 1] == 'l' then
          if name == "srl" then Some(Base(srl))
          else None
        else None
      else if name[1] == 's' then
        if name[|name| - 1] == 'd' then
          if name == "fsd" then Some(Double(fsd))
          else None
        else if name[|name| - 1] == 'w' then
          if name == "fsw" then Some(Single(fsw))
          else None
        else None
      else if name[1] == 'u' then
        if name[|name| - 1] == 'b' then
          if name == "sub" then Some(Base(sub))
          else None
        else if name[|name| - 1] == 'i' then
          if name == "lui" then Some(Base(lui))
          else None
        else if name[|name| - 1] == 'l' then
          if name == "mul" then Some(Mul(mul))
          else None
        else None
      else None
    else if |name| == 4 then
      if name[1] == '_' then
        if name[|name| - 1] == 'd' then
          if name == "c_ld" then Some(Compressed(c_ld))
          else if name == "c_sd" then Some(Compressed(c_sd))
          else None
        else if name[|name| - 1] == 'i' then
          if name == "c_li" then Some(Compressed(c_li))
          else None
        else if name[|name| - 1] == 'q' then
          if name == "c_lq" then Some(Compressed(c_lq))
          else if name == "c_sq" then Some(Compressed(c_sq))
          else None
        else if name[|name| - 1] == 'r' then
          if name == "c_or" then Some(Compressed(c_or))
          else if name == "c_jr" then Some(Compressed(c_jr))
          else None
        else if name[|name| - 1] == 'v' then
          if name == "c_mv" then Some(Compressed(c_mv))
          else None
        else if name[|name| - 1] == 'w' then
          if name == "c_lw" then Some(Compressed(c_lw))
          else if name == "c_sw" then Some(Compressed(c_sw))
          else None
        else None
      else if name[1] == 'a' then
        if name[|name| - 1] == 'r' then
          if name == "jalr" then Some(Base(jalr))
          else None
        else None
      else if name[1] == 'c' then
        if name[|name| - 1] == 'w' then
          if name == "sc_w" then Some(Atomic(sc_w))
          else None
        else None
      else if name[1] == 'd' then
        if name[|name| - 1] == 'i' then
          if name == "addi" then Some(Base(addi))
          else None
        else None
      else if name[1] == 'e' then
        if name[|name| - 1] == 'u' then
          if name == "remu" then Some(Mul(remu))
          else None
        else None
      else if name[1] == 'g' then
        if name[|name| - 1] == 'u' then
          if name == "bgeu" then Some(Base(bgeu))
          else None
        else None
      else if name[1] == 'i' then
        if name[|name| - 1] == 'u' then
          if name == "divu" then Some(Mul(divu))
          else None
        else None
      else if name[1] == 'l' then
        if name[|name| - 1] == 'i' then
          if name == "slti" then Some(Base(slti))
          else if name == "slli" then Some(Base(slli))
          else None
        else if name[|name| - 1] == 'u' then
          if name == "bltu" then Some(Base(bltu))
          else if name == "sltu" then Some(Base(sltu))
          else None
        else None
      else if name[1] == 'n' then
        if name[|name| - 1] == '_' then
          if name == "and_" then Some(Base(and_))
          else None
        else if name[|name| - 1] == 'i' then
          if name == "andi" then Some(Base(andi))
          else None
        else None
      else if name[1] == 'o' then
        if name[|name| - 1] == '_' then
          if name == "xor_" then Some(Base(xor_))
          else None
        else if name[|name| - 1] == 'i' then
          if name == "xori" then Some(Base(xori))
          else None
        else None
      else if name[1] == 'r' then
        if name[|name| - 1] == 'i' then
          if name == "srli" then Some(Base(srli))
          else if name == "srai" then Some(Base(srai))
          else None
        else if name[|name| - 1] == 't' then
          if name == "mret" then Some(Base(mret))
          else if name == "sret" then Some(Base(sret))
          else if name == "uret" then Some(Base(uret))
          else None
        else if name[|name| - 1] == 'w' then
          if name == "lr_w" then Some(Atomic(lr_w))
          else None
        else None
      else if name[1] == 'u' then
        if name[|name| - 1] == 'h' then
          if name == "mulh" then Some(Mul(mulh))
          else None
        else None
      else None
    else if |name| == 5 then
      if name[1] == '_' then
        if name[|name| - 1] == 'b' then
          if name == "c_sub" then Some(Compressed(c_sub))
          else None
        else if name[|name| - 1] == 'd' then
          if name == "c_fld" then Some(Compressed(c_fld))
          else if name == "c_fsd" then Some(Compressed(c_fsd))
          else if name == "c_and" then Some(Compressed(c_and))
          else if name == "c_add" then Some(Compressed(c_add))
          else None
        else if name[|name| - 1] == 'i' then
          if name == "c_lui" then Some(Compressed(c_lui))
          else None
        else if name[|name| - 1] == 'l' then
          if name == "c_jal" then Some(Compressed(c_jal))
          else None
        else if name[|name| - 1] == 'p' then
          if name == "c_nop" then Some(Compressed(c_nop))
          else None
        else if name[|name| - 1] == 'r' then
          if name == "c_xor" then Some(Compressed(c_xor))
          else None
        else if name[|name| - 1] == 'w' then
          if name == "c_flw" then Some(Compressed(c_flw))
          else if name == "c_fsw" then Some(Compressed(c_fsw))
          else None
        else None
      else if name[1] == 'c' then
        if name[|name| - 1] == 'l' then
          if name == "ecall" then Some(Base(ecall))
          else None
        else None
      else if name[1] == 'e' then
        if name[|name| - 1] == 'd' then
          if name == "feq_d" then Some(Double(feq_d))
          else None
        else if name[|name| - 1] == 'e' then
          if name == "fence" then Some(Base(fence))
          else None
        else if name[|name| - 1] == 's' then
          if name == "feq_s" then Some(Single(feq_s))
          else None
        else None
      else if name[1] == 'l' then
        if name[|name| - 1] == 'd' then
          if name == "flt_d" then Some(Double(flt_d))
          else if name == "fle_d" then Some(Double(fle_d))
          else None
        else if name[|name| - 1] == 's' then
          if name == "flt_s" then Some(Single(flt_s))
          else if name == "fle_s" then Some(Single(fle_s))
          else None
        else if name[|name| - 1] == 'u' then
          if name == "sltiu" then Some(Base(sltiu))
          else None
        else None
      else if name[1] == 's' then
        if name[|name| - 1] == 'c' then
          if name == "csrrc" then Some(Base(csrrc))
          else None
        else if name[|name| - 1] == 's' then
          if name == "csrrs" then Some(Base(csrrs))
          else None
        else if name[|name| - 1] == 'w' then
          if name == "csrrw" then Some(Base(csrrw))
          else None
        else None
      else if name[1] == 'u' then
        if name[|name| - 1] == 'c' then
          if name == "auipc" then Some(Base(auipc))
          else None
        else if name[|name| - 1] == 'u' then
          if name == "mulhu" then Some(Mul(mulhu))
          else None
        else None
      else None
    else if |name| == 6 then
      if name[1] == '_' then
        if name[|name| - 1] == 'i' then
          if name == "c_addi" then Some(Compressed(c_addi))
          else if name == "c_srli" then Some(Compressed(c_srli))
          else if name == "c_srai" then Some(Compressed(c_srai))
          else if name == "c_andi" then Some(Compressed(c_andi))
          else if name == "c_slli" then Some(Compressed(c_slli))
          else None
        else if name[|name| - 1] == 'p' then
          if name == "c_lqsp" then Some(Compressed(c_lqsp))
          else if name == "c_lwsp" then Some(Compressed(c_lwsp))
          else if name == "c_ldsp" then Some(Compressed(c_ldsp))
          else if name == "c_sqsp" then Some(Compressed(c_sqsp))
          else if name == "c_swsp" then Some(Compressed(c_swsp))
          else if name == "c_sdsp" then Some(Compressed(c_sdsp))
          else None
        else if name[|name| - 1] == 'r' then
          if name == "c_jalr" then Some(Compressed(c_jalr))
          else None
        else if name[|name| - 1] == 'w' then
          if name == "c_subw" then Some(Compressed(c_subw))
          else if name == "c_addw" then Some(Compressed(c_addw))
          else None
        else if name[|name| - 1] == 'z' then
          if name == "c_beqz" then Some(Compressed(c_beqz))
          else if name == "c_bnez" then Some(Compressed(c_bnez))
          else None
        else None
      else if name[1] == 'a' then
        if name[|name| - 1] == 'd' then
          if name == "fadd_d" then Some(Double(fadd_d))
          else None
        else if name[|name| - 1] == 's' then
          if name == "fadd_s" then Some(Single(fadd_s))
          else None
        else None
      else if name[1] == 'b' then
        if name[|name| - 1] == 'k' then
          if name == "ebreak" then Some(Base(ebreak))
          else None
        else None
      else if name[1] == 'd' then
        if name[|name| - 1] == 'd' then
          if name == "fdiv_d" then Some(Double(fdiv_d))
          else None
        else if name[|name| - 1] == 's' then
          if name == "fdiv_s" then Some(Single(fdiv_s))
          else None
        else None
      else if name[1] == 'm' then
        if name[|name| - 1] == 'd' then
          if name == "fmul_d" then Some(Double(fmul_d))
          else if name == "fmin_d" then Some(Double(fmin_d))
          else if name == "fmax_d" then Some(Double(fmax_d))
          else None
        else if name[|name| - 1] == 's' then
          if name == "fmul_s" then Some(Single(fmul_s))
          else if name == "fmin_s" then Some(Single(fmin_s))
          else if name == "fmax_s" then Some(Single(fmax_s))
          else None
        else None
      else if name[1] == 's' then
        if name[|name| - 1] == 'd' then
          if name == "fsub_d" then Some(Double(fsub_d))
          else None
        else if name[|name| - 1] == 'i' then
          if name == "csrrwi" then Some(Base(csrrwi))
          else if name == "csrrsi" then Some(Base(csrrsi))
          else if name == "csrrci" then Some(Base(csrrci))
          else None
        else if name[|name| - 1] == 's' then
          if name == "fsub_s" then Some(Single(fsub_s))
          else None
        else None
      else if name[1] == 'u' then
        if name[|name| - 1] == 'u' then
          if name == "mulhsu" then Some(Mul(mulhsu))
          else None
        else None
      else None
    else if |name| == 7 then
      if name[1] == '_' then
        if name[|name| - 1] == 'p' then
          if name == "c_fldsp" then Some(Compressed(c_fldsp))
          else if name == "c_flwsp" then Some(Compressed(c_flwsp))
          else if name == "c_fsdsp" then Some(Compressed(c_fsdsp))
          else if name == "c_fswsp" then Some(Compressed(c_fswsp))
          else None
        else if name[|name| - 1] == 'w' then
          if name == "c_addiw" then Some(Compressed(c_addiw))
          else None
        else None
      else if name[1] == 'e' then
        if name[|name| - 1] == 'i' then
          if name == "fence_i" then Some(Base(fence_i))
          else None
        else None
      else if name[1] == 'm' then
        if name[|name| - 1] == 'd' then
          if name == "fmadd_d" then Some(Double(fmadd_d))
          else if name == "fmsub_d" then Some(Double(fmsub_d))
          else None
        else if name[|name| - 1] == 's' then
          if name == "fmadd_s" then Some(Single(fmadd_s))
          else if name == "fmsub_s" then Some(Single(fmsub_s))
          else None
        else if name[|name| - 1] == 'w' then
          if name == "amoor_w" then Some(Atomic(amoor_w))
          else if name == "fmv_x_w" then Some(Single(fmv_x_w))
          else None
        else if name[|name| - 1] == 'x' then
          if name == "fmv_w_x" then Some(Single(fmv_w_x))
          else None
        else None
      else if name[1] == 's' then
        if name[|name| - 1] == 'd' then
          if name == "fsqrt_d" then Some(Double(fsqrt_d))
          else if name == "fsgnj_d" then Some(Double(fsgnj_d))
          else None
        else if name[|name| - 1] == 's' then
          if name == "fsqrt_s" then Some(Single(fsqrt_s))
          else if name == "fsgnj_s" then Some(Single(fsgnj_s))
          else None
        else None
      else None
    else if |name| == 8 then
      if name[1] == '_' then
        if name[|name| - 1] == '4' then
          if name == "c_srli64" then Some(Compressed(c_srli64))
          else if name == "c_srai64" then Some(Compressed(c_srai64))
          else if name == "c_slli64" then Some(Compressed(c_slli64))
          else None
        else if name[|name| - 1] == 'k' then
          if name == "c_ebreak" then Some(Compressed(c_ebreak))
          else None
        else None
      else if name[1] == 'c' then
        if name[|name| - 1] == 'd' then
          if name == "fcvt_s_d" then Some(Double(fcvt_s_d))
          else if name == "fclass_d" then Some(Double(fclass_d))
          else if name == "fcvt_w_d" then Some(Double(fcvt_w_d))
          else None
        else if name[|name| - 1] == 's' then
          if name == "fcvt_w_s" then Some(Single(fcvt_w_s))
          else if name == "fclass_s" then Some(Single(fclass_s))
          else if name == "fcvt_d_s" then Some(Double(fcvt_d_s))
          else None
        else if name[|name| - 1] == 'w' then
          if name == "fcvt_s_w" then Some(Single(fcvt_s_w))
          else if name == "fcvt_d_w" then Some(Double(fcvt_d_w))
          else None
        else None
      else if name[1] == 'm' then
        if name[|name| - 1] == 'w' then
          if name == "amoadd_w" then Some(Atomic(amoadd_w))
          else if name == "amoxor_w" then Some(Atomic(amoxor_w))
          else if name == "amoand_w" then Some(Atomic(amoand_w))
          else if name == "amomin_w" then Some(Atomic(amomin_w))
          else if name == "amomax_w" then Some(Atomic(amomax_w))
          else None
        else None
      else if name[1] == 'n' then
        if name[|name| - 1] == 'd' then
          if name == "fnmsub_d" then Some(Double(fnmsub_d))
          else if name == "fnmadd_d" then Some(Double(fnmadd_d))
          else None
        else if name[|name| - 1] == 's' then
          if name == "fnmsub_s" then Some(Single(fnmsub_s))
          else if name == "fnmadd_s" then Some(Single(fnmadd_s))
          else None
        else None
      else if name[1] == 's' then
        if name[|name| - 1] == 'd' then
          if name == "fsgnjn_d" then Some(Double(fsgnjn_d))
          else if name == "fsgnjx_d" then Some(Double(fsgnjx_d))
          else None
        else if name[|name| - 1] == 's' then
          if name == "fsgnjn_s" then Some(Single(fsgnjn_s))
          else if name == "fsgnjx_s" then Some(Single(fsgnjx_s))
          else None
        else None
      else None
    else if |name| == 9 then
      if name[1] == 'c' then
        if name[|name| - 1] == 'd' then
          if name == "fcvt_wu_d" then Some(Double(fcvt_wu_d))
          else None
        else if name[|name| - 1] == 's' then
          if name == "fcvt_wu_s" then Some(Single(fcvt_wu_s))
          else None
        else if name[|name| - 1] == 'u' then
          if name == "fcvt_s_wu" then Some(Single(fcvt_s_wu))
          else if name == "fcvt_d_wu" then Some(Double(fcvt_d_wu))
          else None
        else None
      else if name[1] == 'm' then
        if name[|name| - 1] == 'w' then
          if name == "amoswap_w" then Some(Atomic(amoswap_w))
          else if name == "amominu_w" then Some(Atomic(amominu_w))
          else if name == "amomaxu_w" then Some(Atomic(amomaxu_w))
          else None
        else None
      else None
    else if |name| == 10 then
      if name[1] == '_' then
        if name[|name| - 1] == 'n' then
          if name == "c_addi4spn" then Some(Compressed(c_addi4spn))
          else None
        else if name[|name| - 1] == 'p' then
          if name == "c_addi16sp" then Some(Compressed(c_addi16sp))
          else None
        else None
      else if name[1] == 'f' then
        if name[|name| - 1] == 'a' then
          if name == "sfence_vma" then Some(Base(sfence_vma))
          else None
        else None
      else None
    else None
  }

  /** Every listed code is found again from its name. */
  lemma NameReads(op: OpCode)
    requires !op.Other?
    ensures CodeOfName(GetString(op)) == Some(op)
  {
    match op
    case Base(c) => BaseNameReads(c);
    case Mul(c) => MulNameReads(c);
    case Atomic(c) => AtomicNameReads(c);
    case Single(c) => SingleNameReads(c);
    case Double(c) => DoubleNameReads(c);
    case Compressed(c) => CompressedNameReads(c);
  }

  /** No two listed codes share a name. */
  lemma NamesDistinct(a: OpCode, b: OpCode)
    requires !a.Other? && !b.Other? && GetString(a) == GetString(b)
    ensures a == b
  {
    NameReads(a);
    NameReads(b);
  }

  lemma BaseNameReads(c: BaseCode)
    ensures CodeOfName(BaseName(c)) == Some(Base(c))
  {
    if c == lui || c == auipc || c == jal || c == jalr || c == beq || c == bne {
      BaseNamesRead1(c);
    } else if c == blt || c == bge || c == bltu || c == bgeu || c == lb || c == lh {
      BaseNamesRead2(c);
    } else if c == lw || c == lbu || c == lhu || c == sb || c == sh || c == sw {
      BaseNamesRead3(c);
    } else if c == addi || c == slti || c == sltiu || c == xori || c == ori ||
              c == andi {
      BaseNamesRead4(c);
    } else if c == slli || c == srli || c == srai || c == add || c == sub || c == sll {
      BaseNamesRead5(c);
    } else if c == slt || c == sltu || c == xor_ || c == srl || c == sra || c == or_ {
      BaseNamesRead6(c);
    } else if c == and_ || c == fence || c == fence_i || c == ecall || c == ebreak ||
              c == csrrw {
      BaseNamesRead7(c);
    } else if c == csrrs || c == csrrc || c == csrrwi || c == csrrsi || c == csrrci ||
              c == mret {
      BaseNamesRead8(c);
    } else {
      BaseNamesRead9(c);
    }
  }

  lemma BaseNamesRead1(c: BaseCode)
    requires c == lui || c == auipc || c == jal || c == jalr || c == beq || c == bne
    ensures CodeOfName(BaseName(c)) == Some(Base(c))
  {
  }

  lemma BaseNamesRead2(c: BaseCode)
    requires c == blt || c == bge || c == bltu || c == bgeu || c == lb || c == lh
    ensures CodeOfName(BaseName(c)) == Some(Base(c))
  {
  }

  lemma BaseNamesRead3(c: BaseCode)
    requires c == lw || c == lbu || c == lhu || c == sb || c == sh || c == sw
    ensures CodeOfName(BaseName(c)) == Some(Base(c))
  {
  }

  lemma BaseNamesRead4(c: BaseCode)
    requires c == addi || c == slti || c == sltiu || c == xori || c == ori ||
             c == andi
    ensures CodeOfName(BaseName(c)) == Some(Base(c))
  {
  }

  lemma BaseNamesRead5(c: BaseCode)
    requires c == slli || c == srli || c == srai || c == add || c == sub || c == sll
    ensures CodeOfName(BaseName(c)) == Some(Base(c))
  {
  }

  lemma BaseNamesRead6(c: BaseCode)
    requires c == slt || c == sltu || c == xor_ || c == srl || c == sra || c == or_
    ensures CodeOfName(BaseName(c)) == Some(Base(c))
  {
  }

  lemma BaseNamesRead7(c: BaseCode)
    requires c == and_ || c == fence || c == fence_i || c == ecall || c == ebreak ||
             c == csrrw
    ensures CodeOfName(BaseName(c)) == Some(Base(c))
  {
  }

  lemma BaseNamesRead8(c: BaseCode)
    requires c == csrrs || c == csrrc || c == csrrwi || c == csrrsi || c == csrrci ||
             c == mret
    ensures CodeOfName(BaseName(c)) == Some(Base(c))
  {
  }

  lemma BaseNamesRead9(c: BaseCode)
    requires c == sret || c == uret || c == wfi || c == sfence_vma
    ensures CodeOfName(BaseName(c)) == Some(Base(c))
  {
  }

  lemma MulNameReads(c: MulCode)
    ensures CodeOfName(MulName(c)) == Some(Mul(c))
  {
    if c == mul || c == mulh || c == mulhsu || c == mulhu || c == div ||
       c == divu {
      MulNamesRead1(c);
    } else {
      MulNamesRead2(c);
    }
  }

  lemma MulNamesRead1(c: MulCode)
    requires c == mul || c == mulh || c == mulhsu || c == mulhu || c == div ||
             c == divu
    ensures CodeOfName(MulName(c)) == Some(Mul(c))
  {
  }

  lemma MulNamesRead2(c: MulCode)
    requires c == rem || c == remu
    ensures CodeOfName(MulName(c)) == Some(Mul(c))
  {
  }

  lemma AtomicNameReads(c: AtomicCode)
    ensures CodeOfName(AtomicName(c)) == Some(Atomic(c))
  {
    if c == lr_w || c == sc_w || c == amoswap_w || c == amoadd_w ||
       c == amoxor_w || c == amoand_w {
      AtomicNamesRead1(c);
    } else {
      AtomicNamesRead2(c);
    }
  }

  lemma AtomicNamesRead1(c: AtomicCode)
    requires c == lr_w || c == sc_w || c == amoswap_w || c == amoadd_w ||
             c == amoxor_w || c == amoand_w
    ensures CodeOfName(AtomicName(c)) == Some(Atomic(c))
  {
  }

  lemma AtomicNamesRead2(c: AtomicCode)
    requires c == amoor_w || c == amomin_w || c == amomax_w || c == amominu_w ||
             c == amomaxu_w
    ensures CodeOfName(AtomicName(c)) == Some(Atomic(c))
  {
  }

  lemma SingleNameReads(c: SingleCode)
    ensures CodeOfName(SingleName(c)) == Some(Single(c))
  {
    if c == flw || c == fsw || c == fmadd_s || c == fmsub_s || c == fnmsub_s ||
       c == fnmadd_s {
      SingleNamesRead1(c);
    } else if c == fadd_s || c == fsub_s || c == fmul_s || c == fdiv_s || c == fsqrt_s ||
              c == fsgnj_s {
      SingleNamesRead2(c);
    } else if c == fsgnjn_s || c == fsgnjx_s || c == fmin_s || c == fmax_s ||
              c == fcvt_w_s || c == fcvt_wu_s {
      SingleNamesRead3(c);
    } else if c == fmv_x_w || c == feq_s || c == flt_s || c == fle_s || c == fclass_s ||
              c == fcvt_s_w {
      SingleNamesRead4(c);
    } else {
      SingleNamesRead5(c);
    }
  }

  lemma SingleNamesRead1(c: SingleCode)
    requires c == flw || c == fsw || c == fmadd_s || c == fmsub_s || c == fnmsub_s ||
             c == fnmadd_s
    ensures CodeOfName(SingleName(c)) == Some(Single(c))
  {
  }

  lemma SingleNamesRead2(c: SingleCode)
    requires c == fadd_s || c == fsub_s || c == fmul_s || c == fdiv_s || c == fsqrt_s ||
             c == fsgnj_s
    ensures CodeOfName(SingleName(c)) == Some(Single(c))
  {
  }

  lemma SingleNamesRead3(c: SingleCode)
    requires c == fsgnjn_s || c == fsgnjx_s || c == fmin_s || c == fmax_s ||
             c == fcvt_w_s || c == fcvt_wu_s
    ensures CodeOfName(SingleName(c)) == Some(Single(c))
  {
  }

  lemma SingleNamesRead4(c: SingleCode)
    requires c == fmv_x_w || c == feq_s || c == flt_s || c == fle_s || c == fclass_s ||
             c == fcvt_s_w
    ensures CodeOfName(SingleName(c)) == Some(Single(c))
  {
  }

  lemma SingleNamesRead5(c: SingleCode)
    requires c == fcvt_s_wu || c == fmv_w_x
    ensures CodeOfName(SingleName(c)) == Some(Single(c))
  {
  }

  lemma DoubleNameReads(c: DoubleCode)
    ensures CodeOfName(DoubleName(c)) == Some(Double(c))
  {
    if c == fld || c == fsd || c == fmadd_d || c == fmsub_d || c == fnmsub_d ||
       c == fnmadd_d {
      DoubleNamesRead1(c);
    } else if c == fadd_d || c == fsub_d || c == fmul_d || c == fdiv_d || c == fsqrt_d ||
              c == fsgnj_d {
      DoubleNamesRead2(c);
    } else if c == fsgnjn_d || c == fsgnjx_d || c == fmin_d || c == fmax_d ||
              c == fcvt_s_d || c == fcvt_d_s {
      DoubleNamesRead3(c);
    } else if c == feq_d || c == flt_d || c == fle_d || c == fclass_d || c == fcvt_w_d ||
              c == fcvt_wu_d {
      DoubleNamesRead4(c);
    } else {
      DoubleNamesRead5(c);
    }
  }

  lemma DoubleNamesRead1(c: DoubleCode)
    requires c == fld || c == fsd || c == fmadd_d || c == fmsub_d || c == fnmsub_d ||
             c == fnmadd_d
    ensures CodeOfName(DoubleName(c)) == Some(Double(c))
  {
  }

  lemma DoubleNamesRead2(c: DoubleCode)
    requires c == fadd_d || c == fsub_d || c == fmul_d || c == fdiv_d || c == fsqrt_d ||
             c == fsgnj_d
    ensures CodeOfName(DoubleName(c)) == Some(Double(c))
  {
  }

  lemma DoubleNamesRead3(c: DoubleCode)
    requires c == fsgnjn_d || c == fsgnjx_d || c == fmin_d || c == fmax_d ||
             c == fcvt_s_d || c == fcvt_d_s
    ensures CodeOfName(DoubleName(c)) == Some(Double(c))
  {
  }

  lemma DoubleNamesRead4(c: DoubleCode)
    requires c == feq_d || c == flt_d || c == fle_d || c == fclass_d || c == fcvt_w_d ||
             c == fcvt_wu_d
    ensures CodeOfName(DoubleName(c)) == Some(Double(c))
  {
  }

  lemma DoubleNamesRead5(c: DoubleCode)
    requires c == fcvt_d_w || c == fcvt_d_wu
    ensures CodeOfName(DoubleName(c)) == Some(Double(c))
  {
  }

  lemma CompressedNameReads(c: CompressedCode)
    ensures CodeOfName(CompressedName(c)) == Some(Compressed(c))
  {
    if c == c_addi4spn || c == c_fld || c == c_lq || c == c_lw || c == c_flw ||
       c == c_ld {
      CompressedNamesRead1(c);
    } else if c == c_fsd || c == c_sq || c == c_sw || c == c_fsw || c == c_sd ||
              c == c_nop {
      CompressedNamesRead2(c);
    } else if c == c_addi || c == c_jal || c == c_addiw || c == c_li ||
              c == c_addi16sp || c == c_lui {
      CompressedNamesRead3(c);
    } else if c == c_srli || c == c_srli64 || c == c_srai || c == c_srai64 ||
              c == c_andi || c == c_sub {
      CompressedNamesRead4(c);
    } else if c == c_xor || c == c_or || c == c_and || c == c_subw || c == c_addw ||
              c == c_j {
      CompressedNamesRead5(c);
    } else if c == c_beqz || c == c_bnez || c == c_slli || c == c_slli64 ||
              c == c_fldsp || c == c_lqsp {
      CompressedNamesRead6(c);
    } else if c == c_lwsp || c == c_flwsp || c == c_ldsp || c == c_jr || c == c_mv ||
              c == c_ebreak {
      CompressedNamesRead7(c);
    } else if c == c_jalr || c == c_add || c == c_fsdsp || c == c_sqsp || c == c_swsp ||
              c == c_fswsp {
      CompressedNamesRead8(c);
    } else {
      CompressedNamesRead9(c);
    }
  }

  lemma CompressedNamesRead1(c: CompressedCode)
    requires c == c_addi4spn || c == c_fld || c == c_lq || c == c_lw || c == c_flw ||
             c == c_ld
    ensures CodeOfName(CompressedName(c)) == Some(Compressed(c))
  {
  }

  lemma CompressedNamesRead2(c: CompressedCode)
    requires c == c_fsd || c == c_sq || c == c_sw || c == c_fsw || c == c_sd ||
             c == c_nop
    ensures CodeOfName(CompressedName(c)) == Some(Compressed(c))
  {
  }

  lemma CompressedNamesRead3(c: CompressedCode)
    requires c == c_addi || c == c_jal || c == c_addiw || c == c_li ||
             c == c_addi16sp || c == c_lui
    ensures CodeOfName(CompressedName(c)) == Some(Compressed(c))
  {
  }

  lemma CompressedNamesRead4(c: CompressedCode)
    requires c == c_srli || c == c_srli64 || c == c_srai || c == c_srai64 ||
             c == c_andi || c == c_sub
    ensures CodeOfName(CompressedName(c)) == Some(Compressed(c))
  {
  }

  lemma CompressedNamesRead5(c: CompressedCode)
    requires c == c_xor || c == c_or || c == c_and || c == c_subw || c == c_addw ||
             c == c_j
    ensures CodeOfName(CompressedName(c)) == Some(Compressed(c))
  {
  }

  lemma CompressedNamesRead6(c: CompressedCode)
    requires c == c_beqz || c == c_bnez || c == c_slli || c == c_slli64 ||
             c == c_fldsp || c == c_lqsp
    ensures CodeOfName(CompressedName(c)) == Some(Compressed(c))
  {
  }

  lemma CompressedNamesRead7(c: CompressedCode)
    requires c == c_lwsp || c == c_flwsp || c == c_ldsp || c == c_jr || c == c_mv ||
             c == c_ebreak
    ensures CodeOfName(CompressedName(c)) == Some(Compressed(c))
  {
  }

  lemma CompressedNamesRead8(c: CompressedCode)
    requires c == c_jalr || c == c_add || c == c_fsdsp || c == c_sqsp || c == c_swsp ||
             c == c_fswsp
    ensures CodeOfName(CompressedName(c)) == Some(Compressed(c))
  {
  }

  lemma CompressedNamesRead9(c: CompressedCode)
    requires c == c_sdsp
    ensures CodeOfName(CompressedName(c)) == Some(Compressed(c))
  {
  }

  const IntRegNames: seq<string> := ["x0", "x1", "x2", "x3", "x4", "x5", "x6", "x7", "x8", "x9", "x10", "x11", "x12", "x13", "x14", "x15", "x16", "x17", "x18", "x19", "x20", "x21", "x22", "x23", "x24", "x25", "x26", "x27", "x28", "x29", "x30", "x31"]

  /** Register i is named "x" and the decimal of i. */
  lemma IntRegNamesDecimal(i: nat)
    requires i < 32
    ensures |IntRegNames| == 32
    ensures IntRegNames[i] == "x" + NatToDecimal(i)
  {
    if i < 10 {
      OneDigitNames(i);
    } else {
      DecimalTwoDigits(i);
      if i < 20 {
        TeenNames(i);
      } else {
        TwentyNames(i);
      }
    }
  }

  lemma OneDigitNames(i: nat)
    requires i < 10
    ensures IntRegNames[i] == "x" + [DigitChar(i)]
  {
    match i
    case 0 =>
    case 1 =>
    case 2 =>
    case 3 =>
    case 4 =>
    case 5 =>
    case 6 =>
    case 7 =>
    case 8 =>
    case 9 =>
  }

  lemma TeenNames(i: nat)
    requires 10 <= i < 20
    ensures IntRegNames[i] == "x" + [DigitChar(i / 10), DigitChar(i % 10)]
  {
    match i
    case 10 =>
    case 11 =>
    case 12 =>
    case 13 =>
    case 14 =>
    case 15 =>
    case 16 =>
    case 17 =>
    case 18 =>
    case 19 =>
  }

  lemma TwentyNames(i: nat)
    requires 20 <= i < 32
    ensures IntRegNames[i] == "x" + [DigitChar(i / 10), DigitChar(i % 10)]
  {
    match i
    case 20 =>
    case 21 =>
    case 22 =>
    case 23 =>
    case 24 =>
    case 25 =>
    case 26 =>
    case 27 =>
    case 28 =>
    case 29 =>
    case 30 =>
    case 31 =>
  }

  lemma DecimalTwoDigits(n: nat)
    requires 10 <= n < 100
    ensures NatToDecimal(n) == [DigitChar(n / 10), DigitChar(n % 10)]
  {
  }
}
