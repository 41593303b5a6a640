/** The trap state machine of the RISC-V Privileged ISA (version 20190608)
    as the emulator implements it, over a hart state made of the CSR file,
    the privilege level and the pc: delegation (section 3.1.8), the
    interrupt-enable stack of `mstatus` (section 3.1.6.1), the trap-vector
    modes (section 3.1.7), the interrupt bit of `mcause` (section 3.1.15)
    and the MRET/SRET returns (section 3.2.2).  The classes that carry out
    these steps one CSR access at a time are proved against these
    functions. */
module Privileged {
  import opened Common
  import opened Text
  import opened EventTypes

  // CSR addresses (section 2.2 of the Privileged ISA).
  const UStatus: nat := 0x000
  const UTvec: nat := 0x005
  const UEpc: nat := 0x041
  const UCause: nat := 0x042
  const UTval: nat := 0x043
  const SStatus: nat := 0x100
  const SEdeleg: nat := 0x102
  const SIdeleg: nat := 0x103
  const STvec: nat := 0x105
  const SEpc: nat := 0x141
  const SCause: nat := 0x142
  const STval: nat := 0x143
  const MStatus: nat := 0x300
  const MEdeleg: nat := 0x302
  const MIdeleg: nat := 0x303
  const MTvec: nat := 0x305
  const MEpc: nat := 0x341
  const MCause: nat := 0x342
  const MTval: nat := 0x343

  /** An exception or interrupt code; the standard codes are all below 16. */
  type TrapCode = c: bv64 | c < 16

  /** An exception raised by a stage of the pipeline. */
  datatype Trap = Trap(code: TrapCode, pc: bv64, trapValue: bv64)

  /** The illegal-instruction exception (code 2), whose trap value is the
      instruction word. */
  function IllegalInstruction(pc: bv64, insn: bv32): (t: Trap)
    ensures t.code == 2 && t.pc == pc && t.trapValue == insn as bv64
  {
    Trap(2, pc, insn as bv64)
  }

  /** The state a trap reads and writes. */
  datatype Hart = Hart(csrs: map<nat, bv64>, priv: PrivilegeLevel, pc: bv64)

  /** A CSR's value; a register that was never written reads as zero. */
  function Read(csrs: map<nat, bv64>, addr: nat): bv64 {
    if addr in csrs then csrs[addr] else 0
  }

  // ---------------------------------------------------------------------------
  // The fields of xstatus (figure 3.7 of the Privileged ISA).  Each setter
  // keeps the field within its width and leaves every other field alone.

  function UIE(x: bv64): bv64 { x & 1 }
  function SIE(x: bv64): bv64 { (x >> 1) & 1 }
  function MIE(x: bv64): bv64 { (x >> 3) & 1 }
  function UPIE(x: bv64): bv64 { (x >> 4) & 1 }
  function SPIE(x: bv64): bv64 { (x >> 5) & 1 }
  function MPIE(x: bv64): bv64 { (x >> 7) & 1 }
  function SPP(x: bv64): bv64 { (x >> 8) & 1 }
  function MPP(x: bv64): bv64 { (x >> 11) & 3 }

  function WithUIE(x: bv64, v: bv64): (r: bv64)
    ensures UIE(r) == v & 1 && SIE(r) == SIE(x) && MIE(r) == MIE(x)
      && UPIE(r) == UPIE(x) && SPIE(r) == SPIE(x) && MPIE(r) == MPIE(x)
      && SPP(r) == SPP(x) && MPP(r) == MPP(x)
  {
    (x & 0xFFFF_FFFF_FFFF_FFFE) | (v & 1)
  }

  function WithSIE(x: bv64, v: bv64): (r: bv64)
    ensures UIE(r) == UIE(x) && SIE(r) == v & 1 && MIE(r) == MIE(x)
      && UPIE(r) == UPIE(x) && SPIE(r) == SPIE(x) && MPIE(r) == MPIE(x)
      && SPP(r) == SPP(x) && MPP(r) == MPP(x)
  {
    (x & 0xFFFF_FFFF_FFFF_FFFD) | ((v & 1) << 1)
  }

  function WithMIE(x: bv64, v: bv64): (r: bv64)
    ensures UIE(r) == UIE(x) && SIE(r) == SIE(x) && MIE(r) == v & 1
      && UPIE(r) == UPIE(x) && SPIE(r) == SPIE(x) && MPIE(r) == MPIE(x)
      && SPP(r) == SPP(x) && MPP(r) == MPP(x)
  {
    (x & 0xFFFF_FFFF_FFFF_FFF7) | ((v & 1) << 3)
  }

  function WithUPIE(x: bv64, v: bv64): (r: bv64)
    ensures UIE(r) == UIE(x) && SIE(r) == SIE(x) && MIE(r) == MIE(x)
      && UPIE(r) == v & 1 && SPIE(r) == SPIE(x) && MPIE(r) == MPIE(x)
      && SPP(r) == SPP(x) && MPP(r) == MPP(x)
  {
    (x & 0xFFFF_FFFF_FFFF_FFEF) | ((v & 1) << 4)
  }

  function WithSPIE(x: bv64, v: bv64): (r: bv64)
    ensures UIE(r) == UIE(x) && SIE(r) == SIE(x) && MIE(r) == MIE(x)
      && UPIE(r) == UPIE(x) && SPIE(r) == v & 1 && MPIE(r) == MPIE(x)
      && SPP(r) == SPP(x) && MPP(r) == MPP(x)
  {
    (x & 0xFFFF_FFFF_FFFF_FFDF) | ((v & 1) << 5)
  }

  function WithMPIE(x: bv64, v: bv64): (r: bv64)
    ensures UIE(r) == UIE(x) && SIE(r) == SIE(x) && MIE(r) == MIE(x)
      && UPIE(r) == UPIE(x) && SPIE(r) == SPIE(x) && MPIE(r) == v & 1
      && SPP(r) == SPP(x) && MPP(r) == MPP(x)
  {
    (x & 0xFFFF_FFFF_FFFF_FF7F) | ((v & 1) << 7)
  }

  function WithSPP(x: bv64, v: bv64): (r: bv64)
    ensures UIE(r) == UIE(x) && SIE(r) == SIE(x) && MIE(r) == MIE(x)
      && UPIE(r) == UPIE(x) && SPIE(r) == SPIE(x) && MPIE(r) == MPIE(x)
      && SPP(r) == v & 1 && MPP(r) == MPP(x)
  {
    (x & 0xFFFF_FFFF_FFFF_FEFF) | ((v & 1) << 8)
  }

  function WithMPP(x: bv64, v: bv64): (r: bv64)
    ensures UIE(r) == UIE(x) && SIE(r) == SIE(x) && MIE(r) == MIE(x)
      && UPIE(r) == UPIE(x) && SPIE(r) == SPIE(x) && MPIE(r) == MPIE(x)
      && SPP(r) == SPP(x) && MPP(r) == v & 3
  {
    (x & 0xFFFF_FFFF_FFFF_E7FF) | ((v & 3) << 11)
  }

  // ---------------------------------------------------------------------------
  // Delegation, cause and vector

  /** Bit `code` of a delegation register, `(deleg & (1 << code)) != 0`. */
  predicate Delegated(deleg: bv64, code: TrapCode) {
    deleg & (1 << code) != 0
  }

  /** The level that takes a trap: Machine, unless the machine delegation
      register passes it down to Supervisor, which may pass it on to User. */
  function TrapTarget(mdeleg: bv64, sdeleg: bv64, code: TrapCode): (r: PrivilegeLevel)
    ensures r == Machine <==> !Delegated(mdeleg, code)
    ensures r == Supervisor <==> Delegated(mdeleg, code) && !Delegated(sdeleg, code)
    ensures r == User <==> Delegated(mdeleg, code) && Delegated(sdeleg, code)
  {
    if !Delegated(mdeleg, code) then Machine
    else if !Delegated(sdeleg, code) then Supervisor
    else User
  }

  /** The most significant bit of an XLEN-wide register. */
  function InterruptBit(xlen: XLEN): bv64 {
    if xlen == XLEN32 then 0x8000_0000 else 0x8000_0000_0000_0000
  }

  /** The value written to xcause: the code, with the register's top bit set
      exactly for an interrupt. */
  function Cause(xlen: XLEN, isInterrupt: bool, code: TrapCode): (r: bv64)
    ensures r & InterruptBit(xlen) != 0 <==> isInterrupt
    ensures r & !InterruptBit(xlen) == code
  {
    (if isInterrupt then InterruptBit(xlen) else 0) | code
  }

  /** The BASE field of xtvec, bits XLEN-1 to 2. */
  function Base(xlen: XLEN, tvec: bv64): (r: bv64)
    ensures r & 3 == 0
  {
    if xlen == XLEN32 then tvec & 0xFFFF_FFFC else tvec & 0xFFFF_FFFF_FFFF_FFFC
  }

  /** The MODE field of xtvec selects vectored interrupts (mode 1). */
  predicate Vectored(tvec: bv64) {
    tvec & 3 == 1
  }

  /** The pc a trap jumps to. */
  function TrapVector(xlen: XLEN, tvec: bv64, isInterrupt: bool, code: TrapCode): bv64 {
    if isInterrupt && Vectored(tvec) then Base(xlen, tvec) + code * 4 else Base(xlen, tvec)
  }

  /** Every trap lands on a 4-byte boundary, and anything but an interrupt
      in vectored mode lands on BASE itself. */
  lemma TrapVectorTarget(xlen: XLEN, tvec: bv64, isInterrupt: bool, code: TrapCode)
    ensures TrapVector(xlen, tvec, isInterrupt, code) & 3 == 0
    ensures !(isInterrupt && Vectored(tvec)) ==> TrapVector(xlen, tvec, isInterrupt, code) == Base(xlen, tvec)
  {
    AlignedStep(Base(xlen, tvec), code);
  }

  lemma AlignedStep(base: bv64, c: bv64)
    requires base & 3 == 0
    ensures (base + c * 4) & 3 == 0
  {
  }

  // ---------------------------------------------------------------------------
  // Entering a trap and returning from it

  /** The status update on entry to `level`: the interrupt enable is pushed
      into the previous-enable bit and cleared, and for Machine and
      Supervisor the previous level is recorded (SPP keeps its low bit
      only).  Entering User pushes the enable only. */
  function EnterStatus(level: PrivilegeLevel, status: bv64, prev: PrivilegeLevel): (r: bv64)
    requires level != Reserved
    ensures level == Machine ==>
      && MPIE(r) == MIE(status) && MIE(r) == 0 && MPP(r) == PrivValue(prev)
      && SIE(r) == SIE(status) && SPIE(r) == SPIE(status) && SPP(r) == SPP(status)
      && UIE(r) == UIE(status) && UPIE(r) == UPIE(status)
    ensures level == Supervisor ==>
      && SPIE(r) == SIE(status) && SIE(r) == 0 && SPP(r) == PrivValue(prev) & 1
      && MIE(r) == MIE(status) && MPIE(r) == MPIE(status) && MPP(r) == MPP(status)
      && UIE(r) == UIE(status) && UPIE(r) == UPIE(status)
    ensures level == User ==>
      && UPIE(r) == UIE(status) && UIE(r) == 0
      && MIE(r) == MIE(status) && MPIE(r) == MPIE(status) && MPP(r) == MPP(status)
      && SIE(r) == SIE(status) && SPIE(r) == SPIE(status) && SPP(r) == SPP(status)
  {
    match level
    case Machine => WithMPP(WithMIE(WithMPIE(status, MIE(status)), 0), PrivValue(prev))
    case Supervisor => WithSPP(WithSIE(WithSPIE(status, SIE(status)), 0), PrivValue(prev))
    case User => WithUIE(WithUPIE(status, UIE(status)), 0)
  }

  /** The registers a level's trap handling uses; the four it writes are
      distinct from one another and from the vector it reads. */
  datatype TrapCsrs = TrapCsrs(status: nat, cause: nat, epc: nat, tval: nat, tvec: nat) {
    ghost predicate Distinct() {
      && status != cause && status != epc && status != tval && cause != epc && cause != tval && epc != tval
      && tvec !in {status, cause, epc, tval}
    }
  }

  function TrapCsrsOf(level: PrivilegeLevel): (t: TrapCsrs)
    requires level != Reserved
    ensures t.Distinct()
  {
    match level
    case Machine => TrapCsrs(MStatus, MCause, MEpc, MTval, MTvec)
    case Supervisor => TrapCsrs(SStatus, SCause, SEpc, STval, STvec)
    case User => TrapCsrs(UStatus, UCause, UEpc, UTval, UTvec)
  }

  /** The four writes of a trap entry, in the order they are made. */
  function WriteTrapCsrs(csrs: map<nat, bv64>, t: TrapCsrs, status: bv64, cause: bv64, epc: bv64, tval: bv64)
    : (r: map<nat, bv64>)
    requires t.Distinct()
    ensures Read(r, t.status) == status && Read(r, t.cause) == cause
    ensures Read(r, t.epc) == epc && Read(r, t.tval) == tval
    ensures forall a :: a !in {t.status, t.cause, t.epc, t.tval} ==> Read(r, a) == Read(csrs, a)
  {
    csrs[t.status := status][t.cause := cause][t.epc := epc][t.tval := tval]
  }

  /** A trap taken into `next` from the state `h` at `pc`: the new state and
      the event it records.  The level is switched before anything else, so
      the event's `from` is already `next`. */
  function EnterTrap(h: Hart, xlen: XLEN, isInterrupt: bool, code: TrapCode, trapValue: bv64, pc: bv64,
                     next: PrivilegeLevel): (r: (Hart, Event))
    requires next != Reserved
    ensures var t := TrapCsrsOf(next);
      && r.0.priv == next
      && Read(r.0.csrs, t.status) == EnterStatus(next, Read(h.csrs, t.status), h.priv)
      && Read(r.0.csrs, t.cause) == Cause(xlen, isInterrupt, code)
      && Read(r.0.csrs, t.epc) == pc && Read(r.0.csrs, t.tval) == trapValue
      && (forall a :: a !in {t.status, t.cause, t.epc, t.tval} ==> Read(r.0.csrs, a) == Read(h.csrs, a))
      && r.0.pc == TrapVector(xlen, Read(h.csrs, t.tvec), isInterrupt, code)
      && r.1 == TrapEvent(if isInterrupt then Interrupt else Exception, next, next, code as bv32, trapValue)
  {
    var t := TrapCsrsOf(next);
    var csrs := WriteTrapCsrs(h.csrs, t, EnterStatus(next, Read(h.csrs, t.status), h.priv),
                              Cause(xlen, isInterrupt, code), pc, trapValue);
    (Hart(csrs, next, TrapVector(xlen, Read(csrs, t.tvec), isInterrupt, code)),
     TrapEvent(if isInterrupt then Interrupt else Exception, next, next, code as bv32, trapValue))
  }

  /** An exception goes to the level the exception delegation registers pick. */
  function TakeException(h: Hart, xlen: XLEN, trap: Trap): (Hart, Event) {
    EnterTrap(h, xlen, false, trap.code, trap.trapValue, trap.pc,
              TrapTarget(Read(h.csrs, MEdeleg), Read(h.csrs, SEdeleg), trap.code))
  }

  /** An interrupt goes to the level the interrupt delegation registers
      pick, with a trap value of zero. */
  function TakeInterrupt(h: Hart, xlen: XLEN, code: TrapCode, pc: bv64): (Hart, Event) {
    EnterTrap(h, xlen, true, code, 0, pc, TrapTarget(Read(h.csrs, MIdeleg), Read(h.csrs, SIdeleg), code))
  }

  /** MRET and SRET: the level returns to xPP, xPP is cleared, xIE takes
      xPIE (which keeps its value) and the pc takes xepc.  The event goes
      from the current level to the restored one.  Returning with any other
      level is not implemented (`None`), and nothing changes. */
  function ReturnFrom(h: Hart, level: PrivilegeLevel): (r: Option<(Hart, Event)>)
    ensures r.Some? <==> level == Machine || level == Supervisor
    ensures level == Machine ==> var st := Read(h.csrs, MStatus);
      && r.value.0.priv == PrivOf(MPP(st)) && r.value.0.pc == Read(h.csrs, MEpc)
      && var st' := Read(r.value.0.csrs, MStatus);
      && MPP(st') == 0 && MIE(st') == MPIE(st) && MPIE(st') == MPIE(st)
      && (forall a :: a != MStatus ==> Read(r.value.0.csrs, a) == Read(h.csrs, a))
      && r.value.1 == TrapEvent(Return, h.priv, PrivOf(MPP(st)), 0, 0)
    ensures level == Supervisor ==> var st := Read(h.csrs, SStatus);
      && r.value.0.priv == PrivOf(SPP(st)) && r.value.0.pc == Read(h.csrs, SEpc)
      && var st' := Read(r.value.0.csrs, SStatus);
      && SPP(st') == 0 && SIE(st') == SPIE(st) && SPIE(st') == SPIE(st)
      && (forall a :: a != SStatus ==> Read(r.value.0.csrs, a) == Read(h.csrs, a))
      && r.value.1 == TrapEvent(Return, h.priv, PrivOf(SPP(st)), 0, 0)
  {
    match level
    case Machine =>
      var st := Read(h.csrs, MStatus);
      var next := PrivOf(MPP(st));
      Some((Hart(h.csrs[MStatus := WithMIE(WithMPP(st, 0), MPIE(st))], next, Read(h.csrs, MEpc)),
            TrapEvent(Return, h.priv, next, 0, 0)))
    case Supervisor =>
      var st := Read(h.csrs, SStatus);
      var next := PrivOf(SPP(st));
      Some((Hart(h.csrs[SStatus := WithSIE(WithSPP(st, 0), SPIE(st))], next, Read(h.csrs, SEpc)),
            TrapEvent(Return, h.priv, next, 0, 0)))
    case _ => None
  }

  /** MRET undoes a trap into Machine: the level and the interrupt enable
      are those before the trap, and execution resumes at the trapped pc. */
  lemma MachineRoundTrip(h: Hart, xlen: XLEN, isInterrupt: bool, code: TrapCode, trapValue: bv64, pc: bv64)
    ensures var entered := EnterTrap(h, xlen, isInterrupt, code, trapValue, pc, Machine).0;
      var r := ReturnFrom(entered, Machine);
      && r.Some? && r.value.0.priv == h.priv && r.value.0.pc == pc
      && MIE(Read(r.value.0.csrs, MStatus)) == MIE(Read(h.csrs, MStatus))
      && r.value.1 == TrapEvent(Return, Machine, h.priv, 0, 0)
  {
    var entered := EnterTrap(h, xlen, isInterrupt, code, trapValue, pc, Machine).0;
    var st := Read(entered.csrs, MStatus);
    assert MPP(st) == PrivValue(h.priv);
    PrivRoundTrip(h.priv);
  }

  /** SRET undoes a trap into Supervisor taken from User or Supervisor; from
      Machine it cannot, since SPP has room for one bit only and the return
      lands in Supervisor. */
  lemma SupervisorRoundTrip(h: Hart, xlen: XLEN, isInterrupt: bool, code: TrapCode, trapValue: bv64, pc: bv64)
    ensures var entered := EnterTrap(h, xlen, isInterrupt, code, trapValue, pc, Supervisor).0;
      var r := ReturnFrom(entered, Supervisor);
      && r.Some? && r.value.0.pc == pc
      && SIE(Read(r.value.0.csrs, SStatus)) == SIE(Read(h.csrs, SStatus))
      && (h.priv == User || h.priv == Supervisor ==> r.value.0.priv == h.priv)
      && (h.priv == Machine ==> r.value.0.priv == Supervisor)
  {
    var entered := EnterTrap(h, xlen, isInterrupt, code, trapValue, pc, Supervisor).0;
    var st := Read(entered.csrs, SStatus);
    assert SPP(st) == PrivValue(h.priv) & 1;
    LowBit(h.priv);
  }

  lemma LowBit(p: PrivilegeLevel)
    ensures p == User ==> PrivValue(p) & 1 == 0
    ensures p == Supervisor ==> PrivValue(p) & 1 == 1
    ensures p == Machine ==> PrivValue(p) & 1 == 1
  {
  }
}
