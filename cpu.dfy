/** The emulator's processor: the trap processor that carries out trap
    entry and return one CSR access at a time, and the cycle that checks
    for an interrupt, fetches, decodes and executes.  The CSR file is a map
    from address to value with the privilege level and the pc beside it;
    the interrupt controller, the memory access unit, the decoder and the
    executor are not part of this model and are given as functions. */
module Cpu {
  import opened Text
  import opened Common
  import opened EventTypes
  import opened Privileged

  /** The CSR file with the current privilege level and pc. */
  class Csr {
    var csrs: map<nat, bv64>
    var priv: PrivilegeLevel
    var pc: bv64

    constructor (h: Hart)
      ensures State() == h
    {
      csrs, priv, pc := h.csrs, h.priv, h.pc;
    }

    function State(): Hart
      reads this
    {
      Hart(csrs, priv, pc)
    }

    method ReadUInt64(addr: nat) returns (v: bv64)
      ensures v == Read(csrs, addr)
    {
      v := if addr in csrs then csrs[addr] else 0;
    }

    method WriteUInt64(addr: nat, v: bv64)
      modifies this
      ensures State() == old(State()).(csrs := old(csrs)[addr := v])
    {
      csrs := csrs[addr := v];
    }

    method SetPriv(p: PrivilegeLevel)
      modifies this
      ensures State() == old(State()).(priv := p)
    {
      priv := p;
    }

    method SetPc(v: bv64)
      modifies this
      ensures State() == old(State()).(pc := v)
    {
      pc := v;
    }

    /** The CSR file's own per-cycle update (its counters), given as the
        function `tick` on the whole state. */
    method ProcessCycle(tick: Hart -> Hart)
      modifies this
      ensures State() == tick(old(State()))
    {
      var h := tick(State());
      csrs, priv, pc := h.csrs, h.priv, h.pc;
    }

    /** Takes over the state another unit computed. */
    method Assign(h: Hart)
      modifies this
      ensures State() == h
    {
      csrs, priv, pc := h.csrs, h.priv, h.pc;
    }
  }

  class TrapProcessor {
    const xlen: XLEN
    const csr: Csr
    const events: EventList

    constructor (xlen: XLEN, csr: Csr, events: EventList)
      ensures this.xlen == xlen && this.csr == csr && this.events == events
    {
      this.xlen, this.csr, this.events := xlen, csr, events;
    }

    /** Takes an exception into the level its delegation picks. */
    method ProcessException(trap: Trap)
      modifies csr, events
      ensures var (h, e) := TakeException(old(csr.State()), xlen, trap);
        csr.State() == h && events.items == old(events.items) + [e]
    {
      var medeleg := csr.ReadUInt64(MEdeleg);
      var next := Machine;
      if Delegated(medeleg, trap.code) {
        next := Supervisor;
        var sedeleg := csr.ReadUInt64(SEdeleg);
        if Delegated(sedeleg, trap.code) {
          next := User;
        }
      }
      ProcessTrapEnter(false, trap.code, trap.trapValue, trap.pc, next);
    }

    /** Takes an interrupt into the level its delegation picks. */
    method ProcessInterrupt(code: TrapCode, pc: bv64)
      modifies csr, events
      ensures var (h, e) := TakeInterrupt(old(csr.State()), xlen, code, pc);
        csr.State() == h && events.items == old(events.items) + [e]
    {
      var mideleg := csr.ReadUInt64(MIdeleg);
      var next := Machine;
      if Delegated(mideleg, code) {
        next := Supervisor;
        var sideleg := csr.ReadUInt64(SIdeleg);
        if Delegated(sideleg, code) {
          next := User;
        }
      }
      ProcessTrapEnter(true, code, 0, pc, next);
    }

    /** MRET or SRET; any other level reports `false` (not implemented) and
        changes nothing. */
    method ProcessTrapReturn(level: PrivilegeLevel) returns (implemented: bool)
      modifies csr, events
      ensures var r := ReturnFrom(old(csr.State()), level);
        && implemented == r.Some?
        && (r.Some? ==> csr.State() == r.value.0 && events.items == old(events.items) + [r.value.1])
        && (r.None? ==> csr.State() == old(csr.State()) && events.items == old(events.items))
    {
      var status, pc, previousLevel;
      match level {
        case Machine =>
          status := csr.ReadUInt64(MStatus);
          pc := csr.ReadUInt64(MEpc);
          previousLevel := MPP(status);
          var previousInterruptEnable := MPIE(status);
          status := WithMPP(status, 0);
          status := WithMIE(status, previousInterruptEnable);
          csr.WriteUInt64(MStatus, status);
          csr.SetPc(pc);
        case Supervisor =>
          status := csr.ReadUInt64(SStatus);
          pc := csr.ReadUInt64(SEpc);
          previousLevel := SPP(status);
          var previousInterruptEnable := SPIE(status);
          status := WithSPP(status, 0);
          status := WithSIE(status, previousInterruptEnable);
          csr.WriteUInt64(SStatus, status);
          csr.SetPc(pc);
        case _ =>
          return false;
      }
      var nextPriv := PrivOf(previousLevel);
      events.Add(TrapEvent(Return, csr.priv, nextPriv, 0, 0));
      csr.SetPriv(nextPriv);
      implemented := true;
    }

    /** The entry sequence: switch the level, compute the cause, update the
        status of the new level and write its cause, epc and tval, then
        jump through its trap vector and record the event. */
    method ProcessTrapEnter(isInterrupt: bool, code: TrapCode, trapValue: bv64, pc: bv64, nextPriv: PrivilegeLevel)
      requires nextPriv != Reserved
      modifies csr, events
      ensures var (h, e) := EnterTrap(old(csr.State()), xlen, isInterrupt, code, trapValue, pc, nextPriv);
        csr.State() == h && events.items == old(events.items) + [e]
    {
      ghost var h := csr.State();
      var prevPriv := csr.priv;
      csr.SetPriv(nextPriv);
      var cause := Cause(xlen, isInterrupt, code);
      var t := TrapCsrsOf(nextPriv);
      var status := csr.ReadUInt64(t.status);
      status := PushStatus(nextPriv, status, prevPriv);
      WriteTrapRegisters(t, status, cause, pc, trapValue);
      var trapVector := csr.ReadUInt64(t.tvec);
      assert trapVector == Read(h.csrs, t.tvec);
      csr.SetPc(TrapVector(xlen, trapVector, isInterrupt, code));
      events.Add(TrapEvent(if isInterrupt then Interrupt else Exception, csr.priv, nextPriv, code as bv32, trapValue));
    }

    /** The four trap registers of one level, written in turn. */
    method WriteTrapRegisters(t: TrapCsrs, status: bv64, cause: bv64, epc: bv64, tval: bv64)
      requires t.Distinct()
      modifies csr
      ensures csr.State() == old(csr.State()).(csrs := WriteTrapCsrs(old(csr.csrs), t, status, cause, epc, tval))
    {
      csr.WriteUInt64(t.status, status);
      csr.WriteUInt64(t.cause, cause);
      csr.WriteUInt64(t.epc, epc);
      csr.WriteUInt64(t.tval, tval);
    }

    /** The field updates of the status register on entry to `level`, one
        `SetMember` at a time. */
    static method PushStatus(level: PrivilegeLevel, status: bv64, prev: PrivilegeLevel) returns (r: bv64)
      requires level != Reserved
      ensures r == EnterStatus(level, status, prev)
    {
      r := status;
      match level {
        case Machine =>
          r := WithMPIE(r, MIE(r));
          r := WithMIE(r, 0);
          r := WithMPP(r, PrivValue(prev));
        case Supervisor =>
          r := WithSPIE(r, SIE(r));
          r := WithSIE(r, 0);
          r := WithSPP(r, PrivValue(prev));
        case User =>
          r := WithUPIE(r, UIE(r));
          r := WithUIE(r, 0);
      }
    }
  }

  // ---------------------------------------------------------------------------
  // Fetch and the processor cycle

  /** A translation: the physical address, or the trap the access raised. */
  datatype Translation = Translated(paddr: bv64) | Fault(trap: Trap)

  /** The instruction side of the memory access unit: translation of a
      virtual address (with the pc of the access) and the 16- and 32-bit
      fetches at a virtual and physical address. */
  datatype Mmu = Mmu(translate: (bv64, bv64) -> Translation,
                     fetch16: (bv64, bv64) -> bv16,
                     fetch32: (bv64, bv64) -> bv32)

  datatype Fetch = Fetched(insn: bv32) | FetchTrap(trap: Trap)

  /** `(insnHigh << 16) | insnLow`: the two half-words of a split fetch,
      each recoverable from the word. */
  function JoinHalves(high: bv16, low: bv16): (r: bv32)
    ensures r & 0xFFFF == low as bv32 && r >> 16 == high as bv32
  {
    ((high as bv32) << 16) | low as bv32
  }

  /** The last half-word of a 4 KiB page, where a 32-bit fetch would cross
      into the next page: `pc % 0x1000 == 0xffe`, written with the mask it
      equals on an unsigned value. */
  predicate PageEnd(pc: bv64) {
    pc & 0xFFF == 0xFFE
  }

  /** The instruction at `pc`.  At a page end the fetch is split in two: the
      low half-word is returned alone when it is a compressed instruction,
      otherwise the high half-word is translated and fetched from `pc + 2`
      and the halves are joined.  Anywhere else one translation and one
      32-bit fetch are made. */
  function FetchInsn(mmu: Mmu, isCompressed: bv32 -> bool, pc: bv64): Fetch {
    if PageEnd(pc) then
      match mmu.translate(pc, pc)
      case Fault(t) => FetchTrap(t)
      case Translated(paddrLow) =>
        var low := mmu.fetch16(pc, paddrLow) as bv32;
        if isCompressed(low) then Fetched(low)
        else
          match mmu.translate(pc + 2, pc)
          case Fault(t) => FetchTrap(t)
          case Translated(paddrHigh) =>
            Fetched(JoinHalves(mmu.fetch16(pc + 2, paddrHigh), mmu.fetch16(pc, paddrLow)))
    else
      match mmu.translate(pc, pc)
      case Fault(t) => FetchTrap(t)
      case Translated(paddr) => Fetched(mmu.fetch32(pc, paddr))
  }

  /** At a page end, a compressed low half-word is all that is fetched: the
      translation of `pc + 2` plays no part. */
  lemma CompressedAtPageEnd(t1: (bv64, bv64) -> Translation, t2: (bv64, bv64) -> Translation,
                            fetch16: (bv64, bv64) -> bv16, fetch32: (bv64, bv64) -> bv32,
                            isCompressed: bv32 -> bool, pc: bv64)
    requires PageEnd(pc) && t1(pc, pc) == t2(pc, pc)
    requires t1(pc, pc).Translated? ==> isCompressed(fetch16(pc, t1(pc, pc).paddr) as bv32)
    ensures FetchInsn(Mmu(t1, fetch16, fetch32), isCompressed, pc)
         == FetchInsn(Mmu(t2, fetch16, fetch32), isCompressed, pc)
    ensures t1(pc, pc).Translated? ==>
      FetchInsn(Mmu(t1, fetch16, fetch32), isCompressed, pc) == Fetched(fetch16(pc, t1(pc, pc).paddr) as bv32)
  {
  }

  /** At a page end, a full-width instruction is the high half-word above
      the low one, each fetched through its own translation. */
  lemma SplitFetch(mmu: Mmu, isCompressed: bv32 -> bool, pc: bv64)
    requires PageEnd(pc) && mmu.translate(pc, pc).Translated? && mmu.translate(pc + 2, pc).Translated?
    requires !isCompressed(mmu.fetch16(pc, mmu.translate(pc, pc).paddr) as bv32)
    ensures FetchInsn(mmu, isCompressed, pc)
         == Fetched(JoinHalves(mmu.fetch16(pc + 2, mmu.translate(pc + 2, pc).paddr),
                               mmu.fetch16(pc, mmu.translate(pc, pc).paddr)))
  {
  }

  /** The units the cycle calls but that are not part of this model: the
      interrupt controller's request, the memory access unit, the decoder's
      compressed and known-opcode tests, and the executor's checks and its
      execution, which returns the new state and the events it recorded. */
  datatype Platform = Platform(
    interrupt: Hart -> Option<TrapCode>,
    mmu: Mmu,
    isCompressed: bv32 -> bool,
    isKnown: bv32 -> bool,
    preCheck: (bv32, bv64, Hart) -> Option<Trap>,
    processOp: (bv32, bv64, Hart) -> (Hart, seq<Event>),
    postCheck: (bv32, bv64, Hart) -> Option<Trap>)

  /** An exception raised in the state `h`, with its event appended. */
  function Raise(h: Hart, events: seq<Event>, xlen: XLEN, t: Trap): (r: (Hart, seq<Event>))
    ensures r.1 == events + [TakeException(h, xlen, t).1]
  {
    var (h', e) := TakeException(h, xlen, t);
    (h', events + [e])
  }

  /** The instruction size a pc advances by. */
  function Step(isCompressed: bool): bv64 {
    if isCompressed then 2 else 4
  }

  /** One processor cycle: the CSR file's own update `tick` comes first,
      and the level and pc the rest of the cycle uses are read after it. */
  function Cycle(h: Hart, events: seq<Event>, xlen: XLEN, tick: Hart -> Hart, p: Platform): (Hart, seq<Event>) {
    Dispatch(tick(h), events, xlen, p)
  }

  /** The cycle after the CSR update: a requested interrupt is taken and
      ends the cycle; otherwise the instruction is fetched (a fetch trap
      ends the cycle), recorded as an OpEvent and executed. */
  function Dispatch(h: Hart, events: seq<Event>, xlen: XLEN, p: Platform): (Hart, seq<Event>) {
    match p.interrupt(h)
    case Some(code) =>
      var (h', e) := TakeInterrupt(h, xlen, code, h.pc);
      (h', events + [e])
    case None =>
      match FetchInsn(p.mmu, p.isCompressed, h.pc)
      case FetchTrap(t) => Raise(h, events, xlen, t)
      case Fetched(insn) => Execute(h, events + [OpEvent(insn, h.priv)], xlen, p, insn)
  }

  /** The rest of the cycle for a fetched word: an unknown opcode raises
      illegal instruction, and so does a failed pre-check with its own
      trap; otherwise the instruction runs. */
  function Execute(h: Hart, recorded: seq<Event>, xlen: XLEN, p: Platform, insn: bv32): (Hart, seq<Event>) {
    if !p.isKnown(insn) then Raise(h, recorded, xlen, IllegalInstruction(h.pc, insn))
    else
      match p.preCheck(insn, h.pc, h)
      case Some(t) => Raise(h, recorded, xlen, t)
      case None => Run(h, recorded, xlen, p, insn)
  }

  /** The executor's result for a fetched word, run with the pc already
      moved past the instruction. */
  function Executed(h: Hart, p: Platform, insn: bv32): (Hart, seq<Event>) {
    p.processOp(insn, h.pc, h.(pc := h.pc + Step(p.isCompressed(insn))))
  }

  /** The pc moves past the instruction, the executor runs, and its
      post-check may still raise an exception in the state it left. */
  function Run(h: Hart, recorded: seq<Event>, xlen: XLEN, p: Platform, insn: bv32): (Hart, seq<Event>) {
    var r := Executed(h, p, insn);
    match p.postCheck(insn, h.pc, r.0)
    case Some(t) => Raise(r.0, recorded + r.1, xlen, t)
    case None => (r.0, recorded + r.1)
  }

  /** The CSR update comes first and exactly once: a cycle from `h` is a
      cycle from the updated state in which the update does nothing. */
  lemma TickFirst(h: Hart, events: seq<Event>, xlen: XLEN, tick: Hart -> Hart, p: Platform)
    ensures Cycle(h, events, xlen, tick, p) == Cycle(tick(h), events, xlen, x => x, p)
  {
  }

  /** A requested interrupt is taken at the pc read after the CSR update and
      ends the cycle: nothing is fetched, and the only event is the
      interrupt's. */
  lemma InterruptEndsCycle(h: Hart, events: seq<Event>, xlen: XLEN, tick: Hart -> Hart, p: Platform, mmu: Mmu)
    requires p.interrupt(tick(h)).Some?
    ensures var t := tick(h); var r := Cycle(h, events, xlen, tick, p);
      && r.0 == TakeInterrupt(t, xlen, p.interrupt(t).value, t.pc).0
      && r.1 == events + [r.1[|events|]] && r.1[|events|].TrapEvent? && r.1[|events|].trapType == Interrupt
      && r == Cycle(h, events, xlen, tick, p.(mmu := mmu))
  {
  }

  /** A fetch trap is taken in the state left by the CSR update; no OpEvent
      is recorded. */
  lemma FetchTrapEndsCycle(h: Hart, events: seq<Event>, xlen: XLEN, tick: Hart -> Hart, p: Platform)
    requires p.interrupt(tick(h)).None? && FetchInsn(p.mmu, p.isCompressed, tick(h).pc).FetchTrap?
    ensures var r := Cycle(h, events, xlen, tick, p);
      var t := FetchInsn(p.mmu, p.isCompressed, tick(h).pc).trap;
      && r.0 == TakeException(tick(h), xlen, t).0
      && r.1 == events + [r.1[|events|]] && r.1[|events|].TrapEvent? && r.1[|events|].trapType == Exception
  {
  }

  /** After a successful fetch, exactly one OpEvent, for the fetched word at
      the level read after the CSR update, follows the events recorded
      before; everything after it only appends. */
  lemma OpEventAfterFetch(h: Hart, events: seq<Event>, xlen: XLEN, tick: Hart -> Hart, p: Platform)
    requires p.interrupt(tick(h)).None? && FetchInsn(p.mmu, p.isCompressed, tick(h).pc).Fetched?
    ensures var t := tick(h); var r := Cycle(h, events, xlen, tick, p);
      && |r.1| > |events| && r.1[..|events|] == events
      && r.1[|events|] == OpEvent(FetchInsn(p.mmu, p.isCompressed, t.pc).insn, t.priv)
  {
    var t := tick(h);
    var insn := FetchInsn(p.mmu, p.isCompressed, t.pc).insn;
    var recorded := events + [OpEvent(insn, t.priv)];
    ExecuteAppends(t, recorded, xlen, p, insn);
    var r := Execute(t, recorded, xlen, p, insn);
    assert r.1[..|recorded|] == recorded;
    assert r.1[..|events|] == recorded[..|events|];
  }

  /** Execution only ever appends to the events recorded so far. */
  lemma ExecuteAppends(h: Hart, recorded: seq<Event>, xlen: XLEN, p: Platform, insn: bv32)
    ensures var r := Execute(h, recorded, xlen, p, insn);
      |r.1| >= |recorded| && r.1[..|recorded|] == recorded
  {
    if p.isKnown(insn) && p.preCheck(insn, h.pc, h).None? {
      var e := Executed(h, p, insn);
      assert (recorded + e.1)[..|recorded|] == recorded;
    }
  }

  /** An unknown opcode raises illegal instruction (code 2, with the word as
      trap value) in the state the cycle began with: the executor is not
      run and the pc is not advanced. */
  lemma UnknownOpcode(h: Hart, recorded: seq<Event>, xlen: XLEN, p: Platform, insn: bv32,
                      processOp: (bv32, bv64, Hart) -> (Hart, seq<Event>))
    requires !p.isKnown(insn)
    ensures var r := Execute(h, recorded, xlen, p, insn);
      && r.0 == TakeException(h, xlen, Trap(2, h.pc, insn as bv64)).0
      && r.1 == recorded + [TakeException(h, xlen, Trap(2, h.pc, insn as bv64)).1]
      && r == Execute(h, recorded, xlen, p.(processOp := processOp), insn)
  {
  }

  /** When the checks pass, the executor runs with the pc already moved past
      the instruction, by 2 bytes for a compressed one and 4 otherwise. */
  lemma ExecutesPastInsn(h: Hart, recorded: seq<Event>, xlen: XLEN, p: Platform, insn: bv32)
    requires p.isKnown(insn) && p.preCheck(insn, h.pc, h).None?
    ensures var (executed, _) := p.processOp(insn, h.pc, h.(pc := h.pc + Step(p.isCompressed(insn))));
      var r := Execute(h, recorded, xlen, p, insn);
      && (p.postCheck(insn, h.pc, executed).None? ==> r.0 == executed)
      && (p.postCheck(insn, h.pc, executed).Some? ==>
            r.0 == TakeException(executed, xlen, p.postCheck(insn, h.pc, executed).value).0)
  {
    var e := Executed(h, p, insn);
    assert e == p.processOp(insn, h.pc, h.(pc := h.pc + Step(p.isCompressed(insn))));
    var r := Run(h, recorded, xlen, p, insn);
    assert Execute(h, recorded, xlen, p, insn) == r;
    match p.postCheck(insn, h.pc, e.0)
    case None =>
      assert r == (e.0, recorded + e.1);
    case Some(t) =>
      assert r == Raise(e.0, recorded + e.1, xlen, t);
  }

  class Processor {
    const xlen: XLEN
    const csr: Csr
    const events: EventList
    const trapProcessor: TrapProcessor

    ghost predicate Valid()
      reads this, trapProcessor
    {
      trapProcessor.xlen == xlen && trapProcessor.csr == csr && trapProcessor.events == events
    }

    constructor (xlen: XLEN, events: EventList, initial: Hart)
      ensures Valid() && this.xlen == xlen && this.events == events && fresh(csr) && csr.State() == initial
    {
      this.xlen, this.events := xlen, events;
      var c := new Csr(initial);
      csr := c;
      trapProcessor := new TrapProcessor(xlen, c, events);
    }

    /** The fetch stage, writing the instruction or reporting the trap. */
    method Fetch(mmu: Mmu, isCompressed: bv32 -> bool, pc: bv64) returns (insn: bv32, trap: Option<Trap>)
      ensures var f := FetchInsn(mmu, isCompressed, pc);
        && (f.Fetched? <==> trap.None?)
        && (f.Fetched? ==> insn == f.insn)
        && (f.FetchTrap? ==> trap == Some(f.trap))
    {
      insn := 0;
      if PageEnd(pc) {
        var vaddrLow, vaddrHigh := pc, pc + 2;
        var low := mmu.translate(vaddrLow, pc);
        if low.Fault? {
          return 0, Some(low.trap);
        }
        var insnLow := mmu.fetch16(vaddrLow, low.paddr) as bv32;
        if isCompressed(insnLow) {
          return insnLow, None;
        }
        var high := mmu.translate(vaddrHigh, pc);
        if high.Fault? {
          return 0, Some(high.trap);
        }
        var insnHigh := mmu.fetch16(vaddrHigh, high.paddr);
        insn := JoinHalves(insnHigh, mmu.fetch16(vaddrLow, low.paddr));
      } else {
        var t := mmu.translate(pc, pc);
        if t.Fault? {
          return 0, Some(t.trap);
        }
        insn := mmu.fetch32(pc, t.paddr);
      }
      trap := None;
    }

    /** One cycle, carried out on the CSR file and the shared event list. */
    method ProcessCycle(tick: Hart -> Hart, p: Platform)
      requires Valid()
      modifies csr, events
      ensures var (h, es) := Cycle(old(csr.State()), old(events.items), xlen, tick, p);
        csr.State() == h && events.items == es
    {
      csr.ProcessCycle(tick);
      var priv := csr.priv;
      var pc := csr.pc;
      ghost var h := csr.State();
      var interrupt := p.interrupt(csr.State());
      if interrupt.Some? {
        trapProcessor.ProcessInterrupt(interrupt.value, pc);
        return;
      }
      var insn, fetchTrap := Fetch(p.mmu, p.isCompressed, pc);
      if fetchTrap.Some? {
        trapProcessor.ProcessException(fetchTrap.value);
        return;
      }
      events.Add(OpEvent(insn, priv));
      ExecuteStage(p, insn);
    }

    /** Decode, the pre-check, the pc update, execution and the post-check
        of a fetched word. */
    method ExecuteStage(p: Platform, insn: bv32)
      requires Valid()
      modifies csr, events
      ensures var (h, es) := Execute(old(csr.State()), old(events.items), xlen, p, insn);
        csr.State() == h && events.items == es
    {
      var pc := csr.pc;
      if !p.isKnown(insn) {
        trapProcessor.ProcessException(IllegalInstruction(pc, insn));
        return;
      }
      var preExecuteTrap := p.preCheck(insn, pc, csr.State());
      if preExecuteTrap.Some? {
        trapProcessor.ProcessException(preExecuteTrap.value);
        return;
      }
      RunStage(p, insn);
    }

    /** The pc update, execution and the post-check. */
    method RunStage(p: Platform, insn: bv32)
      requires Valid()
      modifies csr, events
      ensures var (h, es) := Run(old(csr.State()), old(events.items), xlen, p, insn);
        csr.State() == h && events.items == es
    {
      var pc := csr.pc;
      ExecuteOp(p, insn);
      var postExecuteTrap := p.postCheck(insn, pc, csr.State());
      if postExecuteTrap.Some? {
        trapProcessor.ProcessException(postExecuteTrap.value);
      }
    }

    /** The pc moves past the instruction and the executor's state and
        events are taken over. */
    method ExecuteOp(p: Platform, insn: bv32)
      modifies csr, events
      ensures var (h, es) := Executed(old(csr.State()), p, insn);
        csr.State() == h && events.items == old(events.items) + es
    {
      var pc, step := csr.pc, Step(p.isCompressed(insn));
      csr.SetPc(pc + step);
      var (executed, executorEvents) := p.processOp(insn, pc, csr.State());
      csr.Assign(executed);
      events.AddAll(executorEvents);
    }
  }
}
