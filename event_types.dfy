/** The events the emulator records while it runs a cycle: a retired
    instruction, a trap taken or returned from, and a memory access.  The
    event list is shared by the processor, the trap processor and the memory
    access unit, which all append to it. */
module EventTypes {
  import opened Common

  datatype TrapType = Exception | Interrupt | Return

  datatype MemoryAccessType = Instruction | Load | Store

  datatype Event =
    | OpEvent(insn: bv32, priv: PrivilegeLevel)
    | TrapEvent(trapType: TrapType, from: PrivilegeLevel, to: PrivilegeLevel, cause: bv32, trapValue: bv64)
    | MemoryEvent(accessType: MemoryAccessType, size: bv32, value: bv64, vaddr: bv64, paddr: bv64)

  /** A `std::vector<Event>` that several owners append to. */
  class EventList {
    var items: seq<Event>

    constructor ()
      ensures items == []
    {
      items := [];
    }

    /** `emplace_back`: the event goes at the end, the rest stays. */
    method Add(e: Event)
      modifies this
      ensures items == old(items) + [e]
    {
      items := items + [e];
    }

    /** Appends the events another unit recorded, in their order. */
    method AddAll(es: seq<Event>)
      modifies this
      ensures items == old(items) + es
    {
      items := items + es;
    }
  }
}
