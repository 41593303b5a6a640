/** The trace logger: once per cycle it starts a cycle buffer, adds the
    architectural state and the cycle's events as nodes, closes the cycle
    with a break record and hands the bytes to the trace writer.  The system
    being traced is read at the moment of each call, so its current state is
    passed in as a `Target`; the index writer that stores the cycles is
    represented by the blocks handed to it (`written`). */
module TraceLogger {
  import opened Text
  import opened Common
  import opened EventTypes
  import opened TraceFormat
  import opened CycleBuilder

  datatype LoggerConfig = LoggerConfig(
    enabled: bool,
    path: string,
    enableDumpIntReg: bool,
    enableDumpFpReg: bool,
    enableDumpHostIo: bool)

  /** What the logger reads from the traced system. */
  datatype Target = Target(
    intReg32: seq<bv32>,
    intReg64: seq<bv64>,
    fpReg: seq<bv64>,
    hostIoValue: bv32,
    events: seq<Event>)

  /** The integer registers at the width XLEN gives, when enabled. */
  function IntRegNodes(config: LoggerConfig, xlen: XLEN, target: Target): (ns: seq<Node>)
    ensures |ns| <= 1
  {
    if !config.enableDumpIntReg then []
    else if xlen == XLEN32 then [IntReg32Node(target.intReg32)]
    else [IntReg64Node(target.intReg64)]
  }

  /** The floating-point registers, when enabled. */
  function FpRegNodes(config: LoggerConfig, target: Target): (ns: seq<Node>)
    ensures |ns| <= 1
  {
    if config.enableDumpFpReg then [FpRegNode(target.fpReg)] else []
  }

  /** The host I/O value with a zero reserved word, when enabled. */
  function HostIoNodes(config: LoggerConfig, target: Target): (ns: seq<Node>)
    ensures |ns| <= 1
  {
    if config.enableDumpHostIo then [IoNode(target.hostIoValue, 0)] else []
  }

  /** The nodes of the architectural state, in the order they are added:
      the integer registers, the floating-point registers, then the host
      I/O value. */
  function StateNodes(config: LoggerConfig, xlen: XLEN, target: Target): seq<Node>
  {
    IntRegNodes(config, xlen, target) + FpRegNodes(config, target) + HostIoNodes(config, target)
  }

  /** One node per event, in event order. */
  function EventNodes(events: seq<Event>): (ns: seq<Node>)
    ensures |ns| == |events|
  {
    if events == [] then [] else EventNodes(events[..|events| - 1]) + [EventNode(events[|events| - 1])]
  }

  lemma {:induction false} EventNodesIndex(events: seq<Event>, i: nat)
    requires i < |events|
    ensures EventNodes(events)[i] == EventNode(events[i])
    decreases |events|
  {
    if i < |events| - 1 {
      assert events[..|events| - 1][i] == events[i];
      EventNodesIndex(events[..|events| - 1], i);
    }
  }

  /** The records the nodes are added as. */
  function RecordsOf(layout: Node -> seq<byte>, ns: seq<Node>): (rs: seq<Record>)
    ensures |rs| == |ns|
  {
    if ns == [] then [] else RecordsOf(layout, ns[..|ns| - 1]) + [Record(NodeIdOf(ns[|ns| - 1]), layout(ns[|ns| - 1]))]
  }

  lemma RecordsOfSnoc(layout: Node -> seq<byte>, ns: seq<Node>, n: Node)
    ensures RecordsOf(layout, ns + [n]) == RecordsOf(layout, ns) + [Record(NodeIdOf(n), layout(n))]
  {
    assert (ns + [n])[..|ns|] == ns;
  }

  /** The records of a prefix of the nodes are the same prefix of their
      records. */
  lemma {:induction false} RecordsOfPrefix(layout: Node -> seq<byte>, ns: seq<Node>, k: nat)
    requires k <= |ns|
    ensures RecordsOf(layout, ns[..k]) == RecordsOf(layout, ns)[..k]
    decreases |ns|
  {
    if k < |ns| {
      var init := ns[..|ns| - 1];
      assert init[..k] == ns[..k];
      RecordsOfPrefix(layout, init, k);
    } else {
      assert ns[..k] == ns;
    }
  }

  /** `after` is `before` followed by a proper prefix of `all`: an addition
      of the records `all` that stopped part-way. */
  ghost predicate PartlyAdded(before: seq<Record>, after: seq<Record>, all: seq<Record>) {
    before <= after < before + all
  }

  /** Adding the records of a proper prefix of the nodes leaves a proper
      prefix of what adding all of them would. */
  lemma StoppedEarly(layout: Node -> seq<byte>, before: seq<Record>, done: seq<Node>, ns: seq<Node>)
    requires done < ns
    ensures PartlyAdded(before, before + RecordsOf(layout, done), RecordsOf(layout, ns))
  {
    assert ns[..|done|] == done;
    RecordsOfPrefix(layout, ns, |done|);
  }

  lemma {:induction false} RecordsOfIndex(layout: Node -> seq<byte>, ns: seq<Node>, i: nat)
    requires i < |ns|
    ensures RecordsOf(layout, ns)[i] == Record(NodeIdOf(ns[i]), layout(ns[i]))
    decreases |ns|
  {
    if i < |ns| - 1 {
      assert ns[..|ns| - 1][i] == ns[i];
      RecordsOfIndex(layout, ns[..|ns| - 1], i);
    }
  }

  /** The `cycle` argument arrives as a C++ `int` and is stored as a
      `uint32_t`: the conversion is modulo 2^32. */
  function CycleNumber(cycle: int): (r: uint32)
    ensures 0 <= cycle < 0x1_0000_0000 ==> r == cycle
    ensures -0x8000_0000 <= cycle < 0 ==> r == cycle + 0x1_0000_0000
  {
    cycle % 0x1_0000_0000
  }

  /** The records of one complete cycle: the basic node, the state nodes,
      the event nodes and the closing break. */
  function CycleRecords(layout: Node -> seq<byte>, cycle: int, xlen: XLEN, pc: bv64,
                        config: LoggerConfig, target: Target): seq<Record>
  {
    [Record(BA, layout(BasicNode(CycleNumber(cycle), xlen, pc)))]
    + RecordsOf(layout, StateNodes(config, xlen, target))
    + RecordsOf(layout, EventNodes(target.events))
    + [Record(BR, [])]
  }

  /** Every event is recorded under the id of its kind, with the bytes the
      traced system lays its node out in. */
  lemma EventRecordKinds(layout: Node -> seq<byte>, events: seq<Event>, i: nat)
    requires i < |events|
    ensures var r := RecordsOf(layout, EventNodes(events))[i];
      && (events[i].OpEvent? <==> r.id == OP)
      && (events[i].TrapEvent? <==> r.id == TR)
      && (events[i].MemoryEvent? <==> r.id == MA)
      && r.payload == layout(EventNode(events[i]))
  {
    EventNodesIndex(events, i);
    RecordsOfIndex(layout, EventNodes(events), i);
  }

  /** A written cycle reads back as its records, from the basic node to the
      break, when every node fits the header's size field. */
  lemma CycleReadsBack(layout: Node -> seq<byte>, cycle: int, xlen: XLEN, pc: bv64,
                       config: LoggerConfig, target: Target)
    requires AllFit(CycleRecords(layout, cycle, xlen, pc, config, target))
    ensures var rs := CycleRecords(layout, cycle, xlen, pc, config, target);
      && DecodeAll(EncodeAll(rs)) == Some(rs)
      && rs[0].id == BA && rs[|rs| - 1] == Record(BR, [])
      && |rs| == 2 + |StateNodes(config, xlen, target)| + |target.events|
  {
    DecodeEncode(CycleRecords(layout, cycle, xlen, pc, config, target));
  }

  /** Adds one node to a cycle buffer holding `before` and the records of
      the nodes `done`. */
  method AddNode(c: BinaryCycleBuilder, ghost before: seq<Record>, ghost done: seq<Node>, n: Node)
    returns (err: Option<TraceError>)
    requires c.Valid() && c.records == before + RecordsOf(c.layout, done)
    modifies c, c.buffer
    ensures c.Valid()
    ensures err.None? ==> c.records == before + RecordsOf(c.layout, done + [n])
    ensures err.Some? ==> c.records == before + RecordsOf(c.layout, done)
  {
    err := c.Add(n);
    RecordsOfSnoc(c.layout, done, n);
  }

  /** Adds `n` when `enabled`, to a cycle buffer holding `before` and the
      records of the nodes `done`, on the way to adding the nodes `ns`;
      `after` is `done` with the node added when it was. */
  method AddWhen(c: BinaryCycleBuilder, enabled: bool, n: Node, ghost before: seq<Record>,
                 ghost done: seq<Node>, ghost ns: seq<Node>)
    returns (err: Option<TraceError>, ghost after: seq<Node>)
    requires c.Valid() && c.records == before + RecordsOf(c.layout, done)
    requires After(done, enabled, n) <= ns
    modifies c, c.buffer
    ensures c.Valid()
    ensures after == After(done, enabled, n)
    ensures err.None? ==> c.records == before + RecordsOf(c.layout, after)
    ensures err.Some? ==> PartlyAdded(before, c.records, RecordsOf(c.layout, ns))
  {
    after := done;
    err := None;
    if enabled {
      err := AddNode(c, before, done, n);
      after := done + [n];
      if err.Some? {
        StoppedEarly(c.layout, before, done, ns);
      }
    }
  }

  /** The nodes added so far, after `n` is added when `enabled`. */
  function After(done: seq<Node>, enabled: bool, n: Node): (after: seq<Node>)
    ensures after == done || after == done + [n]
  {
    if enabled then done + [n] else done
  }

  /** The state nodes as the three optional nodes added in turn. */
  lemma StateNodesInTurn(config: LoggerConfig, xlen: XLEN, target: Target)
    ensures var intReg := if xlen == XLEN32 then IntReg32Node(target.intReg32) else IntReg64Node(target.intReg64);
      var a := After([], config.enableDumpIntReg, intReg);
      var b := After(a, config.enableDumpFpReg, FpRegNode(target.fpReg));
      && a == IntRegNodes(config, xlen, target)
      && b == IntRegNodes(config, xlen, target) + FpRegNodes(config, target)
      && After(b, config.enableDumpHostIo, IoNode(target.hostIoValue, 0)) == StateNodes(config, xlen, target)
  {
  }

  /** Adds the state nodes to a cycle buffer in order; an overflow stops at
      the node that does not fit. */
  method AddStateNodes(c: BinaryCycleBuilder, config: LoggerConfig, xlen: XLEN, target: Target)
    returns (err: Option<TraceError>)
    requires c.Valid()
    modifies c, c.buffer
    ensures c.Valid()
    ensures err.None? ==> c.records == old(c.records) + RecordsOf(c.layout, StateNodes(config, xlen, target))
    ensures err.Some? ==> PartlyAdded(old(c.records), c.records, RecordsOf(c.layout, StateNodes(config, xlen, target)))
  {
    ghost var before := c.records;
    ghost var ns := StateNodes(config, xlen, target);
    ghost var done: seq<Node>;
    StateNodesInTurn(config, xlen, target);
    assert before + RecordsOf(c.layout, []) == before;
    var intReg := if xlen == XLEN32 then IntReg32Node(target.intReg32) else IntReg64Node(target.intReg64);
    err, done := AddWhen(c, config.enableDumpIntReg, intReg, before, [], ns);
    if err.Some? {
      return;
    }
    err, done := AddWhen(c, config.enableDumpFpReg, FpRegNode(target.fpReg), before, done, ns);
    if err.Some? {
      return;
    }
    err, done := AddWhen(c, config.enableDumpHostIo, IoNode(target.hostIoValue, 0), before, done, ns);
  }

  /** Adds one node per event to a cycle buffer, in event order; an
      overflow stops at the event that does not fit. */
  method AddEventNodes(c: BinaryCycleBuilder, events: seq<Event>) returns (err: Option<TraceError>)
    requires c.Valid()
    modifies c, c.buffer
    ensures c.Valid()
    ensures err.None? ==> c.records == old(c.records) + RecordsOf(c.layout, EventNodes(events))
    ensures err.Some? ==> PartlyAdded(old(c.records), c.records, RecordsOf(c.layout, EventNodes(events)))
  {
    ghost var before := c.records;
    ghost var ns := EventNodes(events);
    var i := 0;
    while i < |events|
      invariant 0 <= i <= |events| && c.Valid()
      invariant c.records == before + RecordsOf(c.layout, ns[..i])
    {
      EventNodesIndex(events, i);
      assert ns[..i + 1] == ns[..i] + [ns[i]];
      ghost var done;
      err, done := AddWhen(c, true, EventNode(events[i]), before, ns[..i], ns);
      if err.Some? {
        return;
      }
      i := i + 1;
    }
    assert ns[..i] == ns;
    err := None;
  }

  class Logger {
    const xlen: XLEN
    const config: LoggerConfig
    const layout: Node -> seq<byte>
    /** The cycle being assembled, if one was begun. */
    var current: BinaryCycleBuilder?
    /** The cycles handed to the trace writer, in order. */
    var written: seq<seq<byte>>

    ghost predicate Valid()
      reads this, current, if current != null then {current.buffer} else {}
    {
      current != null ==> current.Valid() && current.layout == layout
    }

    /** A disabled logger creates no writer and never writes. */
    constructor (xlen: XLEN, config: LoggerConfig, layout: Node -> seq<byte>)
      ensures Valid() && current == null && written == []
      ensures this.xlen == xlen && this.config == config && this.layout == layout
    {
      this.xlen, this.config, this.layout := xlen, config, layout;
      current := null;
      written := [];
    }

    /** Starts a new cycle buffer holding the cycle number, XLEN and pc. */
    method BeginCycle(cycle: int, pc: bv64)
      requires Valid()
      requires HeaderSize + |layout(BasicNode(CycleNumber(cycle), xlen, pc))| <= BufferSize
      modifies this
      ensures Valid() && written == old(written)
      ensures !config.enabled ==> current == old(current)
      ensures config.enabled ==>
        && current != null && fresh(current) && fresh(current.buffer)
        && current.records == [Record(BA, layout(BasicNode(CycleNumber(cycle), xlen, pc)))]
    {
      if !config.enabled {
        return;
      }
      current := new BinaryCycleBuilder(CycleNumber(cycle), xlen, pc, layout);
    }

    /** Adds the state nodes in order; an overflow stops at the node that
        does not fit, leaving the nodes before it added. */
    method RecordState(target: Target) returns (err: Option<TraceError>)
      requires Valid() && (config.enabled ==> current != null)
      modifies if current != null then {current, current.buffer} else {}
      ensures Valid()
      ensures !config.enabled ==> err.None? && (current != null ==> current.records == old(current.records))
      ensures config.enabled && err.None? ==>
        current.records == old(current.records) + RecordsOf(layout, StateNodes(config, xlen, target))
      ensures config.enabled && err.Some? ==>
        PartlyAdded(old(current.records), current.records, RecordsOf(layout, StateNodes(config, xlen, target)))
    {
      if !config.enabled {
        return None;
      }
      err := AddStateNodes(current, config, xlen, target);
    }

    /** Adds one node per event, in event order; an overflow stops at the
        event that does not fit, leaving the events before it added. */
    method RecordEvent(target: Target) returns (err: Option<TraceError>)
      requires Valid() && (config.enabled ==> current != null)
      modifies if current != null then {current, current.buffer} else {}
      ensures Valid()
      ensures !config.enabled ==> err.None? && (current != null ==> current.records == old(current.records))
      ensures config.enabled && err.None? ==>
        current.records == old(current.records) + RecordsOf(layout, EventNodes(target.events))
      ensures config.enabled && err.Some? ==>
        PartlyAdded(old(current.records), current.records, RecordsOf(layout, EventNodes(target.events)))
    {
      if !config.enabled {
        return None;
      }
      err := AddEventNodes(current, target.events);
    }

    /** Closes the cycle with a break record, writes its bytes once and
        drops the cycle buffer. */
    method EndCycle() returns (err: Option<TraceError>)
      requires Valid() && (config.enabled ==> current != null)
      modifies this, if current != null then {current, current.buffer} else {}
      ensures Valid()
      ensures !config.enabled ==> err.None? && current == old(current) && written == old(written)
      ensures config.enabled && err.Some? ==> written == old(written) && current == old(current)
      ensures config.enabled && err.None? ==>
        && current == null
        && AllFit(old(current.records) + [Record(BR, [])])
        && written == old(written) + [EncodeAll(old(current.records) + [Record(BR, [])])]
    {
      if !config.enabled {
        return None;
      }
      err := current.Break();
      if err.Some? {
        return;
      }
      written := written + [current.Data()];
      current := null;
    }
  }
}
