/** A trace reader over a memory buffer: an offset cursor that moves from
    one cycle to the next by the size of the current cycle.  Parsing a cycle
    is done by the trace library's cycle parser, which is not part of this
    model: the parsed cycle is represented by the bytes it was parsed from,
    and its size by the `cycleSize` function. */
module MemoryReader {
  import opened Text
  import opened TraceFormat
  import opened CycleBuilder

  /** Where the reader stands: its offset and the cycle parsed there (none
      once the offset has reached the end of the buffer). */
  datatype ReaderState = ReaderState(offset: nat, cycle: Option<seq<byte>>)

  /** The result of moving the reader: it moved, or its offset ran past the
      end of the buffer (the offset has already been advanced when this is
      detected), or there was no cycle to move past. */
  datatype Outcome = Moved(state: ReaderState) | Corrupt(state: ReaderState) | NoCycle

  /** The offset is inside the buffer, the cycle is the one at the offset,
      and there is a cycle exactly when the end has not been reached. */
  predicate ValidState(buffer: seq<byte>, s: ReaderState) {
    && s.offset <= |buffer|
    && (s.cycle.None? <==> s.offset == |buffer|)
    && (s.cycle.Some? ==> s.cycle.value == buffer[s.offset..])
  }

  /** One step: advance by the current cycle's size, check the offset, then
      parse the next cycle unless the end has been reached. */
  function NextState(buffer: seq<byte>, cycleSize: seq<byte> -> nat, s: ReaderState): (o: Outcome)
    ensures o.Moved? && ValidState(buffer, s) ==> ValidState(buffer, o.state)
    ensures o.NoCycle? <==> s.cycle.None?
    ensures !o.NoCycle? ==> o.state.offset == s.offset + cycleSize(s.cycle.value)
    ensures o.Corrupt? <==> s.cycle.Some? && o.state.offset > |buffer|
  {
    match s.cycle
    case None => NoCycle
    case Some(c) =>
      var offset := s.offset + cycleSize(c);
      if offset > |buffer| then Corrupt(ReaderState(offset, s.cycle))
      else if offset == |buffer| then Moved(ReaderState(offset, None))
      else Moved(ReaderState(offset, Some(buffer[offset..])))
  }

  /** `n` steps, stopping at the first that does not move. */
  function Walk(buffer: seq<byte>, cycleSize: seq<byte> -> nat, s: ReaderState, n: nat): Outcome
    decreases n
  {
    if n == 0 then Moved(s)
    else
      match NextState(buffer, cycleSize, s)
      case Moved(t) => Walk(buffer, cycleSize, t, n - 1)
      case o => o
  }

  /** Walking `a + b` steps is walking `a` steps and then `b` more. */
  lemma {:induction false} WalkAdd(buffer: seq<byte>, cycleSize: seq<byte> -> nat, s: ReaderState, a: nat, b: nat)
    ensures Walk(buffer, cycleSize, s, a + b) ==
      match Walk(buffer, cycleSize, s, a)
      case Moved(t) => Walk(buffer, cycleSize, t, b)
      case o => o
    decreases a
  {
    if a > 0 {
      match NextState(buffer, cycleSize, s)
      case Moved(t) => WalkAdd(buffer, cycleSize, t, a - 1, b);
      case _ =>
    }
  }

  /** Moving never goes backwards, and a walk that moved ends in a valid
      state. */
  lemma {:induction false} WalkForward(buffer: seq<byte>, cycleSize: seq<byte> -> nat, s: ReaderState, n: nat)
    requires ValidState(buffer, s)
    ensures var o := Walk(buffer, cycleSize, s, n);
      && (o.Moved? ==> ValidState(buffer, o.state) && o.state.offset >= s.offset)
      && (o.Corrupt? ==> o.state.offset > |buffer|)
    decreases n
  {
    if n > 0 {
      match NextState(buffer, cycleSize, s)
      case Moved(t) => WalkForward(buffer, cycleSize, t, n - 1);
      case _ =>
    }
  }

  class TraceBinaryMemoryReader {
    const buffer: seq<byte>
    const cycleSize: seq<byte> -> nat
    var offset: nat
    var cycle: Option<seq<byte>>

    function State(): ReaderState
      reads this
    {
      ReaderState(offset, cycle)
    }

    ghost predicate Valid()
      reads this
    {
      ValidState(buffer, State())
    }

    constructor Parsed(buffer: seq<byte>, cycleSize: seq<byte> -> nat)
      requires |buffer| >= HeaderSize
      ensures Valid() && this.buffer == buffer && this.cycleSize == cycleSize
      ensures State() == ReaderState(0, Some(buffer))
    {
      this.buffer, this.cycleSize := buffer, cycleSize;
      offset := 0;
      cycle := Some(buffer);
    }

    /** Opening checks that the buffer holds at least one header and then
        parses the first cycle at offset 0. */
    static method Open(buffer: seq<byte>, cycleSize: seq<byte> -> nat)
      returns (reader: TraceBinaryMemoryReader?, err: Option<TraceError>)
      ensures err.Some? <==> |buffer| < HeaderSize
      ensures err.Some? ==> err.value == DataTooSmall && reader == null
      ensures err.None? ==> reader != null && fresh(reader) && reader.Valid()
      ensures err.None? ==> reader.buffer == buffer && reader.cycleSize == cycleSize
      ensures err.None? ==> reader.State() == ReaderState(0, Some(buffer))
    {
      if |buffer| < HeaderSize {
        return null, Some(DataTooSmall);
      }
      reader := new TraceBinaryMemoryReader.Parsed(buffer, cycleSize);
      err := None;
    }

    function IsEnd(): (r: bool)
      reads this
      ensures Valid() ==> (r <==> cycle.None?)
    {
      offset == |buffer|
    }

    /** Moves past the current cycle; the offset check comes after the
        advance, so a corrupt size leaves the offset past the end. */
    method Next() returns (err: Option<TraceError>)
      requires Valid() && cycle.Some?
      modifies this
      ensures var o := NextState(buffer, cycleSize, old(State()));
        && State() == o.state
        && (err.None? <==> o.Moved?)
        && (err.Some? ==> err.value == OffsetOutOfRange)
        && (o.Moved? ==> Valid())
    {
      offset := offset + cycleSize(cycle.value);
      if !(0 <= offset <= |buffer|) {
        return Some(OffsetOutOfRange);
      }
      if !IsEnd() {
        cycle := Some(buffer[offset..]);
      } else {
        cycle := None;
      }
      err := None;
    }

    /** `count` calls of `Next`, stopping at the first exception.  Asking to
        move past the last cycle would dereference a missing cycle, so the
        count must stay within the cycles left. */
    method NextCycles(count: uint32) returns (err: Option<TraceError>)
      requires Valid() && !Walk(buffer, cycleSize, State(), count).NoCycle?
      modifies this
      ensures var o := Walk(buffer, cycleSize, old(State()), count);
        && State() == o.state
        && (err.None? <==> o.Moved?)
        && (o.Moved? ==> Valid())
    {
      var i: nat := 0;
      while i < count
        invariant i <= count && Valid()
        invariant Walk(buffer, cycleSize, old(State()), count) == Walk(buffer, cycleSize, State(), count - i)
      {
        err := Next();
        if err.Some? {
          return;
        }
        i := i + 1;
      }
      err := None;
    }
  }
}
