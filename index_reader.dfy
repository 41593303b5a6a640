/** A trace reader over several binary trace files listed in an index: each
    index entry names a binary file and the number of cycles it holds.  The
    reader walks the cycles of one binary after the other, and a skip jumps
    straight to the entry holding the target cycle by summing the recorded
    cycle counts.  The binary trace reader opened on each entry is not part
    of this model: it is represented by its path and the number of cycles it
    has moved past, and `binaryCycles` gives the number of cycles a binary
    holds (the binary reader is at its end after that many steps). */
module IndexReader {
  import opened Text
  import opened CycleBuilder

  datatype Entry = Entry(path: string, cycle: nat)

  /** The binary reader of one entry. */
  datatype Cursor = Cursor(path: string, position: nat)

  datatype IndexState = IndexState(entryIndex: int, cycle: nat, binary: Option<Cursor>)

  // ---------------------------------------------------------------------------
  // The index file

  /** The entries of an index file given as its whitespace-separated words:
      a path, then its cycle count; a missing last count is 0, and an empty
      path ends the list. */
  function ParseEntries(tokens: seq<string>, parseCycle: string -> nat): seq<Entry>
    decreases |tokens|
  {
    if tokens == [] || tokens[0] == "" then []
    else if |tokens| == 1 then [Entry(tokens[0], 0)]
    else [Entry(tokens[0], parseCycle(tokens[1]))] + ParseEntries(tokens[2..], parseCycle)
  }

  /** With no empty word, entry `k` is made of words `2k` and `2k + 1`. */
  lemma {:induction false} ParsePairs(tokens: seq<string>, parseCycle: string -> nat)
    requires forall i :: 0 <= i < |tokens| ==> tokens[i] != ""
    ensures var es := ParseEntries(tokens, parseCycle);
      && |es| == (|tokens| + 1) / 2
      && forall k :: 0 <= k < |es| ==>
           es[k] == Entry(tokens[2 * k], if 2 * k + 1 < |tokens| then parseCycle(tokens[2 * k + 1]) else 0)
    decreases |tokens|
  {
    if |tokens| >= 2 {
      var rest := tokens[2..];
      ParsePairs(rest, parseCycle);
      var es := ParseEntries(tokens, parseCycle);
      forall k | 1 <= k < |es|
        ensures es[k] == Entry(tokens[2 * k], if 2 * k + 1 < |tokens| then parseCycle(tokens[2 * k + 1]) else 0)
      {
        assert es[k] == ParseEntries(rest, parseCycle)[k - 1];
        assert rest[2 * (k - 1)] == tokens[2 * k];
        if 2 * k + 1 < |tokens| {
          assert rest[2 * (k - 1) + 1] == tokens[2 * k + 1];
        }
      }
    }
  }

  /** Parsing stops at the first empty path: entries after it are dropped. */
  lemma {:induction false} ParseStopsAtEmptyPath(tokens: seq<string>, parseCycle: string -> nat, rest: seq<string>)
    requires |tokens| % 2 == 0
    ensures ParseEntries(tokens + [""] + rest, parseCycle) == ParseEntries(tokens, parseCycle)
    decreases |tokens|
  {
    if tokens != [] {
      assert (tokens + [""] + rest)[2..] == tokens[2..] + [""] + rest;
      ParseStopsAtEmptyPath(tokens[2..], parseCycle, rest);
    }
  }

  /** The token loop over the index file. */
  method ParseIndexFile(tokens: seq<string>, parseCycle: string -> nat) returns (entries: seq<Entry>)
    ensures entries == ParseEntries(tokens, parseCycle)
  {
    entries := [];
    var rest := tokens;
    while rest != []
      invariant ParseEntries(tokens, parseCycle) == entries + ParseEntries(rest, parseCycle)
      decreases |rest|
    {
      var path := rest[0];
      rest := rest[1..];
      if path == "" {
        break;
      }
      var cycle := 0;
      if rest != [] {
        cycle := parseCycle(rest[0]);
        rest := rest[1..];
      }
      entries := entries + [Entry(path, cycle)];
    }
  }

  // ---------------------------------------------------------------------------
  // Stepping

  /** The binary of entry `i`, opened only when `i` is in range. */
  function OpenBinary(entries: seq<Entry>, i: int): (r: Option<Cursor>)
    ensures r.Some? <==> 0 <= i < |entries|
    ensures r.Some? ==> r.value == Cursor(entries[i].path, 0)
  {
    if 0 <= i < |entries| then Some(Cursor(entries[i].path, 0)) else None
  }

  predicate IsEndState(entries: seq<Entry>, s: IndexState) {
    s.entryIndex == |entries|
  }

  /** Before the end, the open binary is the current entry's. */
  predicate ValidState(entries: seq<Entry>, s: IndexState) {
    && 0 <= s.entryIndex
    && (s.entryIndex < |entries| ==> s.binary.Some? && s.binary.value.path == entries[s.entryIndex].path)
  }

  /** One cycle on: the binary moves one cycle and the cycle count grows;
      an exhausted binary moves the index to the next entry, whose binary is
      opened if there is one.  There is no step without an open binary. */
  function StepState(entries: seq<Entry>, binaryCycles: string -> nat, s: IndexState): (r: Option<IndexState>)
    ensures r.Some? <==> s.binary.Some?
    ensures r.Some? ==> r.value.cycle == s.cycle + 1
    ensures r.Some? ==> r.value.entryIndex == s.entryIndex || r.value.entryIndex == s.entryIndex + 1
    ensures r.Some? && ValidState(entries, s) ==> ValidState(entries, r.value)
  {
    match s.binary
    case None => None
    case Some(c) =>
      var moved := Cursor(c.path, c.position + 1);
      if moved.position < binaryCycles(moved.path) then Some(IndexState(s.entryIndex, s.cycle + 1, Some(moved)))
      else if s.entryIndex + 1 == |entries| then Some(IndexState(s.entryIndex + 1, s.cycle + 1, Some(moved)))
      else Some(IndexState(s.entryIndex + 1, s.cycle + 1, OpenBinary(entries, s.entryIndex + 1)))
  }

  /** A step from the end, where the last binary is still open, moves the
      index past the end: the reader no longer reports its end, and no
      binary is open any more. */
  lemma StepPastEnd(entries: seq<Entry>, binaryCycles: string -> nat, s: IndexState)
    requires IsEndState(entries, s) && s.binary.Some?
    requires s.binary.value.position + 1 >= binaryCycles(s.binary.value.path)
    ensures var r := StepState(entries, binaryCycles, s);
      r.Some? && !IsEndState(entries, r.value) && r.value.binary.None?
  {
  }

  /** `k` steps; none if some step has no open binary. */
  function Steps(entries: seq<Entry>, binaryCycles: string -> nat, s: IndexState, k: nat): Option<IndexState>
    decreases k
  {
    if k == 0 then Some(s)
    else
      match StepState(entries, binaryCycles, s)
      case None => None
      case Some(t) => Steps(entries, binaryCycles, t, k - 1)
  }

  /** Every step counts one cycle. */
  lemma {:induction false} StepsCount(entries: seq<Entry>, binaryCycles: string -> nat, s: IndexState, k: nat)
    ensures var r := Steps(entries, binaryCycles, s, k);
      r.Some? ==> r.value.cycle == s.cycle + k
    decreases k
  {
    if k > 0 {
      match StepState(entries, binaryCycles, s)
      case None =>
      case Some(t) => StepsCount(entries, binaryCycles, t, k - 1);
    }
  }

  // ---------------------------------------------------------------------------
  // Skipping

  /** The cycles recorded for `entries`. */
  function Sum(entries: seq<Entry>): nat
    decreases |entries|
  {
    if entries == [] then 0 else Sum(entries[..|entries| - 1]) + entries[|entries| - 1].cycle
  }

  /** The search from entry `i` on, `skipped` cycles into the index. */
  function FindFrom(entries: seq<Entry>, i: nat, skipped: nat, target: nat): (r: Option<(nat, nat)>)
    requires i <= |entries| && skipped <= target
    ensures r.Some? ==> r.value.1 <= target
    decreases |entries| - i
  {
    if i == |entries| then None
    else if skipped + entries[i].cycle > target then Some((i, skipped))
    else FindFrom(entries, i + 1, skipped + entries[i].cycle, target)
  }

  lemma SumSnoc(entries: seq<Entry>, i: nat)
    requires i < |entries|
    ensures Sum(entries[..i + 1]) == Sum(entries[..i]) + entries[i].cycle
  {
    assert entries[..i + 1][..i] == entries[..i];
  }

  /** The search finds the first entry whose cycles reach past the target:
      the target lies inside it, and every entry before it ends at or
      before the target.  There is none exactly when all entries together
      end at or before the target. */
  lemma {:induction false} FindFromChoice(entries: seq<Entry>, i: nat, target: nat)
    requires i <= |entries| && Sum(entries[..i]) <= target
    ensures var r := FindFrom(entries, i, Sum(entries[..i]), target);
      && (r.None? <==> Sum(entries) <= target)
      && (r.Some? ==>
            var (j, skipped) := r.value;
            && i <= j < |entries|
            && skipped == Sum(entries[..j])
            && skipped <= target < skipped + entries[j].cycle
            && forall m :: i < m <= j ==> Sum(entries[..m]) <= target)
    decreases |entries| - i
  {
    if i == |entries| {
      assert entries[..i] == entries;
    } else {
      SumSnoc(entries, i);
      if Sum(entries[..i]) + entries[i].cycle <= target {
        FindFromChoice(entries, i + 1, target);
      } else {
        SumPrefixAtMost(entries, i + 1);
      }
    }
  }

  /** Prefix sums grow with the prefix. */
  lemma {:induction false} SumPrefixAtMost(entries: seq<Entry>, i: nat)
    requires i <= |entries|
    ensures Sum(entries[..i]) <= Sum(entries)
    decreases |entries| - i
  {
    if i == |entries| {
      assert entries[..i] == entries;
    } else {
      SumSnoc(entries, i);
      SumPrefixAtMost(entries, i + 1);
    }
  }

  datatype SkipOutcome = Skipped(state: IndexState) | NotFound | NoBinary

  /** A skip of `count` cycles: find the entry holding the target cycle,
      open it at the cycles of the entries before it, and step to the
      target one cycle at a time. */
  function Skip(entries: seq<Entry>, binaryCycles: string -> nat, s: IndexState, count: nat): SkipOutcome {
    var target := s.cycle + count;
    match FindFrom(entries, 0, 0, target)
    case None => NotFound
    case Some((i, skipped)) =>
      match Steps(entries, binaryCycles, IndexState(i, skipped, OpenBinary(entries, i)), target - skipped)
      case None => NoBinary
      case Some(t) => Skipped(t)
  }

  /** A skip fails exactly when the index records no cycle past the target;
      a skip that completes lands on the target cycle. */
  lemma SkipTarget(entries: seq<Entry>, binaryCycles: string -> nat, s: IndexState, count: nat)
    ensures var o := Skip(entries, binaryCycles, s, count);
      && (o.NotFound? <==> Sum(entries) <= s.cycle + count)
      && (o.Skipped? ==> o.state.cycle == s.cycle + count)
  {
    var target := s.cycle + count;
    assert entries[..0] == [];
    FindFromChoice(entries, 0, target);
    var r := FindFrom(entries, 0, 0, target);
    if r.Some? {
      var (i, skipped) := r.value;
      StepsCount(entries, binaryCycles, IndexState(i, skipped, OpenBinary(entries, i)), target - skipped);
    }
  }

  // ---------------------------------------------------------------------------
  // The reader

  class TraceIndexReader {
    const binaryCycles: string -> nat
    var entries: seq<Entry>
    var entryIndex: int
    var cycle: nat
    var binary: Option<Cursor>

    function State(): IndexState
      reads this
    {
      IndexState(entryIndex, cycle, binary)
    }

    ghost predicate Valid()
      reads this
    {
      ValidState(entries, State())
    }

    /** Reads the index and opens the first entry's binary. */
    constructor (tokens: seq<string>, parseCycle: string -> nat, binaryCycles: string -> nat)
      ensures Valid() && this.binaryCycles == binaryCycles
      ensures entries == ParseEntries(tokens, parseCycle)
      ensures State() == IndexState(0, 0, OpenBinary(entries, 0))
    {
      this.binaryCycles := binaryCycles;
      entryIndex, cycle, binary := 0, 0, None;
      entries := [];
      new;
      entries := ParseIndexFile(tokens, parseCycle);
      UpdateTraceBinary();
    }

    /** Opening fails when the index file cannot be opened (`None`). */
    static method Open(file: Option<seq<string>>, parseCycle: string -> nat, binaryCycles: string -> nat)
      returns (reader: TraceIndexReader?, err: Option<TraceError>)
      ensures err.Some? <==> file.None?
      ensures err.Some? ==> err.value == FileOpenFailure && reader == null
      ensures err.None? ==> reader != null && fresh(reader) && reader.Valid()
      ensures err.None? ==> reader.entries == ParseEntries(file.value, parseCycle)
      ensures err.None? ==> reader.State() == IndexState(0, 0, OpenBinary(reader.entries, 0))
    {
      if file.None? {
        return null, Some(FileOpenFailure);
      }
      reader := new TraceIndexReader(file.value, parseCycle, binaryCycles);
      err := None;
    }

    function IsEnd(): (r: bool)
      reads this
      ensures r <==> IsEndState(entries, State())
    {
      entryIndex == |entries|
    }

    /** Closes the binary and opens the current entry's, if it is in range. */
    method UpdateTraceBinary()
      modifies this`binary
      ensures binary == OpenBinary(entries, entryIndex)
    {
      if 0 <= entryIndex < |entries| {
        binary := Some(Cursor(entries[entryIndex].path, 0));
      } else {
        binary := None;
      }
    }

    /** One cycle on.  The current binary is dereferenced, so one must be
        open. */
    method Next()
      requires binary.Some?
      modifies this`entryIndex, this`cycle, this`binary
      ensures Some(State()) == StepState(entries, binaryCycles, old(State()))
    {
      var c := binary.value;
      binary := Some(Cursor(c.path, c.position + 1));
      cycle := cycle + 1;
      if binary.value.position < binaryCycles(binary.value.path) {
        return;
      }
      entryIndex := entryIndex + 1;
      if entryIndex == |entries| {
        return;
      }
      UpdateTraceBinary();
    }

    /** Skips `count` cycles from the current one.  The steps after the
        jump dereference the open binary, so they must not run out of
        binaries. */
    method NextCycles(count: nat) returns (err: Option<TraceError>)
      requires !Skip(entries, binaryCycles, State(), count).NoBinary?
      modifies this`entryIndex, this`cycle, this`binary
      ensures var o := Skip(entries, binaryCycles, old(State()), count);
        && (o.NotFound? ==> err == Some(SkipFailed) && State() == old(State()))
        && (o.Skipped? ==> err.None? && State() == o.state)
    {
      var target := cycle + count;
      var found: Option<nat> := None;
      var skipped: nat := 0;
      var i: nat := 0;
      while i < |entries|
        invariant i <= |entries| && skipped <= target && found.None?
        invariant FindFrom(entries, 0, 0, target) == FindFrom(entries, i, skipped, target)
      {
        if skipped + entries[i].cycle > target {
          found := Some(i);
          break;
        }
        skipped := skipped + entries[i].cycle;
        i := i + 1;
      }
      if found.None? {
        return Some(SkipFailed);
      }
      entryIndex := found.value;
      cycle := skipped;
      UpdateTraceBinary();
      ghost var start := State();
      var k := skipped;
      while k < target
        invariant skipped <= k <= target
        invariant Steps(entries, binaryCycles, start, target - skipped) == Steps(entries, binaryCycles, State(), target - k)
      {
        Next();
        k := k + 1;
      }
      err := None;
    }
  }
}
