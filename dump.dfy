/** The trace dump tool: it works out XLEN from the trace file's name, skips
    to the first cycle of the requested window and prints every cycle of the
    window that the filter accepts, stopping early at the end of the trace.
    The trace reader is given by its operations on a reader state `S` (a
    step may throw a trace exception, shown as `None`); the filter and the
    printer are given too, and the printed cycles stand for the printer's
    output. */
module Dump {
  import opened Text
  import opened Common

  /** The command line: the trace path and the cycle window. */
  datatype DumpOption = DumpOption(path: string, cycleBegin: int, cycleCount: int, cycleEnd: int)

  /** XLEN from the trace path; `None` is the tool exiting with status 1. */
  function GetXLEN(path: string): (r: Option<XLEN>)
    ensures r.None? <==> !Contains(path, "rv32") && !Contains(path, "rv64")
  {
    if Contains(path, "rv32") then Some(XLEN32)
    else if Contains(path, "rv64") then Some(XLEN64)
    else None
  }

  /** "rv32" anywhere in the path gives XLEN32, whatever else the path
      holds. */
  lemma Rv32PathWins(a: string, b: string)
    ensures GetXLEN(a + "rv32" + b) == Some(XLEN32)
  {
    ContainsInfix(a, "rv32", b);
  }

  /** "rv64" gives XLEN64 when "rv32" does not appear. */
  lemma Rv64Path(a: string, b: string)
    requires !Contains(a + "rv64" + b, "rv32")
    ensures GetXLEN(a + "rv64" + b) == Some(XLEN64)
  {
    ContainsInfix(a, "rv64", b);
  }

  /** The cycles the loop prints from reader state `s` in at most `k` more
      iterations, and whether a trace exception ended it.  The loop stops
      at the end of the trace. */
  function Window<S, C>(isEnd: S -> bool, getCycle: S -> C, next: S -> Option<S>,
                        filter: C -> bool, s: S, k: nat): (seq<C>, bool)
    decreases k
  {
    if k == 0 || isEnd(s) then ([], false)
    else
      var c := getCycle(s);
      var out := if filter(c) then [c] else [];
      match next(s)
      case None => (out, true)
      case Some(t) =>
        var rest := Window(isEnd, getCycle, next, filter, t, k - 1);
        (out + rest.0, rest.1)
  }

  /** The filter that prints every cycle. */
  predicate AcceptAll<C>(c: C) { true }

  /** The cycles of `cs` the filter accepts, in order. */
  function Select<C>(filter: C -> bool, cs: seq<C>): (r: seq<C>)
    ensures |r| <= |cs|
  {
    if cs == [] then [] else (if filter(cs[0]) then [cs[0]] else []) + Select(filter, cs[1..])
  }

  function Min(a: int, b: int): int { if a < b then a else b }

  /** The number of loop iterations: the cycles from `cycleBegin` up to
      `cycleBegin + cycleCount` but not reaching `cycleEnd`. */
  function Iterations(option: DumpOption): (n: nat)
    ensures option.cycleCount >= 0 ==> n <= option.cycleCount
    ensures n > 0 ==> option.cycleBegin + n <= option.cycleEnd
    ensures n == 0 <==> option.cycleCount <= 0 || option.cycleEnd <= option.cycleBegin
  {
    var end := Min(option.cycleBegin + option.cycleCount, option.cycleEnd);
    if end > option.cycleBegin then end - option.cycleBegin else 0
  }

  /** What the tool prints and its exit status: opening the trace and
      working out XLEN come first; then the reader skips to the first cycle
      when it is past 0, and the window is printed. */
  function Dump<S, C>(option: DumpOption, filter: C -> bool, reader: Option<S>,
                      isEnd: S -> bool, getCycle: S -> C, next: S -> Option<S>,
                      skip: (S, nat) -> Option<S>): (seq<C>, int)
  {
    if reader.None? || GetXLEN(option.path).None? then ([], 1)
    else
      var start := if option.cycleBegin > 0 then skip(reader.value, option.cycleBegin) else reader;
      if start.None? then ([], 1)
      else
        var w := Window(isEnd, getCycle, next, filter, start.value, Iterations(option));
        (w.0, if w.1 then 1 else 0)
  }

  /** Every printed cycle passes the filter, and there are no more of them
      than iterations. */
  lemma {:induction false} WindowFiltered<S, C>(isEnd: S -> bool, getCycle: S -> C, next: S -> Option<S>,
                                                filter: C -> bool, s: S, k: nat)
    ensures var w := Window(isEnd, getCycle, next, filter, s, k);
      |w.0| <= k && forall i :: 0 <= i < |w.0| ==> filter(w.0[i])
    decreases k
  {
    if k > 0 && !isEnd(s) {
      match next(s)
      case None =>
      case Some(t) => WindowFiltered(isEnd, getCycle, next, filter, t, k - 1);
    }
  }

  /** Filtering while printing is the same as printing every cycle of the
      window and then keeping those the filter accepts. */
  lemma {:induction false} WindowSelects<S, C>(isEnd: S -> bool, getCycle: S -> C, next: S -> Option<S>,
                                               filter: C -> bool, s: S, k: nat)
    ensures var all := Window(isEnd, getCycle, next, AcceptAll, s, k);
      Window(isEnd, getCycle, next, filter, s, k) == (Select(filter, all.0), all.1)
    decreases k
  {
    if k > 0 && !isEnd(s) {
      var c := getCycle(s);
      match next(s)
      case None =>
        assert [c][1..] == [];
        assert Select(filter, [c]) == (if filter(c) then [c] else []);
      case Some(t) =>
        WindowSelects(isEnd, getCycle, next, filter, t, k - 1);
        var rest := Window(isEnd, getCycle, next, AcceptAll, t, k - 1);
        assert ([c] + rest.0)[1..] == rest.0;
    }
  }

  /** A dump prints only accepted cycles, at most `cycleCount` of them. */
  lemma DumpBound<S, C>(option: DumpOption, filter: C -> bool, reader: Option<S>,
                        isEnd: S -> bool, getCycle: S -> C, next: S -> Option<S>,
                        skip: (S, nat) -> Option<S>)
    ensures var (printed, status) := Dump(option, filter, reader, isEnd, getCycle, next, skip);
      && (status == 0 || status == 1)
      && |printed| <= Iterations(option)
      && (forall i :: 0 <= i < |printed| ==> filter(printed[i]))
  {
    if reader.Some? && GetXLEN(option.path).Some? {
      var start := if option.cycleBegin > 0 then skip(reader.value, option.cycleBegin) else reader;
      if start.Some? {
        WindowFiltered(isEnd, getCycle, next, filter, start.value, Iterations(option));
      }
    }
  }

  /** The printing loop: cycles `begin` up to `end`, stopping at the end of
      the trace or at a trace exception. */
  method PrintWindow<S, C>(isEnd: S -> bool, getCycle: S -> C, next: S -> Option<S>,
                           filter: C -> bool, s0: S, begin: int, end: int)
    returns (printed: seq<C>, failed: bool)
    ensures (printed, failed) == Window(isEnd, getCycle, next, filter, s0, if begin < end then end - begin else 0)
  {
    ghost var total := Window(isEnd, getCycle, next, filter, s0, if begin < end then end - begin else 0);
    var s := s0;
    printed := [];
    var i := begin;
    assert total.0 == printed + total.0;
    while i < end
      invariant begin <= i && (i <= end || i == begin)
      invariant var rest := Window(isEnd, getCycle, next, filter, s, if i < end then end - i else 0);
        total == (printed + rest.0, rest.1)
    {
      if isEnd(s) {
        assert printed + [] == printed;
        return printed, false;
      }
      var c := getCycle(s);
      ghost var out := if filter(c) then [c] else [];
      ghost var before := printed;
      if i >= begin && filter(c) {
        printed := printed + [c];
      }
      assert printed == before + out;
      var moved := next(s);
      if moved.None? {
        return printed, true;
      }
      ghost var rest := Window(isEnd, getCycle, next, filter, moved.value, end - i - 1);
      assert before + (out + rest.0) == printed + rest.0;
      s := moved.value;
      i := i + 1;
    }
    assert printed + [] == printed;
    failed := false;
  }

  /** Opens the trace, skips to the first cycle and prints the window. */
  method PrintTrace<S, C>(option: DumpOption, filter: C -> bool, reader: Option<S>,
                          isEnd: S -> bool, getCycle: S -> C, next: S -> Option<S>,
                          skip: (S, nat) -> Option<S>)
    returns (printed: seq<C>, status: int)
    ensures (printed, status) == Dump(option, filter, reader, isEnd, getCycle, next, skip)
  {
    if reader.None? {
      return [], 1;
    }
    var xlen := GetXLEN(option.path);
    if xlen.None? {
      return [], 1;
    }
    var begin := option.cycleBegin;
    var end := Min(option.cycleBegin + option.cycleCount, option.cycleEnd);
    var s := reader.value;
    if begin > 0 {
      var skipped := skip(s, begin);
      if skipped.None? {
        return [], 1;
      }
      s := skipped.value;
    }
    var failed;
    printed, failed := PrintWindow(isEnd, getCycle, next, filter, s, begin, end);
    status := if failed then 1 else 0;
  }
}
