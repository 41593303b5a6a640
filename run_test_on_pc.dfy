/** The older test runner's command builders and its simulator log
    scanner.  Running the commands, the worker pool and the file system are
    outside the model: a log file is given as its lines, or `None` when it
    does not exist. */
module RunTestOnPc {
  import opened Text

  const DefaultTestCycle: nat := 65536
  const CheckIoPath: string := "./rafi-emu/Release/CheckIo.exe"
  const EmulatorPath: string := "./rafi-emu/Release/RafiEmu.exe"
  const BinaryDirPath: string := "./firmware/Outputs"
  const TraceDirPath: string := "./work/Trace"

  /** The trace checker's command: the checker followed by the traces, in
      order. */
  function MakeCheckIoCommand(tracePaths: seq<string>): (cmd: seq<string>)
    ensures |cmd| == |tracePaths| + 1 && cmd[0] == CheckIoPath
    ensures forall i :: 0 <= i < |tracePaths| ==> cmd[i + 1] == tracePaths[i]
  {
    [CheckIoPath] + tracePaths
  }

  /** Where the emulator writes a test's trace. */
  function EmulatorTracePath(testname: string): string {
    TraceDirPath + "/Emulator/" + testname + ".trace.bin"
  }

  /** The emulator's command for one test: a fixed cycle count, the test's
      binary, its trace path, and stopping at host I/O. */
  function MakeEmulatorCommand(testname: string): (cmd: seq<string>)
    ensures |cmd| == 8 && cmd[0] == EmulatorPath
  {
    [ EmulatorPath,
      "--cycle", NatToDecimal(DefaultTestCycle),
      "--binary", BinaryDirPath + "/" + testname + ".bin",
      "--dump-path", EmulatorTracePath(testname),
      "--stop-by-host-io" ]
  }

  /** The traces the checker is run on after the emulator runs: one per
      test, at the path each emulator run dumps to. */
  function CheckedTracePaths(testnames: seq<string>): (paths: seq<string>)
    ensures |paths| == |testnames|
  {
    if testnames == [] then []
    else CheckedTracePaths(testnames[..|testnames| - 1]) + [EmulatorTracePath(testnames[|testnames| - 1])]
  }

  /** Each emulator run dumps its trace exactly where the checker reads it,
      and runs for the default cycle count. */
  lemma {:induction false} EmulatorTraceChecked(testnames: seq<string>, i: nat)
    requires i < |testnames|
    ensures var cmd := MakeEmulatorCommand(testnames[i]);
      && cmd[5] == "--dump-path"
      && MakeCheckIoCommand(CheckedTracePaths(testnames))[i + 1] == cmd[6]
      && cmd[1] == "--cycle" && ParseDecimal(cmd[2]) == Some(DefaultTestCycle)
    decreases |testnames|
  {
    if i < |testnames| - 1 {
      var init := testnames[..|testnames| - 1];
      assert init[i] == testnames[i];
      EmulatorTraceChecked(init, i);
    }
    SignedDecimalRoundTrip(DefaultTestCycle);
  }

  /** The fixed words of the emulator's command hold no space. */
  lemma EmulatorWordsNoSpace()
    ensures NoChar(EmulatorPath, ' ') && NoChar("--cycle", ' ') && NoChar("--binary", ' ')
    ensures NoChar("--dump-path", ' ') && NoChar("--stop-by-host-io", ' ')
    ensures NoChar(BinaryDirPath + "/", ' ') && NoChar(".bin", ' ')
    ensures NoChar(TraceDirPath + "/Emulator/", ' ') && NoChar(".trace.bin", ' ')
  {
  }

  lemma EmulatorArgumentsNoSpace(testname: string)
    requires NoChar(testname, ' ')
    ensures forall i :: 0 <= i < 8 ==> NoChar(MakeEmulatorCommand(testname)[i], ' ')
  {
    var cmd := MakeEmulatorCommand(testname);
    EmulatorWordsNoSpace();
    NoCharAppend(BinaryDirPath + "/", testname, ' ');
    NoCharAppend(BinaryDirPath + "/" + testname, ".bin", ' ');
    NoCharAppend(TraceDirPath + "/Emulator/", testname, ' ');
    NoCharAppend(TraceDirPath + "/Emulator/" + testname, ".trace.bin", ' ');
    assert NoChar(cmd[2], ' ') by {
      assert AllDigits(NatToDecimal(DefaultTestCycle));
    }
  }

  /** The "Run ..." line printed for the emulator splits back into the
      command when the test name has no space in it. */
  lemma EmulatorCommandLine(testname: string)
    requires NoChar(testname, ' ')
    ensures Split(Join(MakeEmulatorCommand(testname), " "), ' ') == MakeEmulatorCommand(testname)
  {
    EmulatorArgumentsNoSpace(testname);
    SplitJoin(MakeEmulatorCommand(testname), ' ');
  }

  /** The simulator's command for one test: its initial memory image, its
      trace path, the cycle count, and memory dumping only for a full dump. */
  function MakeSimulatorCommand(testname: string, cycle: int, allDump: bool): (cmd: seq<string>)
    ensures |cmd| == 19 && cmd[0] == "vsim"
  {
    var initialMemoryPath := BinaryDirPath + "/" + testname + ".txt";
    var dumpPath := TraceDirPath + "/cpu/" + testname + ".trace.bin";
    var enableDumpMemory := if allDump then "1" else "0";
    var project := "SystemTest";
    [ "vsim", project,
      "-c",
      "-lib", project,
      "-do", "run -all",
      "-G", "INITIAL_MEMORY_PATH=\"../../../../" + initialMemoryPath + "\"",
      "-G", "DUMP_PATH=\"../../../../" + dumpPath + "\"",
      "-G", "SIMULATION_CYCLE=" + IntToDecimal(cycle),
      "-G", "ENABLE_DUMP_CSR=0",
      "-G", "ENABLE_DUMP_MEMORY=" + enableDumpMemory,
      "-G", "ENABLE_FINISH=1" ]
  }

  /** Every generic is passed after a "-G"; the cycle count reads back from
      its generic, and memory is dumped exactly for a full dump. */
  lemma SimulatorGenerics(testname: string, cycle: int, allDump: bool)
    ensures var cmd := MakeSimulatorCommand(testname, cycle, allDump);
      && (forall i :: 7 <= i < 19 && i % 2 == 1 ==> cmd[i] == "-G")
      && StartsWith(cmd[12], "SIMULATION_CYCLE=")
      && ParseDecimal(cmd[12][|"SIMULATION_CYCLE="|..]) == Some(cycle)
      && (cmd[16] == "ENABLE_DUMP_MEMORY=1" <==> allDump)
      && StartsWith(cmd[8], "INITIAL_MEMORY_PATH=") && StartsWith(cmd[10], "DUMP_PATH=")
  {
    var cmd := MakeSimulatorCommand(testname, cycle, allDump);
    var prefix := "SIMULATION_CYCLE=";
    assert cmd[12] == prefix + IntToDecimal(cycle);
    assert cmd[12][|prefix|..] == IntToDecimal(cycle);
    SignedDecimalRoundTrip(cycle);
    if !allDump {
      assert cmd[16][|"ENABLE_DUMP_MEMORY="|] == '0';
    }
  }

  // ---------------------------------------------------------------------------
  // The simulator log scanner

  const Keyword: string := "Error:"

  predicate HasError(line: string) {
    Contains(line, Keyword)
  }

  /** Line `i` goes into the error log when it or the line before it holds
      the keyword; the first line never does. */
  predicate Kept(lines: seq<string>, i: int) {
    1 <= i < |lines| && (HasError(lines[i - 1]) || HasError(lines[i]))
  }

  /** The lines among the first `n` that go into the error log, in order. */
  function KeptLines(lines: seq<string>, n: nat): (kept: seq<string>)
    requires n <= |lines|
    ensures |kept| <= n
  {
    if n == 0 then []
    else KeptLines(lines, n - 1) + (if Kept(lines, n - 1) then [lines[n - 1]] else [])
  }

  /** Whether some line holds the keyword. */
  predicate AnyError(lines: seq<string>) {
    exists i :: 0 <= i < |lines| && HasError(lines[i])
  }

  /** The keyword test of every line, in order. */
  function ErrorFlags(lines: seq<string>): (flags: seq<bool>)
    ensures |flags| == |lines| && forall i :: 0 <= i < |lines| ==> flags[i] == HasError(lines[i])
  {
    seq(|lines|, i requires 0 <= i < |lines| => HasError(lines[i]))
  }

  /** Python's `reduce(or_, flags)`: the or of a non-empty list. */
  function ReduceOr(flags: seq<bool>): (r: bool)
    requires flags != []
    ensures r <==> exists i :: 0 <= i < |flags| && flags[i]
  {
    if |flags| == 1 then flags[0] else ReduceOr(flags[..|flags| - 1]) || flags[|flags| - 1]
  }

  /** Or-ing the flags tells whether some line holds the keyword. */
  lemma ReduceOrFlags(lines: seq<string>)
    requires lines != []
    ensures ReduceOr(ErrorFlags(lines)) <==> AnyError(lines)
  {
    var flags := ErrorFlags(lines);
    if ReduceOr(flags) {
      var i :| 0 <= i < |flags| && flags[i];
      assert HasError(lines[i]);
    }
  }

  /** The error flag and the error log of a log file; an empty log makes the
      `reduce` raise, shown as `None`. */
  function SimulatorLogResult(log: Option<seq<string>>): Option<(bool, string)> {
    match log
    case None => Some((false, "File not found."))
    case Some(lines) =>
      if lines == [] then None
      else Some((AnyError(lines), Concat(KeptLines(lines, |lines|))))
  }

  method CheckSimulatorLog(log: Option<seq<string>>) returns (r: Option<(bool, string)>)
    ensures r == SimulatorLogResult(log)
  {
    if log.None? {
      return Some((false, "File not found."));
    }
    var lines := log.value;
    var errorFlags := ErrorFlags(lines);
    var errorLog := "";
    if |lines| > 1 {
      var i := 1;
      assert KeptLines(lines, 1) == [];
      while i < |lines|
        invariant 1 <= i <= |lines|
        invariant errorLog == Concat(KeptLines(lines, i))
      {
        if errorFlags[i - 1] || errorFlags[i] {
          ConcatSnoc(KeptLines(lines, i), lines[i]);
          errorLog := errorLog + lines[i];
        } else {
          assert KeptLines(lines, i) + [] == KeptLines(lines, i);
        }
        i := i + 1;
      }
    } else if |lines| == 1 {
      assert KeptLines(lines, 1) == [];
    }
    if errorFlags == [] {
      return None;
    }
    ReduceOrFlags(lines);
    var error := ReduceOr(errorFlags);
    r := Some((error, errorLog));
  }

  /** A log without the keyword reports no error and an empty error log. */
  lemma {:induction false} NoErrorNoLog(lines: seq<string>, n: nat)
    requires n <= |lines|
    requires forall i :: 0 <= i < |lines| ==> !HasError(lines[i])
    ensures KeptLines(lines, n) == []
  {
    if n > 0 {
      NoErrorNoLog(lines, n - 1);
    }
  }

  /** A line holding the keyword, and the line after it, are both in the
      error log unless the keyword is on the first line. */
  lemma {:induction false} ErrorLineKept(lines: seq<string>, n: nat, i: nat)
    requires n <= |lines| && i < n && Kept(lines, i)
    ensures lines[i] in KeptLines(lines, n)
  {
    if i < n - 1 {
      ErrorLineKept(lines, n - 1, i);
    }
  }

  /** A keyword on the first line of a one-line log is reported as an error
      with nothing in the error log. */
  lemma FirstLineErrorHidden(line: string)
    requires HasError(line)
    ensures SimulatorLogResult(Some([line])) == Some((true, ""))
  {
    assert HasError([line][0]);
    assert AnyError([line]);
  }
}
