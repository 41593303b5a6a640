/** The test runner's configuration split and its command formatting.  A
    test list is a JSON array of objects; the name pattern match (shell-style
    wildcards) is given as `matches`, the operating system's name as
    `osName`, and the file system as a map from paths to the parsed test
    lists. */
module RunRiscvTests {
  import opened Text

  /** The JSON values a `skip` entry can hold; numbers are integers here. */
  datatype Json = JNull | JBool(b: bool) | JInt(i: int) | JString(s: string)

  /** One entry of the test list: its name and its `skip` entry, if any. */
  datatype Config = Config(name: string, skip: Option<Json>)

  /** Python's `v == False` and `v == True`: a number equal to 0 or 1
      compares equal to the boolean. */
  predicate EqualsFalse(v: Json) { v == JBool(false) || v == JInt(0) }
  predicate EqualsTrue(v: Json) { v == JBool(true) || v == JInt(1) }

  predicate IsRunnable(c: Config) { c.skip.None? || EqualsFalse(c.skip.value) }
  predicate IsSkipped(c: Config) { c.skip.Some? && EqualsTrue(c.skip.value) }

  /** The configs whose name matching the pattern is `want`, in order. */
  function ByMatch(configs: seq<Config>, pattern: string, matches: (string, string) -> bool, want: bool): (r: seq<Config>)
    ensures |r| <= |configs|
    ensures forall c :: c in r <==> c in configs && matches(c.name, pattern) == want
  {
    if configs == [] then []
    else (if matches(configs[0].name, pattern) == want then [configs[0]] else [])
         + ByMatch(configs[1..], pattern, matches, want)
  }

  /** Python's `list(filter(p, xs))`. */
  function Filter(p: Config -> bool, xs: seq<Config>): (r: seq<Config>)
    ensures |r| <= |xs|
    ensures forall c :: c in r <==> c in xs && p(c)
  {
    if xs == [] then [] else (if p(xs[0]) then [xs[0]] else []) + Filter(p, xs[1..])
  }

  datatype Partition = Partition(runnable: seq<Config>, skipped: seq<Config>, unmatched: seq<Config>)

  /** Reads the test list at the command line's input path (the path
      argument is not used) and splits it: the matched tests that run, the
      matched tests marked to skip, and the tests the pattern does not
      match.  A missing file is `None`. */
  function ReadConfig(files: map<string, seq<Config>>, inputPath: string, jsonPath: string,
                      nameFilter: string, matches: (string, string) -> bool): Option<Partition>
  {
    if inputPath !in files then None
    else
      var configs := files[inputPath];
      var matched := ByMatch(configs, nameFilter, matches, true);
      Some(Partition(Filter(IsRunnable, matched), Filter(IsSkipped, matched),
                     ByMatch(configs, nameFilter, matches, false)))
  }

  /** The list read does not depend on the path argument. */
  lemma ReadConfigIgnoresPath(files: map<string, seq<Config>>, inputPath: string, a: string, b: string,
                              nameFilter: string, matches: (string, string) -> bool)
    ensures ReadConfig(files, inputPath, a, nameFilter, matches) == ReadConfig(files, inputPath, b, nameFilter, matches)
    ensures ReadConfig(files, inputPath, a, nameFilter, matches).None? <==> inputPath !in files
  {
  }

  /** No test both runs and is skipped. */
  lemma RunnableSkippedDisjoint(c: Config)
    ensures !(IsRunnable(c) && IsSkipped(c))
  {
  }

  /** A test is in exactly one of matched and unmatched, and the two
      together have as many entries as the list. */
  lemma {:induction false} MatchComplement(configs: seq<Config>, pattern: string, matches: (string, string) -> bool)
    ensures |ByMatch(configs, pattern, matches, true)| + |ByMatch(configs, pattern, matches, false)| == |configs|
    ensures forall c :: c in configs ==>
      (c in ByMatch(configs, pattern, matches, true) <==> c !in ByMatch(configs, pattern, matches, false))
  {
    if configs != [] {
      MatchComplement(configs[1..], pattern, matches);
    }
  }

  /** A matched test whose `skip` is neither absent, false nor true. */
  predicate Unclassified(c: Config) { !IsRunnable(c) && !IsSkipped(c) }

  /** Every matched test is runnable, skipped or neither, and exactly one
      of them: the three lists add up to the matched tests. */
  lemma {:induction false} ClassesAddUp(matched: seq<Config>)
    ensures |Filter(IsRunnable, matched)| + |Filter(IsSkipped, matched)| + |Filter(Unclassified, matched)| == |matched|
  {
    if matched != [] {
      ClassesAddUp(matched[1..]);
    }
  }

  /** A test with a `skip` entry such as "yes" or 2 is neither run nor
      reported as skipped. */
  lemma UnclassifiedDropped(files: map<string, seq<Config>>, inputPath: string, jsonPath: string,
                            nameFilter: string, matches: (string, string) -> bool, c: Config)
    requires inputPath in files && c in files[inputPath] && matches(c.name, nameFilter)
    requires c.skip.Some? && c.skip.value !in {JBool(false), JInt(0), JBool(true), JInt(1)}
    ensures var p := ReadConfig(files, inputPath, jsonPath, nameFilter, matches).value;
      c !in p.runnable && c !in p.skipped && c !in p.unmatched
  {
  }

  /** The runnable and the skipped tests keep the order of the matched
      tests. */
  lemma {:induction false} FilterKeepsOrder(p: Config -> bool, xs: seq<Config>)
    ensures IsSubsequence(Filter(p, xs), xs)
  {
    if xs != [] {
      FilterKeepsOrder(p, xs[1..]);
      var f := Filter(p, xs);
      if p(xs[0]) {
        assert f[1..] == Filter(p, xs[1..]);
      } else {
        assert f == Filter(p, xs[1..]);
        if f != [] {
          assert p(f[0]) by { assert f[0] in f; }
          assert f[0] != xs[0];
        }
      }
    }
  }

  /** The matched and the unmatched tests keep the order of the test
      list. */
  lemma {:induction false} ByMatchKeepsOrder(configs: seq<Config>, pattern: string, matches: (string, string) -> bool, want: bool)
    ensures IsSubsequence(ByMatch(configs, pattern, matches, want), configs)
  {
    if configs != [] {
      ByMatchKeepsOrder(configs[1..], pattern, matches, want);
      var r := ByMatch(configs, pattern, matches, want);
      if matches(configs[0].name, pattern) == want {
        assert r[1..] == ByMatch(configs[1..], pattern, matches, want);
      } else {
        assert r == ByMatch(configs[1..], pattern, matches, want);
        if r != [] {
          assert matches(r[0].name, pattern) == want by { assert r[0] in r; }
          assert r[0] != configs[0];
        }
      }
    }
  }

  // ---------------------------------------------------------------------------
  // Paths and printed commands

  /** Where a tool is built: the configuration's sub-directory and the
      `.exe` suffix on Windows. */
  function GetBinPath(osName: string, buildType: string, filename: string): string {
    if osName == "nt" then "./build_" + buildType + "/" + buildType + "/" + filename + ".exe"
    else "./build_" + buildType + "/" + filename
  }

  /** The path splits into its directories and the tool's file name. */
  lemma GetBinPathComponents(osName: string, buildType: string, filename: string)
    requires NoChar(buildType, '/') && NoChar(filename, '/')
    ensures Split(GetBinPath(osName, buildType, filename), '/') ==
      if osName == "nt" then [".", "build_" + buildType, buildType, filename + ".exe"]
      else [".", "build_" + buildType, filename]
  {
    var pieces := if osName == "nt" then [".", "build_" + buildType, buildType, filename + ".exe"]
                  else [".", "build_" + buildType, filename];
    assert NoChar("build_" + buildType, '/') by {
      forall i | 0 <= i < |"build_" + buildType| ensures ("build_" + buildType)[i] != '/' {
        if i >= 6 {
          assert ("build_" + buildType)[i] == buildType[i - 6];
        }
      }
    }
    assert NoChar(filename + ".exe", '/') by {
      forall i | 0 <= i < |filename + ".exe"| ensures (filename + ".exe")[i] != '/' {
        if i < |filename| {
          assert (filename + ".exe")[i] == filename[i];
        }
      }
    }
    SplitJoin(pieces, '/');
    assert "./build_" + buildType == "." + "/" + ("build_" + buildType);
    if osName == "nt" {
      assert Join(pieces[2..], "/") == buildType + "/" + (filename + ".exe");
    } else {
      assert Join(pieces[2..], "/") == filename;
    }
    assert Join(pieces, "/") == "." + "/" + ("build_" + buildType) + "/" + Join(pieces[2..], "/");
    var dir := "./build_" + buildType + "/";
    if osName == "nt" {
      assert dir + (buildType + "/" + (filename + ".exe")) == dir + (buildType + "/") + (filename + ".exe");
      assert dir + (buildType + "/") == dir + buildType + "/";
      assert dir + buildType + "/" + (filename + ".exe") == dir + buildType + "/" + filename + ".exe";
    }
  }

  function Quote(x: string): string { "\"" + x + "\"" }

  function PrependSpace(x: string): string { " " + x }

  /** The lines a command is printed as: the message and the program, then
      the arguments, space-separated on Windows and quoted and
      comma-separated elsewhere.  An empty command raises an index error,
      shown as `None`. */
  function PrintCommand(msg: string, cmd: seq<string>, osName: string): Option<seq<string>> {
    if cmd == [] then None
    else
      var first := msg + " " + cmd[0];
      if |cmd| > 1 then
        Some([first, if osName == "nt" then Join(cmd[1..], " ") else Join(Map(Quote, cmd[1..]), ", ")])
      else Some([first])
  }

  /** On Windows the argument line splits back into the arguments when none
      holds a space. */
  lemma PrintCommandWindows(msg: string, cmd: seq<string>)
    requires |cmd| > 1 && forall i :: 1 <= i < |cmd| ==> NoChar(cmd[i], ' ')
    ensures var lines := PrintCommand(msg, cmd, "nt").value;
      |lines| == 2 && Split(lines[1], ' ') == cmd[1..]
  {
    SplitJoin(cmd[1..], ' ');
  }

  /** Elsewhere the argument line splits at its commas into the quoted
      arguments, each after the first preceded by the space of the
      separator, when no argument holds a comma. */
  lemma PrintCommandPosix(msg: string, cmd: seq<string>, osName: string)
    requires osName != "nt"
    requires |cmd| > 1 && forall i :: 1 <= i < |cmd| ==> NoChar(cmd[i], ',')
    ensures var lines := PrintCommand(msg, cmd, osName).value;
      var quoted := Map(Quote, cmd[1..]);
      |lines| == 2 && Split(lines[1], ',') == [quoted[0]] + Map(PrependSpace, quoted[1..])
  {
    var args := cmd[1..];
    var quoted := Map(Quote, args);
    forall i | 0 <= i < |quoted| ensures NoChar(quoted[i], ',') {
      MapIndex(Quote, args, i);
      assert NoChar(args[i], ',');
      forall k | 0 <= k < |Quote(args[i])| ensures Quote(args[i])[k] != ',' {
        if 1 <= k <= |args[i]| {
          assert Quote(args[i])[k] == args[i][k - 1];
        }
      }
    }
    SplitCommaJoin(quoted);
  }

  /** Splitting at the commas a ", " join put in gives back the pieces, each
      after the first with the separator's space in front. */
  lemma {:induction false} SplitCommaJoin(xs: seq<string>)
    requires |xs| >= 1 && forall i :: 0 <= i < |xs| ==> NoChar(xs[i], ',')
    ensures Split(Join(xs, ", "), ',') == [xs[0]] + Map(PrependSpace, xs[1..])
    decreases |xs|
  {
    if |xs| == 1 {
      SplitNoSeparator(xs[0], ',');
      assert xs[1..] == [];
    } else {
      var rest := Join(xs[1..], ", ");
      SplitCommaJoin(xs[1..]);
      assert Join(xs, ", ") == xs[0] + [','] + (" " + rest);
      SplitPrefix(xs[0], ',', " " + rest);
      var tail := Split(rest, ',');
      assert (" " + rest)[1..] == rest;
      assert Split(" " + rest, ',') == [" " + tail[0]] + tail[1..];
      MapCons(PrependSpace, xs[1..]);
    }
  }

  /** Mapping over a non-empty sequence maps its head, then its tail. */
  lemma MapCons(f: string -> string, xs: seq<string>)
    requires xs != []
    ensures Map(f, xs) == [f(xs[0])] + Map(f, xs[1..])
  {
    MapAppend(f, [xs[0]], xs[1..]);
    assert [xs[0]] + xs[1..] == xs;
    assert [xs[0]][..0] == [];
  }
}
