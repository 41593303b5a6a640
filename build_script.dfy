/** The top-level build-file writer: a fixed header, three builds per test
    program found in the sources directory, three fixed `mkdir` builds, then
    the output of the metabuild compiler for each input document.  The
    directory listing, the JSON loader and the current directory are
    parameters. */
module MetaBuildScript {
  import opened Text
  import Metabuild

  const SourceDir: string := "./TargetPrograms/Sources"
  const OutDir: string := "./TargetPrograms/Outputs"

  /** The first text written to the build file. */
  const Header: string := "\ninclude Build/Rules.ninja\n"

  /** The working directories the simulators write to. */
  const MkdirPaths: seq<string> := ["./work/Trace/Emulator", "./work/Trace/Processor", "./work/PcLog"]

  const NoOutputMessage: string := "No output file are specified."

  // ---------------------------------------------------------------------------
  // Test names

  /** Python's `s.rstrip(chars)`: drops every trailing character that is in
      `chars`, however many. */
  function RStrip(s: string, chars: set<char>): (r: string)
    ensures r <= s
    ensures r == [] || r[|r| - 1] !in chars
    ensures forall i :: |r| <= i < |s| ==> s[i] in chars
    decreases |s|
  {
    if s != [] && s[|s| - 1] in chars then RStrip(s[..|s| - 1], chars) else s
  }

  /** The three properties of `RStrip` pin its result down: it is the
      shortest prefix after which only stripped characters follow. */
  lemma RStripUnique(s: string, chars: set<char>, t: string)
    requires t <= s
    requires t == [] || t[|t| - 1] !in chars
    requires forall i :: |t| <= i < |s| ==> s[i] in chars
    ensures t == RStrip(s, chars)
  {
    var r := RStrip(s, chars);
    if r != [] {
      // the last kept character is not stripped, so `t` keeps it too
      assert s[|r| - 1] == r[|r| - 1];
    }
    if t != [] {
      assert s[|t| - 1] == t[|t| - 1];
    }
    assert |t| == |r|;
  }

  /** `x.rstrip(".S")` on a file name of the sources directory. */
  function TestName(file: string): string {
    RStrip(file, {'.', 'S'})
  }

  /** `rstrip(".S")` removes a character set, not a suffix: whatever run of
      `.` and `S` ends a name is dropped, so a name that itself ends in `S`
      loses that letter too, while a name ending in anything else (such as a
      lower-case `.s`) is kept whole. */
  lemma TestNameStripsCharacters(stem: string, tail: string)
    requires stem == [] || stem[|stem| - 1] !in {'.', 'S'}
    requires forall i :: 0 <= i < |tail| ==> tail[i] in {'.', 'S'}
    ensures TestName(stem + tail) == stem
    ensures TestName("PASS.S") == "PA"
  {
    var s := stem + tail;
    forall i | |stem| <= i < |s| ensures s[i] in {'.', 'S'} {
      assert s[i] == tail[i - |stem|];
    }
    RStripUnique(s, {'.', 'S'}, stem);
    RStripUnique("PASS.S", {'.', 'S'}, "PA");
  }

  // ---------------------------------------------------------------------------
  // Rules for the test programs

  /** A line continuation followed by the four-space indentation of the
      next line. */
  const Continued: string := "$\n    "

  lemma ContinuedIndent()
    ensures Continued == "$\n" + Repeat(' ', 4)
  {
    assert Repeat(' ', 4) == "    ";
  }

  /** Assembling one test program; the output directory is an order-only
      dependency. */
  function ObjectBuild(name: string): string {
    ObjectTarget(name) + Continued + ObjectSource(name) + Continued + ObjectOrderOnly
  }

  function ObjectTarget(name: string): string { "\nbuild " + OutDir + "/" + name + ".o: as " }
  function ObjectSource(name: string): string { "TargetPrograms/Sources/" + name + ".S " }
  const ObjectOrderOnly: string := "| " + OutDir + "\n"

  /** Extracting the `.text` section over 0x0-0x40. */
  function BinaryBuild(name: string): string {
    "\nbuild " + OutDir + "/" + name + ".bin: objcopy " + Continued
    + OutDir + "/" + name + ".o\n"
    + "    section = .text\n"
    + "    start = 0x00000000\n"
    + "    end = 0x00000040\n"
  }

  /** Dumping the binary as hex text. */
  function TextBuild(name: string): string {
    TextTarget(name) + Continued + TextInput(name)
  }

  function TextTarget(name: string): string { "\nbuild " + OutDir + "/" + name + ".txt: BinaryToText " }
  function TextInput(name: string): string { OutDir + "/" + name + ".bin\n" }

  /** The text one iteration of `make_test_build_rule` appends. */
  function TestBuildRule(name: string): string {
    ObjectBuild(name) + BinaryBuild(name) + TextBuild(name)
  }

  function TestBuildRules(names: seq<string>): string {
    ConcatMap(TestBuildRule, names)
  }

  /** The fixed words around a test name hold no `$`. */
  lemma NoDollarWords()
    ensures NoChar("\nbuild " + OutDir + "/", '$') && NoChar(".o: as ", '$')
    ensures NoChar("TargetPrograms/Sources/", '$') && NoChar(".S ", '$')
    ensures NoChar(ObjectOrderOnly, '$')
    ensures NoChar(".txt: BinaryToText ", '$') && NoChar(OutDir + "/", '$') && NoChar(".bin\n", '$')
  {
  }

  /** A test name without `$` leaves the pieces of its builds without `$`. */
  lemma NoDollarPieces(name: string)
    requires NoChar(name, '$')
    ensures NoChar(ObjectTarget(name), '$') && NoChar(ObjectSource(name), '$')
    ensures NoChar(TextTarget(name), '$') && NoChar(TextInput(name), '$')
  {
    NoDollarWords();
    NoCharAppend("\nbuild " + OutDir + "/", name, '$');
    NoCharAppend("\nbuild " + OutDir + "/" + name, ".o: as ", '$');
    NoCharAppend("TargetPrograms/Sources/", name, '$');
    NoCharAppend("TargetPrograms/Sources/" + name, ".S ", '$');
    NoCharAppend("\nbuild " + OutDir + "/" + name, ".txt: BinaryToText ", '$');
    NoCharAppend(OutDir + "/", name, '$');
    NoCharAppend(OutDir + "/" + name, ".bin\n", '$');
  }

  /** Read as Ninja, the object build is one line: the source file as the
      input and, after `|`, the output directory as an order-only
      dependency. */
  lemma ObjectBuildRead(name: string)
    requires NoChar(name, '$')
    ensures Metabuild.NinjaUnfold(ObjectBuild(name)) == ObjectTarget(name) + ObjectSource(name) + ObjectOrderOnly
  {
    var a, b, c := ObjectTarget(name), ObjectSource(name), ObjectOrderOnly;
    NoDollarPieces(name);
    ContinuedIndent();
    Metabuild.UnfoldPlain(c, []);
    assert c + [] == c;
    Metabuild.ContinueLine(b, 4, c);
    Metabuild.ContinueLine(a, 4, b + Continued + c);
    AppendAssoc(a + Continued, b + Continued, c);
    AppendAssoc(a + Continued, b, Continued);
    AppendAssoc(a, b, c);
  }

  /** Read as Ninja, the text build takes the binary as its only input. */
  lemma TextBuildRead(name: string)
    requires NoChar(name, '$')
    ensures Metabuild.NinjaUnfold(TextBuild(name)) == TextTarget(name) + TextInput(name)
  {
    var a, b := TextTarget(name), TextInput(name);
    NoDollarPieces(name);
    ContinuedIndent();
    Metabuild.UnfoldPlain(b, []);
    assert b + [] == b;
    Metabuild.ContinueLine(a, 4, b);
  }

  /** `make_test_build_rule()` over the listing `files` of the sources
      directory: every name is stripped first, then each contributes its three
      builds, in listing order. */
  method MakeTestBuildRule(files: seq<string>) returns (rule: string)
    ensures rule == TestBuildRules(Map(TestName, files))
  {
    var names := Map(TestName, files);
    rule := "";
    for i := 0 to |names|
      invariant rule == TestBuildRules(names[..i])
    {
      ConcatMapPrefix(TestBuildRule, names, i);
      rule := rule + TestBuildRule(names[i]);
    }
    assert names[..|names|] == names;
  }

  // ---------------------------------------------------------------------------
  // Working directories

  /** `make_mkdir_rule()`: one `mkdir` build per fixed path, in order. */
  method MakeMkdirRule() returns (rule: string)
    ensures rule == Metabuild.MkdirRules(MkdirPaths)
  {
    var paths := MkdirPaths;
    rule := "";
    for i := 0 to |paths|
      invariant rule == Metabuild.MkdirRules(paths[..i])
    {
      ConcatMapPrefix(Metabuild.MkdirRule, paths, i);
      rule := rule + Metabuild.MkdirRule(paths[i]);
    }
    assert paths[..|paths|] == paths;
  }

  /** Exactly three `mkdir` builds, emulator traces, processor traces, then
      the pc logs. */
  lemma MkdirRulesListed()
    ensures Metabuild.MkdirRules(MkdirPaths) ==
            Metabuild.MkdirRule("./work/Trace/Emulator")
            + Metabuild.MkdirRule("./work/Trace/Processor")
            + Metabuild.MkdirRule("./work/PcLog")
  {
    var p := MkdirPaths;
    assert p == [p[0]] + [p[1]] + [p[2]];
    ConcatMapAppend(Metabuild.MkdirRule, [p[0]] + [p[1]], [p[2]]);
    ConcatMapAppend(Metabuild.MkdirRule, [p[0]], [p[1]]);
    ConcatMapSingle(Metabuild.MkdirRule, p[0]);
    ConcatMapSingle(Metabuild.MkdirRule, p[1]);
    ConcatMapSingle(Metabuild.MkdirRule, p[2]);
  }

  // ---------------------------------------------------------------------------
  // Entry point

  /** What running the script leaves behind: no file and an exit status, or
      the text written to the output file and the exception, if any, that
      ended the writing. */
  datatype Outcome =
    | Exit(status: int, message: string)
    | Written(path: string, contents: string, error: Option<Metabuild.Error>)

  /** `outputs` are what the compiler may return for the first
      `|outputs|` input files. */
  ghost predicate Compiled(infiles: seq<string>, load: string -> Metabuild.Document,
                           listdir: string -> seq<string>, cwd: string, outputs: seq<string>) {
    |outputs| <= |infiles| &&
    forall k :: 0 <= k < |outputs| ==>
      Metabuild.MetabuildOutcome(infiles[k], load(infiles[k]), listdir, cwd, Metabuild.Ok(outputs[k]))
  }

  lemma CompiledSnoc(infiles: seq<string>, load: string -> Metabuild.Document,
                     listdir: string -> seq<string>, cwd: string, outputs: seq<string>, text: string)
    requires Compiled(infiles, load, listdir, cwd, outputs) && |outputs| < |infiles|
    requires Metabuild.MetabuildOutcome(infiles[|outputs|], load(infiles[|outputs|]), listdir, cwd, Metabuild.Ok(text))
    ensures Compiled(infiles, load, listdir, cwd, outputs + [text])
  {
    var next := outputs + [text];
    forall k | 0 <= k < |next|
      ensures Metabuild.MetabuildOutcome(infiles[k], load(infiles[k]), listdir, cwd, Metabuild.Ok(next[k]))
    {
      if k < |outputs| {
        assert next[k] == outputs[k];
      }
    }
  }

  /** `metabuild.metabuild(infiles[i])`, the first `i` files compiled to
      `outputs`. */
  method CompileNext(infiles: seq<string>, load: string -> Metabuild.Document, listdir: string -> seq<string>, cwd: string,
                     i: nat, ghost outputs: seq<string>)
    returns (r: Metabuild.Result<string>)
    requires Compiled(infiles, load, listdir, cwd, outputs) && |outputs| == i < |infiles|
    ensures r.Ok? ==> Compiled(infiles, load, listdir, cwd, outputs + [r.value])
    ensures r.Err? ==> Metabuild.MetabuildOutcome(infiles[|outputs|], load(infiles[|outputs|]), listdir, cwd, r)
  {
    var path := infiles[i];
    r := Metabuild.Metabuild(path, load(path), listdir, cwd);
    if r.Ok? {
      CompiledSnoc(infiles, load, listdir, cwd, outputs, r.value);
    }
  }

  /** The loop `f.write(metabuild.metabuild(infile))` over the `-i` files,
      appending to the text `written` already in the file; the first
      exception ends it. */
  method WriteDocuments(written: string, infiles: seq<string>,
                        load: string -> Metabuild.Document, listdir: string -> seq<string>, cwd: string)
    returns (contents: string, error: Option<Metabuild.Error>, ghost outputs: seq<string>)
    ensures Compiled(infiles, load, listdir, cwd, outputs)
    ensures contents == written + Concat(outputs)
    ensures error.None? <==> |outputs| == |infiles|
    ensures error.Some? ==>
              Metabuild.MetabuildOutcome(infiles[|outputs|], load(infiles[|outputs|]), listdir, cwd, Metabuild.Err(error.value))
  {
    contents := written;
    outputs := [];
    for i := 0 to |infiles|
      invariant |outputs| == i
      invariant contents == written + Concat(outputs)
      invariant Compiled(infiles, load, listdir, cwd, outputs)
    {
      var r := CompileNext(infiles, load, listdir, cwd, i, outputs);
      if r.Err? {
        return contents, Some(r.error), outputs;
      }
      ConcatSnocAfter(written, outputs, r.value);
      outputs := outputs + [r.value];
      contents := contents + r.value;
    }
    return contents, None, outputs;
  }

  /** The entry point.  `outfile` is the `-o` option, `infiles` the `-i`
      options in order, `sources` the listing of the sources directory and
      `load` the JSON document at a path.  Nothing is written without `-o`;
      otherwise the header, the test rules and the `mkdir` rules are written,
      then each document's rules, and an exception from the compiler stops
      the writing with what was written so far kept in the file. */
  method Run(outfile: Option<string>, infiles: seq<string>, sources: seq<string>,
             load: string -> Metabuild.Document, listdir: string -> seq<string>, cwd: string)
    returns (out: Outcome, ghost outputs: seq<string>)
    ensures outfile.None? ==> out == Exit(1, NoOutputMessage)
    ensures outfile.Some? ==>
              && out.Written? && out.path == outfile.value
              && Compiled(infiles, load, listdir, cwd, outputs)
              && out.contents == Header + TestBuildRules(Map(TestName, sources)) + Metabuild.MkdirRules(MkdirPaths) + Concat(outputs)
              && (out.error.None? <==> |outputs| == |infiles|)
              && (out.error.Some? ==>
                    Metabuild.MetabuildOutcome(infiles[|outputs|], load(infiles[|outputs|]), listdir, cwd, Metabuild.Err(out.error.value)))
  {
    outputs := [];
    if outfile.None? {
      return Exit(1, NoOutputMessage), outputs;
    }
    var testBuildRule := MakeTestBuildRule(sources);
    var mkdirRule := MakeMkdirRule();
    var contents := Header;
    contents := contents + testBuildRule;
    contents := contents + mkdirRule;
    var error;
    contents, error, outputs := WriteDocuments(contents, infiles, load, listdir, cwd);
    return Written(outfile.value, contents, error), outputs;
  }
}
