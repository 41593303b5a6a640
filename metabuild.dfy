/** The metabuild compiler: a JSON document with `common` defaults and a list
    of `projects` becomes Ninja build statements.  ModelSim projects get a
    `vsim_setup` and a `vlog` build; riscv-tests projects get an objcopy and a
    BinaryToText build per test binary; every distinct working directory gets
    one `mkdir` build.

    The JSON document arrives already loaded.  A field holds either a string
    or a list of strings; Python's behaviour on the wrong shape is kept: a
    string where a list is iterated yields its characters, a list in an
    f-string renders as its repr (each item between single quotes, as repr
    writes items without quotes, backslashes or control characters), a list
    used as a path or put in a set raises TypeError. */
module Metabuild {
  import opened Text
  import PosixPath
  import RiscvTests

  datatype FieldValue = Str(s: string) | List(items: seq<string>)

  type Fields = map<string, FieldValue>

  /** The loaded document: `None` for a key the top-level object lacks. */
  datatype Document = Document(common: Option<Fields>, projects: Option<seq<Fields>>)

  /** The Python exceptions that abort the compiler. */
  datatype Error = KeyError(key: string) | TypeError(reason: string) | ValueError(reason: string)

  datatype Result<T> = Ok(value: T) | Err(error: Error)

  /** Raised by `posixpath` when handed a list instead of a path. */
  const NotPathLike: Error := TypeError("expected str, bytes or os.PathLike object, not list")

  /** Raised by `set.add` on a list. */
  const Unhashable: Error := TypeError("unhashable type: 'list'")

  /** Raised by `posixpath.relpath` for an empty path. */
  const NoPathSpecified: Error := ValueError("no path specified")

  /** `raise f"Unknown type ..."` raises a string, which Python refuses with
      this TypeError; the formatted message is lost. */
  const NotAnException: Error := TypeError("exceptions must derive from BaseException")

  /** A parsed project.  ModelSim keeps its `work` exactly as written; a
      riscv-tests project works in its (normalised) output directory. */
  datatype Project =
    | ModelSim(name: FieldValue, work: FieldValue, packages: seq<string>, sources: seq<string>)
    | RiscvTestsProject(inputs: string, outputs: string)
  {
    function Work(): FieldValue {
      if ModelSim? then work else Str(outputs)
    }
  }

  /** `str(v)` as an f-string renders it: a string as itself, a list as its
      repr, each item between single quotes as repr writes items free of
      quotes, backslashes and control characters. */
  function Display(v: FieldValue): string {
    match v
    case Str(s) => s
    case List(items) => "[" + Join(seq(|items|, i requires 0 <= i < |items| => "'" + items[i] + "'"), ", ") + "]"
  }

  /** What `for x in v` visits: the characters of a string, the items of a
      list. */
  function Items(v: FieldValue): seq<string> {
    match v
    case Str(s) => seq(|s|, i requires 0 <= i < |s| => [s[i]])
    case List(items) => items
  }

  // ---------------------------------------------------------------------------
  // Parsing

  /** `project[key] if key in project.keys() else common[key]`. */
  function Lookup(project: Fields, common: Fields, key: string): Result<FieldValue> {
    if key in project then Ok(project[key])
    else if key in common then Ok(common[key])
    else Err(KeyError(key))
  }

  /** `_normalize_path(root, path)`. */
  function NormalizePath(root: string, path: string): (r: string)
    ensures r != ""
  {
    PosixPath.NormPath(PosixPath.Join(root, path))
  }

  /** An absolute path ignores the document directory. */
  lemma NormalizeAbsolute(root: string, path: string)
    requires StartsWith(path, "/")
    ensures NormalizePath(root, path) == PosixPath.NormPath(path)
  {
    PosixPath.JoinAbsolute(root, path);
  }

  /** Normalising an already normalised absolute path changes nothing. */
  lemma NormalizeIdempotent(root: string, path: string)
    requires StartsWith(NormalizePath(root, path), "/")
    ensures NormalizePath(root, NormalizePath(root, path)) == NormalizePath(root, path)
  {
    var once := NormalizePath(root, path);
    PosixPath.JoinAbsolute(root, once);
    PosixPath.NormPathIdempotent(PosixPath.Join(root, path));
  }

  function Normalized(root: string, items: seq<string>): seq<string> {
    Map(x => NormalizePath(root, x), items)
  }

  lemma NormalizedAppend(root: string, xs: seq<string>, ys: seq<string>)
    ensures Normalized(root, xs + ys) == Normalized(root, xs) + Normalized(root, ys)
  {
    MapAppend(x => NormalizePath(root, x), xs, ys);
  }

  /** Normalised paths are never empty. */
  lemma NormalizedNonEmpty(root: string, xs: seq<string>)
    ensures forall i :: 0 <= i < |xs| ==> Normalized(root, xs)[i] != ""
  {
    forall i | 0 <= i < |xs| ensures Normalized(root, xs)[i] != "" {
      MapIndex(x => NormalizePath(root, x), xs, i);
    }
  }

  /** The items of field `key` of one dictionary, none when it is absent. */
  function FieldItems(fields: Fields, key: string): seq<string> {
    if key in fields then Items(fields[key]) else []
  }

  /** The items of list field `key`, `common`'s first. */
  function ListField(common: Fields, project: Fields, key: string): seq<string> {
    FieldItems(common, key) + FieldItems(project, key)
  }

  /** What `_parse_metabuild_json_modelsim` returns or raises. */
  function ModelSimOf(path: string, common: Fields, project: Fields): Result<Project> {
    var dir := PosixPath.DirName(path);
    match Lookup(project, common, "name")
    case Err(e) => Err(e)
    case Ok(name) =>
      match Lookup(project, common, "work")
      case Err(e) => Err(e)
      case Ok(work) =>
        Ok(ModelSim(name, work,
                    Normalized(dir, ListField(common, project, "packages")),
                    Normalized(dir, ListField(common, project, "sources"))))
  }

  /** `_normalize_path` on a field value: a list is not a path. */
  function NormalizeField(root: string, v: FieldValue): Result<string> {
    match v
    case Str(s) => Ok(NormalizePath(root, s))
    case List(_) => Err(NotPathLike)
  }

  /** `_parse_metabuild_json_riscv_tests`: both fields looked up, then both
      normalised, `inputs` first. */
  function ParseRiscvTests(path: string, common: Fields, project: Fields): (r: Result<Project>)
    ensures r.Ok? ==> r.value.RiscvTestsProject?
  {
    var dir := PosixPath.DirName(path);
    match Lookup(project, common, "inputs")
    case Err(e) => Err(e)
    case Ok(inputs) =>
      match Lookup(project, common, "outputs")
      case Err(e) => Err(e)
      case Ok(outputs) =>
        match NormalizeField(dir, inputs)
        case Err(e) => Err(e)
        case Ok(i) =>
          match NormalizeField(dir, outputs)
          case Err(e) => Err(e)
          case Ok(o) => Ok(RiscvTestsProject(i, o))
  }

  /** One entry of `projects`: its `type` decides the parser; anything but
      the two known types aborts. */
  function ProjectOf(path: string, common: Fields, project: Fields): Result<Project> {
    match Lookup(project, common, "type")
    case Err(e) => Err(e)
    case Ok(t) =>
      if t == Str("modelsim") then ModelSimOf(path, common, project)
      else if t == Str("riscv_tests") then ParseRiscvTests(path, common, project)
      else Err(NotAnException)
  }

  /** The values of `f` over `xs` in order, or the first error: what a loop
      that appends `f(x)` computes when exceptions propagate. */
  function Collect<T, U>(f: T -> Result<U>, xs: seq<T>): Result<seq<U>>
    decreases |xs|
  {
    if xs == [] then Ok([])
    else
      match Collect(f, xs[..|xs| - 1])
      case Err(e) => Err(e)
      case Ok(done) =>
        match f(xs[|xs| - 1])
        case Err(e) => Err(e)
        case Ok(y) => Ok(done + [y])
  }

  /** One more step of the loop over a prefix of `xs`. */
  lemma CollectStep<T, U>(f: T -> Result<U>, xs: seq<T>, i: nat)
    requires i < |xs|
    ensures Collect(f, xs[..i + 1]) ==
              match Collect(f, xs[..i])
              case Err(e) => Err(e)
              case Ok(done) =>
                match f(xs[i])
                case Err(e) => Err(e)
                case Ok(y) => Ok(done + [y])
  {
    assert xs[..i + 1][..i] == xs[..i];
  }

  /** The loop succeeds exactly when every step does, and then collects one
      value per element, in order. */
  lemma {:induction false} CollectOk<T, U>(f: T -> Result<U>, xs: seq<T>)
    ensures Collect(f, xs).Ok? <==> forall i :: 0 <= i < |xs| ==> f(xs[i]).Ok?
    ensures Collect(f, xs).Ok? ==>
              |Collect(f, xs).value| == |xs| &&
              forall i :: 0 <= i < |xs| ==> f(xs[i]) == Ok(Collect(f, xs).value[i])
    decreases |xs|
  {
    if xs != [] {
      var init := xs[..|xs| - 1];
      CollectOk(f, init);
      assert forall i :: 0 <= i < |init| ==> xs[i] == init[i];
    }
  }

  /** Otherwise the loop stops at the first failing element with its
      error. */
  lemma {:induction false} CollectErr<T, U>(f: T -> Result<U>, xs: seq<T>)
    requires Collect(f, xs).Err?
    ensures exists k :: 0 <= k < |xs| && f(xs[k]) == Err(Collect(f, xs).error) &&
                        forall i :: 0 <= i < k ==> f(xs[i]).Ok?
    decreases |xs|
  {
    var init := xs[..|xs| - 1];
    assert forall i :: 0 <= i < |init| ==> xs[i] == init[i];
    if Collect(f, init).Err? {
      CollectErr(f, init);
      var k :| 0 <= k < |init| && f(init[k]) == Err(Collect(f, init).error) && forall i :: 0 <= i < k ==> f(init[i]).Ok?;
      assert f(xs[k]) == Err(Collect(f, xs).error);
    } else {
      CollectOk(f, init);
      assert f(xs[|xs| - 1]) == Err(Collect(f, xs).error);
    }
  }

  /** Once a prefix has failed, the whole loop fails with the same error. */
  lemma {:induction false} CollectPrefixErr<T, U>(f: T -> Result<U>, xs: seq<T>, k: nat)
    requires k <= |xs| && Collect(f, xs[..k]).Err?
    ensures Collect(f, xs) == Collect(f, xs[..k])
    decreases |xs|
  {
    if k < |xs| {
      var init := xs[..|xs| - 1];
      assert init[..k] == xs[..k];
      CollectPrefixErr(f, init, k);
    } else {
      assert xs[..k] == xs;
    }
  }

  /** The projects in document order, or the first error. */
  function ProjectsOf(path: string, common: Fields, entries: seq<Fields>): Result<seq<Project>> {
    Collect(e => ProjectOf(path, common, e), entries)
  }

  /** What `_parse_metabulid_json` returns or raises. */
  function DocumentOf(path: string, doc: Document): Result<seq<Project>> {
    if doc.common.None? then Err(KeyError("common"))
    else if doc.projects.None? then Err(KeyError("projects"))
    else ProjectsOf(path, doc.common.value, doc.projects.value)
  }

  /** Appends the normalised `items` to `acc`, one at a time. */
  method AppendNormalized(root: string, acc: seq<string>, items: seq<string>) returns (r: seq<string>)
    ensures r == acc + Normalized(root, items)
  {
    r := acc;
    for i := 0 to |items|
      invariant r == acc + Normalized(root, items[..i])
    {
      assert items[..i + 1][..i] == items[..i];
      r := r + [NormalizePath(root, items[i])];
    }
    assert items[..|items|] == items;
  }

  /** One list field of `_parse_metabuild_json_modelsim`: `common`'s items,
      then the project's, each normalised and appended in turn. */
  method ParseListField(dir: string, common: Fields, project: Fields, key: string) returns (paths: seq<string>)
    ensures paths == Normalized(dir, ListField(common, project, key))
  {
    ghost var c := if key in common then Items(common[key]) else [];
    ghost var q := if key in project then Items(project[key]) else [];
    paths := [];
    if key in common {
      paths := AppendNormalized(dir, paths, Items(common[key]));
    }
    assert paths == Normalized(dir, c);
    if key in project {
      paths := AppendNormalized(dir, paths, Items(project[key]));
    }
    assert paths == Normalized(dir, c) + Normalized(dir, q);
    NormalizedAppend(dir, c, q);
  }

  /** `_parse_metabuild_json_modelsim`. */
  method ParseModelSim(path: string, common: Fields, project: Fields) returns (r: Result<Project>)
    ensures r == ModelSimOf(path, common, project)
  {
    var dir := PosixPath.DirName(path);
    var name := Lookup(project, common, "name");
    if name.Err? {
      return Err(name.error);
    }
    var work := Lookup(project, common, "work");
    if work.Err? {
      return Err(work.error);
    }
    var packages := ParseListField(dir, common, project, "packages");
    var sources := ParseListField(dir, common, project, "sources");
    return Ok(ModelSim(name.value, work.value, packages, sources));
  }

  /** The body of the loop over `projects`: look up `type`, then dispatch. */
  method ParseProject(path: string, common: Fields, entry: Fields) returns (r: Result<Project>)
    ensures r == ProjectOf(path, common, entry)
  {
    var t := Lookup(entry, common, "type");
    if t.Err? {
      return Err(t.error);
    }
    if t.value == Str("modelsim") {
      r := ParseModelSim(path, common, entry);
    } else if t.value == Str("riscv_tests") {
      r := ParseRiscvTests(path, common, entry);
    } else {
      r := Err(NotAnException);
    }
  }

  /** `_parse_metabulid_json` on a loaded document. */
  method ParseDocument(path: string, doc: Document) returns (r: Result<seq<Project>>)
    ensures r == DocumentOf(path, doc)
  {
    if doc.common.None? {
      return Err(KeyError("common"));
    }
    var common := doc.common.value;
    var projects: seq<Project> := [];
    if doc.projects.None? {
      return Err(KeyError("projects"));
    }
    var entries := doc.projects.value;
    ghost var f := e => ProjectOf(path, common, e);
    for i := 0 to |entries|
      invariant Collect(f, entries[..i]) == Ok(projects)
    {
      CollectStep(f, entries, i);
      var p := ParseProject(path, common, entries[i]);
      assert f(entries[i]) == p;
      if p.Err? {
        CollectPrefixErr(f, entries, i + 1);
        return Err(p.error);
      }
      projects := projects + [p.value];
    }
    assert entries[..|entries|] == entries;
    return Ok(projects);
  }

  /** A ModelSim entry fails with KeyError for the first of `name` and `work`
      that neither the entry nor `common` has, and parses otherwise. */
  lemma ModelSimKeyErrors(path: string, common: Fields, project: Fields)
    ensures "name" !in project && "name" !in common ==> ModelSimOf(path, common, project) == Err(KeyError("name"))
    ensures ("name" in project || "name" in common) && "work" !in project && "work" !in common ==>
              ModelSimOf(path, common, project) == Err(KeyError("work"))
    ensures ("name" in project || "name" in common) && ("work" in project || "work" in common) ==>
              ModelSimOf(path, common, project).Ok?
  {
  }

  /** The scalar fields of a ModelSim project come from the entry, else from
      `common`; `work` is kept verbatim. */
  lemma ModelSimScalars(path: string, common: Fields, project: Fields)
    requires ModelSimOf(path, common, project).Ok?
    ensures var p := ModelSimOf(path, common, project).value;
            && p.name == (if "name" in project then project["name"] else common["name"])
            && p.work == (if "work" in project then project["work"] else common["work"])
  {
  }

  /** Each list is normalised item by item, in order, duplicates kept. */
  lemma NormalizedItems(root: string, xs: seq<string>)
    ensures |Normalized(root, xs)| == |xs|
    ensures forall i :: 0 <= i < |xs| ==> Normalized(root, xs)[i] == NormalizePath(root, xs[i])
  {
    forall i | 0 <= i < |xs| ensures Normalized(root, xs)[i] == NormalizePath(root, xs[i]) {
      MapIndex(x => NormalizePath(root, x), xs, i);
    }
  }

  /** `packages` are `common`'s items followed by the entry's, each
      normalised against the document directory, and `sources` likewise. */
  lemma ModelSimPackages(path: string, common: Fields, project: Fields)
    requires ModelSimOf(path, common, project).Ok?
    ensures var p := ModelSimOf(path, common, project).value;
            var dir := PosixPath.DirName(path);
            && p.packages == Normalized(dir, FieldItems(common, "packages")) + Normalized(dir, FieldItems(project, "packages"))
            && p.sources == Normalized(dir, FieldItems(common, "sources")) + Normalized(dir, FieldItems(project, "sources"))
  {
    var dir := PosixPath.DirName(path);
    ModelSimLists(path, common, project);
    NormalizedAppend(dir, FieldItems(common, "packages"), FieldItems(project, "packages"));
    NormalizedAppend(dir, FieldItems(common, "sources"), FieldItems(project, "sources"));
  }

  lemma ModelSimLists(path: string, common: Fields, project: Fields)
    requires ModelSimOf(path, common, project).Ok?
    ensures var p := ModelSimOf(path, common, project).value;
            var dir := PosixPath.DirName(path);
            && p.packages == Normalized(dir, FieldItems(common, "packages") + FieldItems(project, "packages"))
            && p.sources == Normalized(dir, FieldItems(common, "sources") + FieldItems(project, "sources"))
  {
  }

  /** A riscv-tests project works in its normalised output directory. */
  lemma RiscvTestsWork(path: string, common: Fields, project: Fields)
    requires ParseRiscvTests(path, common, project).Ok?
    ensures var p := ParseRiscvTests(path, common, project).value;
            var out := if "outputs" in project then project["outputs"] else common["outputs"];
            out.Str? && p.Work() == Str(NormalizePath(PosixPath.DirName(path), out.s))
  {
  }

  /** The document parses exactly when every entry parses, and then yields
      one project per entry in document order. */
  lemma ProjectsOfOk(path: string, common: Fields, entries: seq<Fields>)
    ensures ProjectsOf(path, common, entries).Ok? <==> forall i :: 0 <= i < |entries| ==> ProjectOf(path, common, entries[i]).Ok?
    ensures ProjectsOf(path, common, entries).Ok? ==>
              |ProjectsOf(path, common, entries).value| == |entries| &&
              forall i :: 0 <= i < |entries| ==> ProjectOf(path, common, entries[i]) == Ok(ProjectsOf(path, common, entries).value[i])
  {
    CollectOk(e => ProjectOf(path, common, e), entries);
  }

  /** An entry of unknown type aborts the whole document: no project list is
      returned. */
  lemma UnknownTypeAborts(path: string, common: Fields, entries: seq<Fields>, k: nat)
    requires k < |entries|
    requires Lookup(entries[k], common, "type").Ok?
    requires Lookup(entries[k], common, "type").value !in {Str("modelsim"), Str("riscv_tests")}
    ensures ProjectsOf(path, common, entries).Err?
  {
    ProjectsOfOk(path, common, entries);
  }

  // ---------------------------------------------------------------------------
  // Ninja text

  /** Ninja's line continuation: `$` followed by a newline is dropped
      together with the leading spaces of the next line; other `$` escapes
      are kept for the later stages of the lexer. */
  function NinjaUnfold(s: string): string
    decreases |s|
  {
    if |s| >= 2 && s[0] == '$' && s[1] == '\n' then NinjaUnfold(SkipSpaces(s[2..]))
    else if |s| >= 2 && s[0] == '$' then s[..2] + NinjaUnfold(s[2..])
    else if s == [] then []
    else [s[0]] + NinjaUnfold(s[1..])
  }

  function SkipSpaces(s: string): (r: string)
    ensures |r| <= |s|
  {
    if s != [] && s[0] == ' ' then SkipSpaces(s[1..]) else s
  }

  /** A word Ninja reads back unchanged: no `$`, not starting with a space. */
  predicate PlainWord(w: string) {
    w != [] && w[0] != ' ' && NoChar(w, '$')
  }

  lemma {:induction false} UnfoldPlain(a: string, b: string)
    requires NoChar(a, '$')
    ensures NinjaUnfold(a + b) == a + NinjaUnfold(b)
    decreases |a|
  {
    if a != [] {
      assert (a + b)[1..] == a[1..] + b;
      UnfoldPlain(a[1..], b);
    } else {
      assert a + b == b;
    }
  }

  lemma {:induction false} SkipIndent(n: nat, w: string)
    requires w == [] || w[0] != ' '
    ensures SkipSpaces(Repeat(' ', n) + w) == w
  {
    if n > 0 {
      assert (Repeat(' ', n) + w)[1..] == Repeat(' ', n - 1) + w;
      SkipIndent(n - 1, w);
    } else {
      assert Repeat(' ', n) + w == w;
    }
  }

  /** A `$` at the end of a line joins the next line, its indentation
      dropped. */
  lemma ContinueLine(a: string, n: nat, b: string)
    requires NoChar(a, '$') && (b == [] || b[0] != ' ')
    ensures NinjaUnfold(a + ("$\n" + Repeat(' ', n)) + b) == a + NinjaUnfold(b)
  {
    var tail := Repeat(' ', n) + b;
    var rest := "$\n" + tail;
    assert a + ("$\n" + Repeat(' ', n)) + b == a + rest;
    UnfoldPlain(a, rest);
    assert |rest| >= 2 && rest[0] == '$' && rest[1] == '\n' && rest[2..] == tail;
    SkipIndent(n, b);
    assert NinjaUnfold(rest) == NinjaUnfold(SkipSpaces(tail));
  }

  /** A list written one word per continued line reads back as the words
      separated by single spaces. */
  lemma {:induction false} UnfoldContinuedList(ws: seq<string>, n: nat)
    requires forall i :: 0 <= i < |ws| ==> PlainWord(ws[i])
    ensures NinjaUnfold(Join(ws, " $\n" + Repeat(' ', n))) == Join(ws, " ")
    decreases |ws|
  {
    var sep := " $\n" + Repeat(' ', n);
    if |ws| == 1 {
      UnfoldPlain(ws[0], []);
      assert ws[0] + [] == ws[0];
    } else if |ws| > 1 {
      var rest := Join(ws[1..], sep);
      UnfoldContinuedList(ws[1..], n);
      assert rest != [] && rest[0] == ws[1][0];
      AppendAssoc(ws[0], sep, rest);
      AppendAssoc(" $\n", Repeat(' ', n), rest);
      assert " $\n" == " " + "$\n";
      AppendAssoc(" ", "$\n", Repeat(' ', n) + rest);
      assert Join(ws, sep) == ws[0] + (" " + ("$\n" + (Repeat(' ', n) + rest)));
      UnfoldPlain(ws[0], " " + ("$\n" + (Repeat(' ', n) + rest)));
      UnfoldPlain(" ", "$\n" + (Repeat(' ', n) + rest));
      assert ("$\n" + (Repeat(' ', n) + rest))[2..] == Repeat(' ', n) + rest;
      SkipIndent(n, rest);
    }
  }

  /** The continued dependency list of the `vlog` build: packages, sources,
      then the setup target. */
  function VlogInputs(packages: seq<string>, sources: seq<string>, target: string): string {
    Join(packages, " $\n    ") + " $\n    " + Join(sources, " $\n    ") + " $\n    " + target
  }

  lemma JoinThree(xs: seq<string>, ys: seq<string>, z: string, sep: string)
    requires |xs| > 0 && |ys| > 0
    ensures Join(xs, sep) + sep + Join(ys, sep) + sep + z == Join(xs + ys + [z], sep)
  {
    JoinAppend(xs, ys, sep);
    JoinAppend(xs + ys, [z], sep);
  }

  lemma ContinuationIndent()
    ensures " $\n" + Repeat(' ', 4) == " $\n    "
  {
    assert Repeat(' ', 4) == "    ";
  }

  lemma AllPlain(xs: seq<string>, ys: seq<string>, z: string)
    requires forall i :: 0 <= i < |xs| ==> PlainWord(xs[i])
    requires forall i :: 0 <= i < |ys| ==> PlainWord(ys[i])
    requires PlainWord(z)
    ensures forall i :: 0 <= i < |xs + ys + [z]| ==> PlainWord((xs + ys + [z])[i])
  {
    var all := xs + ys + [z];
    forall i | 0 <= i < |all| ensures PlainWord(all[i]) {
      if i < |xs| {
        assert all[i] == xs[i];
      } else if i < |xs| + |ys| {
        assert all[i] == ys[i - |xs|];
      }
    }
  }

  /** With packages and sources present, Ninja reads the `vlog` inputs as
      packages ++ sources ++ [work/name], space-separated. */
  lemma VlogInputsRead(packages: seq<string>, sources: seq<string>, target: string)
    requires |packages| > 0 && |sources| > 0
    requires forall i :: 0 <= i < |packages| ==> PlainWord(packages[i])
    requires forall i :: 0 <= i < |sources| ==> PlainWord(sources[i])
    requires PlainWord(target)
    ensures NinjaUnfold(VlogInputs(packages, sources, target)) == Join(packages + sources + [target], " ")
  {
    JoinThree(packages, sources, target, " $\n    ");
    ContinuationIndent();
    AllPlain(packages, sources, target);
    UnfoldContinuedList(packages + sources + [target], 4);
  }

  /** The `srcs` variable: every path relative to `work`, or relpath's
      ValueError for an empty one. */
  function RelativeList(paths: seq<string>, work: string, cwd: string): Result<string> {
    if exists i :: 0 <= i < |paths| && paths[i] == "" then Err(NoPathSpecified)
    else Ok(Join(seq(|paths|, i requires 0 <= i < |paths| => PosixPath.RelPath(paths[i], work, cwd).value), " $\n        "))
  }

  /** `ModelSimProject.make_rule`.  A list `work` is rendered through
      `Display`, and `relpath` against it raises as soon as there is a path
      to relativise. */
  function ModelSimRule(name: FieldValue, work: FieldValue, packages: seq<string>, sources: seq<string>, cwd: string): Result<string> {
    if work.List? && |packages| + |sources| > 0 then Err(NotPathLike)
    else
      var w := Display(work);
      var n := Display(name);
      match RelativeList(packages, w, cwd)
      case Err(e) => Err(e)
      case Ok(packagesFromWork) =>
        match RelativeList(sources, w, cwd)
        case Err(e) => Err(e)
        case Ok(sourcesFromWork) =>
          Ok("\nbuild " + w + "/" + n + ": vsim_setup " + w + "\n"
             + "    work = " + w + "\n"
             + "    project = " + n + "\n"
             + "\n"
             + "build " + w + "/" + n + "/_vmake: vlog $\n"
             + "    " + VlogInputs(packages, sources, w + "/" + n) + "\n"
             + "    project = " + n + "\n"
             + "    work = " + w + "\n"
             + "    srcs = $\n"
             + "        " + packagesFromWork + " $\n"
             + "        " + sourcesFromWork + "\n")
  }

  /** The two builds `RiscvTestsProject.make_rule` emits for one test: an
      objcopy of the test's 0x80000000-0x80008000 window, then its text
      dump. */
  function TestRule(inputs: string, outputs: string, name: string): string {
    "\nbuild " + outputs + "/" + name + ".bin: objcopy $\n"
    + "    " + inputs + "/" + name + "\n"
    + "    start = 0x80000000\n"
    + "    end   = 0x80008000\n"
    + "\n"
    + "build " + outputs + "/" + name + ".txt: BinaryToText $\n"
    + "    " + outputs + "/" + name + ".bin\n"
  }

  function TestRules(inputs: string, outputs: string, names: seq<string>): string {
    ConcatMap(n => TestRule(inputs, outputs, n), names)
  }

  /** The rules for a list of tests are the rules for each part, in order. */
  lemma TestRulesAppend(inputs: string, outputs: string, xs: seq<string>, ys: seq<string>)
    ensures TestRules(inputs, outputs, xs + ys) == TestRules(inputs, outputs, xs) + TestRules(inputs, outputs, ys)
  {
    ConcatMapAppend(n => TestRule(inputs, outputs, n), xs, ys);
  }

  lemma TestRulesPrefix(inputs: string, outputs: string, names: seq<string>, i: nat)
    requires i < |names|
    ensures TestRules(inputs, outputs, names[..i + 1]) == TestRules(inputs, outputs, names[..i]) + TestRule(inputs, outputs, names[i])
  {
    ConcatMapPrefix(n => TestRule(inputs, outputs, n), names, i);
  }

  /** `RiscvTestsProject.make_rule`, with the directory listing of `inputs`
      supplied by `listdir`. */
  method MakeRiscvTestsRule(inputs: string, outputs: string, listdir: string -> seq<string>) returns (rule: string)
    ensures rule == TestRules(inputs, outputs, RiscvTests.ListTestNames(listdir(inputs)))
  {
    var names := RiscvTests.ListTestNames(listdir(inputs));
    rule := "";
    for i := 0 to |names|
      invariant rule == TestRules(inputs, outputs, names[..i])
    {
      TestRulesPrefix(inputs, outputs, names, i);
      rule := rule + TestRule(inputs, outputs, names[i]);
    }
    assert names[..|names|] == names;
  }

  /** The rule of one project. */
  function ProjectRule(listdir: string -> seq<string>, cwd: string, p: Project): Result<string> {
    match p
    case ModelSim(name, work, packages, sources) => ModelSimRule(name, work, packages, sources, cwd)
    case RiscvTestsProject(inputs, outputs) => Ok(TestRules(inputs, outputs, RiscvTests.ListTestNames(listdir(inputs))))
  }

  /** `project.make_rule()`. */
  method MakeRule(p: Project, listdir: string -> seq<string>, cwd: string) returns (r: Result<string>)
    ensures r == ProjectRule(listdir, cwd, p)
  {
    match p
    case ModelSim(name, work, packages, sources) =>
      r := ModelSimRule(name, work, packages, sources, cwd);
    case RiscvTestsProject(inputs, outputs) =>
      var rule := MakeRiscvTestsRule(inputs, outputs, listdir);
      r := Ok(rule);
  }

  predicate PathsNonEmpty(p: Project) {
    p.ModelSim? ==> (forall i :: 0 <= i < |p.packages| ==> p.packages[i] != "") &&
                    (forall i :: 0 <= i < |p.sources| ==> p.sources[i] != "")
  }

  /** A project whose working directory is a string and whose paths are not
      empty always has a rule. */
  lemma ProjectRuleOk(listdir: string -> seq<string>, cwd: string, p: Project)
    requires PathsNonEmpty(p) && p.Work().Str?
    ensures ProjectRule(listdir, cwd, p).Ok?
  {
  }

  /** Parsed projects never list an empty path. */
  lemma ParsedPathsNonEmpty(path: string, common: Fields, entries: seq<Fields>)
    requires ProjectsOf(path, common, entries).Ok?
    ensures forall i :: 0 <= i < |ProjectsOf(path, common, entries).value| ==> PathsNonEmpty(ProjectsOf(path, common, entries).value[i])
  {
    ProjectsOfOk(path, common, entries);
    var ps := ProjectsOf(path, common, entries).value;
    forall i | 0 <= i < |ps| ensures PathsNonEmpty(ps[i]) {
      var e := entries[i];
      if ps[i].ModelSim? {
        assert ProjectOf(path, common, e) == Ok(ps[i]);
        assert ModelSimOf(path, common, e) == Ok(ps[i]);
        NormalizedNonEmpty(PosixPath.DirName(path), ListField(common, e, "packages"));
        NormalizedNonEmpty(PosixPath.DirName(path), ListField(common, e, "sources"));
      }
    }
  }

  // ---------------------------------------------------------------------------
  // Working directories and the whole document

  function MkdirRule(path: string): string {
    "\nbuild " + path + ": mkdir\n"
  }

  function MkdirRules(paths: seq<string>): string {
    ConcatMap(MkdirRule, paths)
  }

  predicate NoDuplicates(xs: seq<string>) {
    forall i, j :: 0 <= i < j < |xs| ==> xs[i] != xs[j]
  }

  /** `order` lists every working directory of `projects` exactly once. */
  ghost predicate IsWorkdirOrder(order: seq<string>, projects: seq<Project>) {
    NoDuplicates(order) &&
    forall w :: w in order <==> exists i :: 0 <= i < |projects| && projects[i].Work() == Str(w)
  }

  predicate HasListWork(projects: seq<Project>) {
    exists i :: 0 <= i < |projects| && projects[i].Work().List?
  }

  /** `_generate_make_workdir_rule`: the working directories go through a set,
      so each distinct one gets exactly one mkdir build; the set's iteration
      order is unspecified, and `order` is the one this run chose. */
  method MakeWorkdirRule(projects: seq<Project>) returns (r: Result<string>, ghost order: seq<string>)
    ensures r.Err? <==> HasListWork(projects)
    ensures r.Err? ==> r.error == Unhashable
    ensures r.Ok? ==> IsWorkdirOrder(order, projects) && r.value == MkdirRules(order)
  {
    var workdirs: set<string> := {};
    for i := 0 to |projects|
      invariant !HasListWork(projects[..i])
      invariant forall w :: w in workdirs <==> exists j :: 0 <= j < i && projects[j].Work() == Str(w)
    {
      var work := projects[i].Work();
      if work.List? {
        assert projects[i].Work().List?;
        return Err(Unhashable), [];
      }
      workdirs := workdirs + {work.s};
      assert forall j :: 0 <= j < i ==> projects[..i + 1][j] == projects[..i][j];
    }
    assert projects[..|projects|] == projects;
    var rule := "";
    var rest := workdirs;
    order := [];
    while rest != {}
      invariant NoDuplicates(order)
      invariant forall w :: w in order ==> w in workdirs && w !in rest
      invariant forall w :: w in workdirs ==> w in order || w in rest
      invariant rest <= workdirs
      invariant rule == MkdirRules(order)
      decreases |rest|
    {
      var path :| path in rest;
      rule := rule + MkdirRule(path);
      assert (order + [path])[..|order|] == order;
      assert (order + [path])[|order|] == path;
      order := order + [path];
      rest := rest - {path};
    }
    return Ok(rule), order;
  }

  /** The rules of the projects, concatenated in order, or the first
      error. */
  function ProjectRules(projects: seq<Project>, listdir: string -> seq<string>, cwd: string): Result<string> {
    match Collect(p => ProjectRule(listdir, cwd, p), projects)
    case Err(e) => Err(e)
    case Ok(texts) => Ok(Concat(texts))
  }

  /** With every working directory a string and no empty path, no project
      rule fails. */
  lemma ProjectRulesOk(projects: seq<Project>, listdir: string -> seq<string>, cwd: string)
    requires forall i :: 0 <= i < |projects| ==> PathsNonEmpty(projects[i])
    requires !HasListWork(projects)
    ensures ProjectRules(projects, listdir, cwd).Ok?
  {
    var f := p => ProjectRule(listdir, cwd, p);
    forall i | 0 <= i < |projects| ensures f(projects[i]).Ok? {
      ProjectRuleOk(listdir, cwd, projects[i]);
    }
    CollectOk(f, projects);
  }

  /** What `metabuild(path)` may return or raise for the document `doc`
      read from `path`: the set of working directories may be visited in
      any order. */
  ghost predicate MetabuildOutcome(path: string, doc: Document, listdir: string -> seq<string>, cwd: string, r: Result<string>) {
    match DocumentOf(path, doc)
    case Err(e) => r == Err(e)
    case Ok(projects) =>
      if HasListWork(projects) then r == Err(Unhashable)
      else
        && ProjectRules(projects, listdir, cwd).Ok? && r.Ok?
        && exists order :: IsWorkdirOrder(order, projects) && r.value == MkdirRules(order) + ProjectRules(projects, listdir, cwd).value
  }

  /** The loop `rule += project.make_rule()`, exceptions propagating. */
  method MakeProjectRules(projects: seq<Project>, listdir: string -> seq<string>, cwd: string) returns (r: Result<string>)
    ensures r == ProjectRules(projects, listdir, cwd)
  {
    ghost var f := p => ProjectRule(listdir, cwd, p);
    ghost var texts: seq<string> := [];
    var rule := "";
    for i := 0 to |projects|
      invariant Collect(f, projects[..i]) == Ok(texts)
      invariant rule == Concat(texts)
    {
      CollectStep(f, projects, i);
      var text := MakeRule(projects[i], listdir, cwd);
      assert f(projects[i]) == text;
      if text.Err? {
        CollectPrefixErr(f, projects, i + 1);
        return Err(text.error);
      }
      ConcatSnoc(texts, text.value);
      texts := texts + [text.value];
      rule := rule + text.value;
    }
    assert projects[..|projects|] == projects;
    return Ok(rule);
  }

  /** `metabuild(path)`: parse, then the mkdir builds of the distinct working
      directories, then each project's rule in document order.  `listdir`
      stands for the file system and `cwd` for the current directory. */
  method Metabuild(path: string, doc: Document, listdir: string -> seq<string>, cwd: string)
    returns (r: Result<string>)
    ensures MetabuildOutcome(path, doc, listdir, cwd, r)
  {
    var parsed := ParseDocument(path, doc);
    if parsed.Err? {
      return Err(parsed.error);
    }
    var projects := parsed.value;
    var workdir;
    ghost var order;
    workdir, order := MakeWorkdirRule(projects);
    if workdir.Err? {
      return Err(workdir.error);
    }
    ParsedPathsNonEmpty(path, doc.common.value, doc.projects.value);
    ProjectRulesOk(projects, listdir, cwd);
    var rules := MakeProjectRules(projects, listdir, cwd);
    return Ok(workdir.value + rules.value);
  }
}
