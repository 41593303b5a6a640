/** The four `posixpath` functions the metabuild compiler relies on — `join`,
    `normpath`, `dirname` and `relpath` — following CPython's pure-Python
    implementation.  `relpath` consults the current directory; here that is a
    parameter. */
module PosixPath {
  import opened Text

  /** `posixpath.join(a, b)`: an absolute `b` replaces `a`; otherwise the two
      are glued with one slash unless `a` is empty or already ends in one. */
  function Join(a: string, b: string): string {
    if StartsWith(b, "/") then b
    else if a == "" || EndsWith(a, "/") then a + b
    else a + "/" + b
  }

  /** An absolute `b` ignores whatever it is joined to. */
  lemma JoinAbsolute(a: string, b: string)
    requires StartsWith(b, "/")
    ensures Join(a, b) == b
  {
  }

  // ---------------------------------------------------------------------------
  // normpath

  /** How many leading slashes `normpath` keeps: POSIX gives exactly two
      leading slashes an implementation-defined meaning, so "//" survives
      while one, three or more collapse to one. */
  function LeadingSlashes(p: string): (k: nat)
    ensures k <= 2
    ensures k == 0 <==> !StartsWith(p, "/")
  {
    if !StartsWith(p, "/") then 0
    else if StartsWith(p, "//") && !StartsWith(p, "///") then 2
    else 1
  }

  /** One turn of normpath's loop over the components: empty and "." parts
      vanish, ".." cancels the previous real component, and a ".." that cannot
      cancel anything is kept in a relative path and dropped at the root. */
  function Step(acc: seq<string>, comp: string, absolute: bool): seq<string> {
    if comp == "" || comp == "." then acc
    else if comp != ".." || (!absolute && acc == []) || (acc != [] && acc[|acc| - 1] == "..") then acc + [comp]
    else if acc != [] then acc[..|acc| - 1]
    else acc
  }

  /** The whole loop: `Step` over every component, left to right. */
  function Resolve(acc: seq<string>, comps: seq<string>, absolute: bool): seq<string>
    decreases |comps|
  {
    if comps == [] then acc else Resolve(Step(acc, comps[0], absolute), comps[1..], absolute)
  }

  /** `k` slashes followed by the components joined with "/". */
  function Render(k: nat, comps: seq<string>): string {
    Repeat('/', k) + Text.Join(comps, "/")
  }

  /** `posixpath.normpath(p)`. */
  function NormPath(p: string): (r: string)
    ensures r != ""
  {
    if p == "" then "."
    else
      var k := LeadingSlashes(p);
      var r := Render(k, Resolve([], Split(p, '/'), k > 0));
      if r == "" then "." else r
  }

  /** What normpath leaves behind: real, slash-free components; any ".." only
      at the front; and no ".." at all below the root. */
  predicate Clean(xs: seq<string>, absolute: bool) {
    (forall i :: 0 <= i < |xs| ==> xs[i] != "" && xs[i] != "." && NoChar(xs[i], '/')) &&
    (forall i, j :: 0 <= i < j < |xs| && xs[j] == ".." ==> xs[i] == "..") &&
    (absolute ==> forall i :: 0 <= i < |xs| ==> xs[i] != "..")
  }

  lemma StepClean(acc: seq<string>, comp: string, absolute: bool)
    requires Clean(acc, absolute) && NoChar(comp, '/')
    ensures Clean(Step(acc, comp, absolute), absolute)
  {
    if comp == "" || comp == "." {
    } else if comp != ".." {
      var r := acc + [comp];
      assert forall i :: 0 <= i < |acc| ==> r[i] == acc[i];
    } else if !absolute && acc == [] {
    } else if acc != [] && acc[|acc| - 1] == ".." {
      assert forall i :: 0 <= i < |acc| ==> acc[i] == ".." by {
        forall i | 0 <= i < |acc| ensures acc[i] == ".." {
          if i < |acc| - 1 {
            assert acc[|acc| - 1] == "..";
          }
        }
      }
    } else if acc != [] {
      var r := acc[..|acc| - 1];
      assert forall i :: 0 <= i < |r| ==> r[i] == acc[i];
    }
  }

  lemma {:induction false} ResolveClean(acc: seq<string>, comps: seq<string>, absolute: bool)
    requires Clean(acc, absolute)
    requires forall i :: 0 <= i < |comps| ==> NoChar(comps[i], '/')
    ensures Clean(Resolve(acc, comps, absolute), absolute)
    decreases |comps|
  {
    if comps != [] {
      StepClean(acc, comps[0], absolute);
      ResolveClean(Step(acc, comps[0], absolute), comps[1..], absolute);
    }
  }

  /** Resolving already-clean components changes nothing. */
  lemma {:induction false} ResolveCleanIdentity(acc: seq<string>, xs: seq<string>, absolute: bool)
    requires Clean(acc + xs, absolute)
    ensures Resolve(acc, xs, absolute) == acc + xs
    decreases |xs|
  {
    if xs != [] {
      var all := acc + xs;
      assert all[|acc|] == xs[0];
      if xs[0] == ".." {
        assert forall i :: 0 <= i < |acc| ==> all[i] == acc[i];
      }
      assert Step(acc, xs[0], absolute) == acc + [xs[0]];
      assert (acc + [xs[0]]) + xs[1..] == all;
      ResolveCleanIdentity(acc + [xs[0]], xs[1..], absolute);
    }
  }

  lemma {:induction false} ResolveAppend(acc: seq<string>, xs: seq<string>, ys: seq<string>, absolute: bool)
    ensures Resolve(acc, xs + ys, absolute) == Resolve(Resolve(acc, xs, absolute), ys, absolute)
    decreases |xs|
  {
    if xs == [] {
      assert xs + ys == ys;
    } else {
      assert (xs + ys)[1..] == xs[1..] + ys;
      ResolveAppend(Step(acc, xs[0], absolute), xs[1..], ys, absolute);
    }
  }

  lemma JoinHead(xs: seq<string>)
    requires |xs| >= 1 && xs[0] != ""
    ensures Text.Join(xs, "/") != [] && Text.Join(xs, "/")[0] == xs[0][0]
  {
  }

  /** Splitting a rendered path gives one empty piece per leading slash and
      then the components. */
  lemma SplitRender(k: nat, out: seq<string>)
    requires 1 <= k <= 2 && Clean(out, true)
    ensures Split(Render(k, out), '/') == Repeat("", if out == [] then k + 1 else k) + out
  {
    SplitComponents(out);
    SplitSlashes(k, Text.Join(out, "/"));
    RepeatThenRest(k, out);
  }

  /** One empty piece per leading slash. */
  lemma SplitSlashes(k: nat, j: string)
    requires 1 <= k <= 2
    ensures Split(Repeat('/', k) + j, '/') == Repeat("", k) + Split(j, '/')
  {
    SplitLeadingSlash(j);
    if k == 2 {
      assert Repeat('/', k) + j == ['/'] + (['/'] + j);
      SplitLeadingSlash(['/'] + j);
    } else {
      assert Repeat('/', k) + j == ['/'] + j;
    }
  }

  lemma RepeatThenRest(k: nat, out: seq<string>)
    ensures Repeat("", if out == [] then k + 1 else k) + out == Repeat("", k) + (if out == [] then [""] else out)
  {
  }

  /** The components of a path split back out of their join; no components
      leave one empty piece. */
  lemma SplitComponents(out: seq<string>)
    requires Clean(out, true)
    ensures Split(Text.Join(out, "/"), '/') == if out == [] then [""] else out
  {
    if out != [] {
      SplitJoin(out, '/');
    }
  }

  lemma SplitLeadingSlash(s: string)
    ensures Split(['/'] + s, '/') == [""] + Split(s, '/')
  {
    assert (['/'] + s)[1..] == s;
  }

  /** normpath is idempotent: a normalised path is its own normal form. */
  lemma NormPathIdempotent(p: string)
    ensures NormPath(NormPath(p)) == NormPath(p)
  {
    if p != "" {
      var k := LeadingSlashes(p);
      var out := Resolve([], Split(p, '/'), k > 0);
      ResolveClean([], Split(p, '/'), k > 0);
      var q := Render(k, out);
      if q != "" {
        assert NormPath(p) == q;
        NormalFormFixed(k, out);
      } else {
        assert NormPath(p) == ".";
        DotNormal();
      }
    } else {
      DotNormal();
    }
  }

  /** "." is its own normal form. */
  lemma DotNormal()
    ensures NormPath(".") == "."
  {
    SplitNoSeparator(".", '/');
  }

  /** A clean component list rendered with its own slash count normalises to
      itself. */
  lemma NormalFormFixed(k: nat, out: seq<string>)
    requires k <= 2 && Clean(out, k > 0) && Render(k, out) != ""
    ensures NormPath(Render(k, out)) == Render(k, out)
  {
    var q := Render(k, out);
    var j := Text.Join(out, "/");
    if k == 0 {
      assert q == j;
      assert out != [];
      JoinHead(out);
      assert LeadingSlashes(q) == 0;
      SplitJoin(out, '/');
      assert [] + out == out;
      ResolveCleanIdentity([], out, false);
    } else {
      if out != [] {
        JoinHead(out);
      }
      assert j == [] || j[0] != '/';
      if k == 1 {
        assert Repeat('/', 1) == "/";
        assert q == "/" + j;
        assert !StartsWith(q, "//") by {
          if |q| >= 2 {
            assert q[1] == j[0];
          }
        }
      } else {
        assert Repeat('/', 2) == "//";
        assert q == "//" + j;
        assert !StartsWith(q, "///") by {
          if |q| >= 3 {
            assert q[2] == j[0];
          }
        }
      }
      assert LeadingSlashes(q) == k;
      SplitRender(k, out);
      ResolveEmpties(if out == [] then k + 1 else k, out);
    }
  }

  /** Leading empty pieces are skipped. */
  lemma {:induction false} ResolveEmpties(n: nat, xs: seq<string>)
    requires Clean(xs, true)
    ensures Resolve([], Repeat("", n) + xs, true) == xs
  {
    if n == 0 {
      assert Repeat("", n) + xs == xs;
      ResolveCleanIdentity([], xs, true);
      assert [] + xs == xs;
    } else {
      assert (Repeat("", n) + xs)[1..] == Repeat("", n - 1) + xs;
      ResolveEmpties(n - 1, xs);
    }
  }

  // ---------------------------------------------------------------------------
  // dirname

  /** The index just past the last slash, or 0 when there is none (Python's
      `p.rfind('/') + 1`). */
  function AfterLastSlash(p: string): (i: nat)
    ensures i <= |p|
    ensures i > 0 ==> p[i - 1] == '/'
    ensures NoChar(p[i..], '/')
  {
    if p == [] then 0
    else if p[|p| - 1] == '/' then |p|
    else AfterLastSlash(p[..|p| - 1])
  }

  predicate AllSlashes(s: string) {
    forall i :: 0 <= i < |s| ==> s[i] == '/'
  }

  /** Python's `s.rstrip('/')`. */
  function StripTrailingSlashes(s: string): (r: string)
    ensures |r| <= |s| && r == s[..|r|]
    ensures r == [] || r[|r| - 1] != '/'
    ensures AllSlashes(s[|r|..])
  {
    if s != [] && s[|s| - 1] == '/' then
      var r := StripTrailingSlashes(s[..|s| - 1]);
      assert s[|r|..] == s[..|s| - 1][|r|..] + ['/'];
      r
    else s
  }

  /** `posixpath.dirname(p)`: everything before the last slash, with trailing
      slashes removed unless the head is nothing but slashes. */
  function DirName(p: string): string {
    var head := p[..AfterLastSlash(p)];
    if head != "" && !AllSlashes(head) then StripTrailingSlashes(head) else head
  }

  /** The directory of `d/f` is `d`, for a file name `f` and a directory `d`
      that does not end in a slash. */
  lemma DirNameOfJoin(d: string, f: string)
    requires d != "" && d[|d| - 1] != '/' && NoChar(f, '/')
    ensures DirName(Join(d, f)) == d
  {
    var p := d + "/" + f;
    assert !StartsWith(f, "/") by {
      if |f| >= 1 {
        assert f[0] != '/';
      }
    }
    assert Join(d, f) == p;
    LastSlashOfJoin(d + "/", f);
    assert p[..|d| + 1] == d + "/";
    assert !AllSlashes(d + "/") by {
      assert (d + "/")[|d| - 1] != '/';
    }
    assert (d + "/")[..|d|] == d;
  }

  lemma {:induction false} LastSlashOfJoin(h: string, f: string)
    requires h != [] && h[|h| - 1] == '/' && NoChar(f, '/')
    ensures AfterLastSlash(h + f) == |h|
    decreases |f|
  {
    if f == [] {
      assert h + f == h;
    } else {
      assert (h + f)[..|h + f| - 1] == h + f[..|f| - 1];
      LastSlashOfJoin(h, f[..|f| - 1]);
    }
  }

  /** A name with no slash has no directory. */
  lemma DirNameOfBareName(f: string)
    requires NoChar(f, '/')
    ensures DirName(f) == ""
  {
  }

  // ---------------------------------------------------------------------------
  // relpath

  /** `posixpath.abspath(p)` against the current directory `cwd`. */
  function AbsPath(p: string, cwd: string): string {
    NormPath(if StartsWith(p, "/") then p else Join(cwd, p))
  }

  /** `[x for x in xs if x]`. */
  function NonEmpty(xs: seq<string>): (r: seq<string>)
    ensures forall i :: 0 <= i < |r| ==> r[i] != ""
  {
    if xs == [] then []
    else if xs[0] == "" then NonEmpty(xs[1..])
    else [xs[0]] + NonEmpty(xs[1..])
  }

  /** The length of the longest common prefix of two lists (Python's
      `commonprefix` of two component lists). */
  function CommonPrefixLength(a: seq<string>, b: seq<string>): (n: nat)
    ensures n <= |a| && n <= |b| && a[..n] == b[..n]
  {
    if a == [] || b == [] || a[0] != b[0] then 0
    else
      var m := CommonPrefixLength(a[1..], b[1..]);
      assert a[..m + 1] == [a[0]] + a[1..][..m];
      assert b[..m + 1] == [b[0]] + b[1..][..m];
      m + 1
  }

  /** The components of `abspath(p)`. */
  function AbsComponents(p: string, cwd: string): seq<string> {
    NonEmpty(Split(AbsPath(p, cwd), '/'))
  }

  /** The components of `relpath(path, start)`: one ".." per component of
      `start` below the common prefix, then the rest of `path`. */
  function RelComponents(path: string, start: string, cwd: string): seq<string> {
    var s := AbsComponents(start, cwd);
    var p := AbsComponents(path, cwd);
    var i := CommonPrefixLength(s, p);
    Repeat("..", |s| - i) + p[i..]
  }

  /** `posixpath.relpath(path, start)`; an empty `path` is rejected with
      Python's ValueError, here `None`. */
  function RelPath(path: string, start: string, cwd: string): (r: Option<string>)
    ensures r.None? <==> path == ""
  {
    if path == "" then None
    else
      var rel := RelComponents(path, start, cwd);
      Some(if rel == [] then "." else Text.Join(rel, "/"))
  }

  /** normpath of an absolute path leaves clean components below the root. */
  lemma AbsComponentsClean(p: string, cwd: string)
    requires StartsWith(cwd, "/")
    ensures Clean(AbsComponents(p, cwd), true)
  {
    var x := if StartsWith(p, "/") then p else Join(cwd, p);
    assert StartsWith(x, "/") by {
      if !StartsWith(p, "/") {
        assert x[0] == cwd[0];
      }
    }
    var k := LeadingSlashes(x);
    var out := Resolve([], Split(x, '/'), true);
    ResolveClean([], Split(x, '/'), true);
    assert AbsPath(p, cwd) == Render(k, out);
    SplitRender(k, out);
    NonEmptyOfClean(if out == [] then k + 1 else k, out);
  }

  lemma {:induction false} NonEmptyOfClean(n: nat, xs: seq<string>)
    requires Clean(xs, true)
    ensures NonEmpty(Repeat("", n) + xs) == xs
  {
    if n == 0 {
      assert Repeat("", n) + xs == xs;
      NonEmptyIdentity(xs);
    } else {
      assert (Repeat("", n) + xs)[1..] == Repeat("", n - 1) + xs;
      NonEmptyOfClean(n - 1, xs);
    }
  }

  lemma {:induction false} NonEmptyIdentity(xs: seq<string>)
    requires forall i :: 0 <= i < |xs| ==> xs[i] != ""
    ensures NonEmpty(xs) == xs
  {
    if xs != [] {
      NonEmptyIdentity(xs[1..]);
    }
  }

  /** Going up one level at a time from a root-anchored location pops one
      component per "..". */
  lemma {:induction false} ResolveUp(acc: seq<string>, n: nat)
    requires n <= |acc| && Clean(acc, true)
    ensures Resolve(acc, Repeat("..", n), true) == acc[..|acc| - n]
  {
    if n == 0 {
      assert acc[..|acc|] == acc;
    } else {
      assert acc[|acc| - 1] != "..";
      var up := acc[..|acc| - 1];
      assert Step(acc, "..", true) == up;
      assert Repeat("..", n)[1..] == Repeat("..", n - 1);
      assert Clean(up, true) by {
        assert forall i :: 0 <= i < |up| ==> up[i] == acc[i];
      }
      ResolveUp(up, n - 1);
      assert up[..|up| - (n - 1)] == acc[..|acc| - n];
    }
  }

  /** relpath's inverse: resolving its result against the components of
      `start` yields the components of `path` (both taken as absolute paths
      under `cwd`). */
  lemma RelPathResolves(path: string, start: string, cwd: string)
    requires StartsWith(cwd, "/")
    ensures Resolve(AbsComponents(start, cwd), RelComponents(path, start, cwd), true) == AbsComponents(path, cwd)
  {
    var s := AbsComponents(start, cwd);
    var p := AbsComponents(path, cwd);
    AbsComponentsClean(start, cwd);
    AbsComponentsClean(path, cwd);
    ResolveRelative(s, p, CommonPrefixLength(s, p));
  }

  /** Going up from `s` to the shared prefix and then down the rest of `p`
      arrives at `p`. */
  lemma ResolveRelative(s: seq<string>, p: seq<string>, i: nat)
    requires Clean(s, true) && Clean(p, true)
    requires i <= |s| && i <= |p| && s[..i] == p[..i]
    ensures Resolve(s, Repeat("..", |s| - i) + p[i..], true) == p
  {
    var up, shared, rest := Repeat("..", |s| - i), p[..i], p[i..];
    ResolveAppend(s, up, rest, true);
    ResolveUp(s, |s| - i);
    assert |s| - (|s| - i) == i;
    assert shared + rest == p;
    ResolveCleanIdentity(shared, rest, true);
  }
}
