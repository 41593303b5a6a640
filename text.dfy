/** String helpers shared by the build scripts and the disassembly renderers:
    the renderings of printf's `%d`, `%x` and `%02x` and of Python's
    `str.join`, `str.split` and the prefix and suffix tests, each with the
    parser that inverts it. */
module Text {

  /** A byte of a binary file or of a trace buffer. */
  newtype byte = x: int | 0 <= x < 256

  /** The values of a C++ `uint32_t`. */
  type uint32 = x: int | 0 <= x < 0x1_0000_0000

  datatype Option<T> = None | Some(value: T)

  predicate IsDigit(c: char) { '0' <= c <= '9' }

  predicate StartsWith(s: string, prefix: string) {
    |prefix| <= |s| && s[..|prefix|] == prefix
  }

  predicate EndsWith(s: string, suffix: string) {
    |suffix| <= |s| && s[|s| - |suffix|..] == suffix
  }

  /** Python's `sub in s` and C++'s `s.find(sub) != npos`. */
  predicate Contains(s: string, sub: string) {
    StartsWith(s, sub) || (s != [] && Contains(s[1..], sub))
  }

  /** A string contains every string written inside it. */
  lemma {:induction false} ContainsInfix(a: string, sub: string, b: string)
    ensures Contains(a + sub + b, sub)
    decreases |a|
  {
    if a == [] {
      assert (a + sub + b)[..|sub|] == sub;
    } else {
      assert (a + sub + b)[1..] == a[1..] + sub + b;
      ContainsInfix(a[1..], sub, b);
    }
  }

  predicate NoChar(s: string, c: char) {
    forall i :: 0 <= i < |s| ==> s[i] != c
  }

  lemma NoCharAppend(a: string, b: string, c: char)
    requires NoChar(a, c) && NoChar(b, c)
    ensures NoChar(a + b, c)
  {
    forall i | 0 <= i < |a + b| ensures (a + b)[i] != c {
      if i >= |a| {
        assert (a + b)[i] == b[i - |a|];
      }
    }
  }

  lemma AppendAssoc<T>(a: seq<T>, b: seq<T>, c: seq<T>)
    ensures a + (b + c) == a + b + c
  {
  }

  // ---------------------------------------------------------------------------
  // Decimal numbers (printf "%d" and Python's str() of an int)

  function DigitChar(d: nat): (c: char)
    requires d < 10
    ensures IsDigit(c)
  {
    "0123456789"[d]
  }

  function DigitValue(c: char): (d: nat)
    requires IsDigit(c)
    ensures d < 10
  {
    (c as int - '0' as int) as nat
  }

  lemma DigitValueChar(d: nat)
    requires d < 10
    ensures DigitValue(DigitChar(d)) == d
  {
  }

  predicate AllDigits(s: string) {
    forall i :: 0 <= i < |s| ==> IsDigit(s[i])
  }

  /** The shortest decimal spelling of n. */
  function NatToDecimal(n: nat): (s: string)
    ensures 1 <= |s| && AllDigits(s)
    ensures |s| > 1 ==> s[0] != '0'
  {
    if n < 10 then [DigitChar(n)] else NatToDecimal(n / 10) + [DigitChar(n % 10)]
  }

  /** The value of a string of decimal digits. */
  function DecimalValue(s: string): nat
    requires AllDigits(s)
  {
    if s == [] then 0 else DecimalValue(s[..|s| - 1]) * 10 + DigitValue(s[|s| - 1])
  }

  lemma {:induction false} DecimalRoundTrip(n: nat)
    ensures DecimalValue(NatToDecimal(n)) == n
  {
    var s := NatToDecimal(n);
    if n < 10 {
      DigitValueChar(n);
    } else {
      assert s[..|s| - 1] == NatToDecimal(n / 10);
      DecimalRoundTrip(n / 10);
      DigitValueChar(n % 10);
    }
  }

  /** printf's "%d": a minus sign before the magnitude of a negative number. */
  function IntToDecimal(i: int): (s: string)
    ensures 1 <= |s|
    ensures (i < 0) == (s[0] == '-')
  {
    if i < 0 then "-" + NatToDecimal(-i) else NatToDecimal(i)
  }

  function ParseDecimal(s: string): Option<int> {
    if 1 <= |s| && s[0] == '-' && AllDigits(s[1..]) then Some(-(DecimalValue(s[1..]) as int))
    else if AllDigits(s) then Some(DecimalValue(s))
    else None
  }

  lemma SignedDecimalRoundTrip(i: int)
    ensures ParseDecimal(IntToDecimal(i)) == Some(i)
  {
    if i < 0 {
      var m := NatToDecimal(-i);
      var s := "-" + m;
      assert s[1..] == m;
      DecimalRoundTrip(-i);
      assert ParseDecimal(s) == Some(-(DecimalValue(m) as int));
    } else {
      var m := NatToDecimal(i);
      assert m[0] != '-' by { assert IsDigit(m[0]); }
      DecimalRoundTrip(i);
      assert ParseDecimal(m) == Some(DecimalValue(m));
    }
  }

  /** The value a uint32 holds when printf reads it back with "%d": the
      two's-complement reinterpretation as int32. */
  function AsInt32(u: nat): (i: int)
    requires u < 0x1_0000_0000
    ensures -0x8000_0000 <= i < 0x8000_0000
    ensures i % 0x1_0000_0000 == u
  {
    if u < 0x8000_0000 then u else u - 0x1_0000_0000
  }

  /** printf's "%d" applied to a uint32 argument. */
  function Uint32AsDecimal(u: nat): string
    requires u < 0x1_0000_0000
  {
    IntToDecimal(AsInt32(u))
  }

  // ---------------------------------------------------------------------------
  // Hexadecimal numbers (printf "%x" and "%02x", lower case)

  predicate IsHexDigit(c: char) { '0' <= c <= '9' || 'a' <= c <= 'f' }

  function HexChar(d: nat): (c: char)
    requires d < 16
    ensures IsHexDigit(c)
  {
    "0123456789abcdef"[d]
  }

  function HexValue(c: char): (d: nat)
    requires IsHexDigit(c)
    ensures d < 16
  {
    if '0' <= c <= '9' then (c as int - '0' as int) as nat else (c as int - 'a' as int + 10) as nat
  }

  lemma HexValueChar(d: nat)
    requires d < 16
    ensures HexValue(HexChar(d)) == d
  {
  }

  predicate AllHex(s: string) {
    forall i :: 0 <= i < |s| ==> IsHexDigit(s[i])
  }

  /** printf's "%x": the shortest lower-case hexadecimal spelling. */
  function NatToHex(n: nat): (s: string)
    ensures 1 <= |s| && AllHex(s)
  {
    if n < 16 then [HexChar(n)] else NatToHex(n / 16) + [HexChar(n % 16)]
  }

  function HexNumberValue(s: string): nat
    requires AllHex(s)
  {
    if s == [] then 0 else HexNumberValue(s[..|s| - 1]) * 16 + HexValue(s[|s| - 1])
  }

  lemma {:induction false} HexRoundTrip(n: nat)
    ensures HexNumberValue(NatToHex(n)) == n
  {
    var s := NatToHex(n);
    if n < 16 {
      HexValueChar(n);
    } else {
      assert s[..|s| - 1] == NatToHex(n / 16);
      HexRoundTrip(n / 16);
      HexValueChar(n % 16);
    }
  }

  /** Python's f"{b:02x}" and printf's "%02x" for one byte. */
  function ByteToHex(b: byte): (s: string)
    ensures |s| == 2 && AllHex(s)
  {
    [HexChar(b as nat / 16), HexChar(b as nat % 16)]
  }

  /** Reads back two hexadecimal digits as a byte. */
  function HexToByte(s: string): (b: byte)
    requires |s| == 2 && AllHex(s)
  {
    (HexValue(s[0]) * 16 + HexValue(s[1])) as byte
  }

  lemma ByteHexRoundTrip(b: byte)
    ensures HexToByte(ByteToHex(b)) == b
  {
    HexValueChar(b as nat / 16);
    HexValueChar(b as nat % 16);
  }

  // ---------------------------------------------------------------------------
  // Joining and splitting (Python's sep.join(xs) and s.split(sep))

  /** Python's `sep.join(xs)`. */
  function Join(xs: seq<string>, sep: string): string {
    if |xs| == 0 then ""
    else if |xs| == 1 then xs[0]
    else xs[0] + sep + Join(xs[1..], sep)
  }

  /** Joining two non-empty lists is joining each and putting the separator
      between the two results. */
  lemma {:induction false} JoinAppend(xs: seq<string>, ys: seq<string>, sep: string)
    requires |xs| > 0 && |ys| > 0
    ensures Join(xs + ys, sep) == Join(xs, sep) + sep + Join(ys, sep)
  {
    if |xs| == 1 {
      assert (xs + ys)[1..] == ys;
    } else {
      assert (xs + ys)[1..] == xs[1..] + ys;
      JoinAppend(xs[1..], ys, sep);
    }
  }

  /** The concatenation of a list of strings. */
  function Concat(xs: seq<string>): string {
    if xs == [] then "" else xs[0] + Concat(xs[1..])
  }

  lemma {:induction false} ConcatAppend(xs: seq<string>, ys: seq<string>)
    ensures Concat(xs + ys) == Concat(xs) + Concat(ys)
  {
    if xs == [] {
      assert xs + ys == ys;
    } else {
      assert (xs + ys)[1..] == xs[1..] + ys;
      ConcatAppend(xs[1..], ys);
    }
  }

  lemma ConcatSnoc(xs: seq<string>, x: string)
    ensures Concat(xs + [x]) == Concat(xs) + x
  {
    ConcatAppend(xs, [x]);
    assert Concat([x]) == x + Concat([]);
  }

  /** The same, after a prefix `w` of text written before. */
  lemma ConcatSnocAfter(w: string, xs: seq<string>, x: string)
    ensures w + Concat(xs + [x]) == w + Concat(xs) + x
  {
    ConcatSnoc(xs, x);
  }

  /** Python's `s.split(c)` for a one-character separator: always at least one
      piece, and no piece holds the separator. */
  function Split(s: string, c: char): (r: seq<string>)
    ensures |r| >= 1
    ensures forall i :: 0 <= i < |r| ==> NoChar(r[i], c)
  {
    if s == [] then [""]
    else
      var rest := Split(s[1..], c);
      if s[0] == c then [""] + rest else [[s[0]] + rest[0]] + rest[1..]
  }

  lemma {:induction false} SplitPrefix(x: string, c: char, s: string)
    requires NoChar(x, c)
    ensures Split(x + [c] + s, c) == [x] + Split(s, c)
  {
    if x == [] {
      assert x + [c] + s == [c] + s;
      assert ([c] + s)[1..] == s;
    } else {
      assert (x + [c] + s)[1..] == x[1..] + [c] + s;
      SplitPrefix(x[1..], c, s);
      assert [x[0]] + x[1..] == x;
    }
  }

  lemma {:induction false} SplitNoSeparator(x: string, c: char)
    requires NoChar(x, c)
    ensures Split(x, c) == [x]
  {
    if x != [] {
      SplitNoSeparator(x[1..], c);
      assert [x[0]] + x[1..] == x;
    }
  }

  /** Splitting inverts joining when no piece contains the separator. */
  lemma {:induction false} SplitJoin(xs: seq<string>, c: char)
    requires |xs| >= 1
    requires forall i :: 0 <= i < |xs| ==> NoChar(xs[i], c)
    ensures Split(Join(xs, [c]), c) == xs
  {
    if |xs| == 1 {
      SplitNoSeparator(xs[0], c);
    } else {
      SplitJoin(xs[1..], c);
      SplitPrefix(xs[0], c, Join(xs[1..], [c]));
      assert xs[0] + [c] + Join(xs[1..], [c]) == Join(xs, [c]);
    }
  }

  lemma {:induction false} JoinNoChar(xs: seq<string>, sep: string, c: char)
    requires NoChar(sep, c)
    requires forall i :: 0 <= i < |xs| ==> NoChar(xs[i], c)
    ensures NoChar(Join(xs, sep), c)
  {
    if |xs| > 1 {
      JoinNoChar(xs[1..], sep, c);
    }
  }

  /** Python's `[x] * n` (and `c * n` for a character). */
  function Repeat<T>(x: T, n: nat): (r: seq<T>)
    ensures |r| == n && forall i :: 0 <= i < n ==> r[i] == x
  {
    if n == 0 then [] else [x] + Repeat(x, n - 1)
  }

  /** `xs` can be obtained from `ys` by deleting elements. */
  predicate IsSubsequence<T(==)>(xs: seq<T>, ys: seq<T>)
    decreases |ys|
  {
    if xs == [] then true
    else if ys == [] then false
    else if xs[0] == ys[0] then IsSubsequence(xs[1..], ys[1..])
    else IsSubsequence(xs, ys[1..])
  }

  /** `[f(x) for x in xs]`. */
  function Map<A, B>(f: A -> B, xs: seq<A>): (r: seq<B>)
    ensures |r| == |xs|
    decreases |xs|
  {
    if xs == [] then [] else Map(f, xs[..|xs| - 1]) + [f(xs[|xs| - 1])]
  }

  lemma {:induction false} MapIndex<A, B>(f: A -> B, xs: seq<A>, i: nat)
    requires i < |xs|
    ensures Map(f, xs)[i] == f(xs[i])
    decreases |xs|
  {
    if i < |xs| - 1 {
      MapIndex(f, xs[..|xs| - 1], i);
    }
  }

  lemma {:induction false} MapAppend<A, B>(f: A -> B, xs: seq<A>, ys: seq<A>)
    ensures Map(f, xs + ys) == Map(f, xs) + Map(f, ys)
    decreases |ys|
  {
    if ys == [] {
      assert xs + ys == xs;
    } else {
      var init := ys[..|ys| - 1];
      assert (xs + ys)[..|xs + ys| - 1] == xs + init;
      MapAppend(f, xs, init);
    }
  }

  /** `"".join(f(x) for x in xs)`: the text a loop of `text += f(x)`
      accumulates. */
  function ConcatMap<A>(f: A -> string, xs: seq<A>): string
    decreases |xs|
  {
    if xs == [] then "" else ConcatMap(f, xs[..|xs| - 1]) + f(xs[|xs| - 1])
  }

  /** Mapping over two sequences joined: the first's images, then the
      second's, element by element. */
  lemma MapConcat<A, B>(f: A -> B, xs: seq<A>, ys: seq<A>)
    ensures |Map(f, xs + ys)| == |xs| + |ys|
    ensures forall i :: 0 <= i < |xs| ==> Map(f, xs + ys)[i] == f(xs[i])
    ensures forall i :: 0 <= i < |ys| ==> Map(f, xs + ys)[|xs| + i] == f(ys[i])
  {
    forall i | 0 <= i < |xs| ensures Map(f, xs + ys)[i] == f(xs[i]) {
      MapIndex(f, xs + ys, i);
    }
    forall i | 0 <= i < |ys| ensures Map(f, xs + ys)[|xs| + i] == f(ys[i]) {
      MapIndex(f, xs + ys, |xs| + i);
    }
  }

  /** A line of text: `s` and its terminating newline. */
  function Line(s: string): string {
    s + "\n"
  }

  lemma ConcatMapCons<A>(f: A -> string, xs: seq<A>)
    requires xs != []
    ensures ConcatMap(f, xs) == f(xs[0]) + ConcatMap(f, xs[1..])
  {
    ConcatMapAppend(f, [xs[0]], xs[1..]);
    ConcatMapSingle(f, xs[0]);
    assert [xs[0]] + xs[1..] == xs;
  }

  /** Newline-terminated lines without newlines of their own split back into
      those lines, followed by the empty rest after the last newline. */
  lemma {:induction false} SplitLines(xs: seq<string>)
    requires forall i :: 0 <= i < |xs| ==> NoChar(xs[i], '\n')
    ensures Split(ConcatMap(Line, xs), '\n') == xs + [""]
    decreases |xs|
  {
    if xs == [] {
      assert ConcatMap(Line, xs) == "";
    } else {
      ConcatMapCons(Line, xs);
      SplitLines(xs[1..]);
      SplitPrefix(xs[0], '\n', ConcatMap(Line, xs[1..]));
      assert Line(xs[0]) + ConcatMap(Line, xs[1..]) == xs[0] + ['\n'] + ConcatMap(Line, xs[1..]);
      assert [xs[0]] + (xs[1..] + [""]) == xs + [""];
    }
  }

  /** One more element of `xs` appends its image. */
  lemma ConcatMapPrefix<A>(f: A -> string, xs: seq<A>, i: nat)
    requires i < |xs|
    ensures ConcatMap(f, xs[..i + 1]) == ConcatMap(f, xs[..i]) + f(xs[i])
  {
    assert xs[..i + 1][..i] == xs[..i];
  }

  lemma ConcatMapSingle<A>(f: A -> string, x: A)
    ensures ConcatMap(f, [x]) == f(x)
  {
    assert [x][..0] == [];
  }

  lemma {:induction false} ConcatMapAppend<A>(f: A -> string, xs: seq<A>, ys: seq<A>)
    ensures ConcatMap(f, xs + ys) == ConcatMap(f, xs) + ConcatMap(f, ys)
    decreases |ys|
  {
    if ys == [] {
      assert xs + ys == xs;
    } else {
      var init := ys[..|ys| - 1];
      assert (xs + ys)[..|xs + ys| - 1] == xs + init;
      ConcatMapAppend(f, xs, init);
    }
  }
}
