/** Byte strings and the in-place overwrite that `memcpy` performs on a
    buffer: the specification the memories and the trace buffers are proved
    against. */
module Bytes {
  import opened Text

  /** `n` zero bytes, the contents of a buffer after `memset(p, 0, n)`. */
  function Zeros(n: nat): (r: seq<byte>)
    ensures |r| == n && forall i :: 0 <= i < n ==> r[i] == 0
  {
    if n == 0 then [] else Zeros(n - 1) + [0]
  }

  /** The part of a file that fits in `room` bytes: a stream read of `room`
      bytes stops at the end of the file. */
  function Fitting(data: seq<byte>, room: nat): (r: seq<byte>)
    ensures |r| <= room && |r| <= |data| && r == data[..|r|]
    ensures |data| <= room ==> r == data
  {
    if |data| <= room then data else data[..room]
  }

  /** `s` with `data` copied over it starting at `at`. */
  function Overwrite(s: seq<byte>, at: nat, data: seq<byte>): (r: seq<byte>)
    requires at + |data| <= |s|
    ensures |r| == |s|
    ensures r[at..at + |data|] == data
    ensures forall i :: 0 <= i < |s| && !(at <= i < at + |data|) ==> r[i] == s[i]
  {
    s[..at] + data + s[at + |data|..]
  }

  /** An overwrite is determined by its length, its range and its data:
      any sequence that agrees with it position by position is it. */
  lemma OverwriteUnique(s: seq<byte>, at: nat, data: seq<byte>, t: seq<byte>)
    requires at + |data| <= |s| && |t| == |s|
    requires forall i :: 0 <= i < |s| && !(at <= i < at + |data|) ==> t[i] == s[i]
    requires forall i :: 0 <= i < |data| ==> t[at + i] == data[i]
    ensures t == Overwrite(s, at, data)
  {
    var r := Overwrite(s, at, data);
    forall i | 0 <= i < |s|
      ensures t[i] == r[i]
    {
      if at <= i < at + |data| {
        assert r[i] == r[at..at + |data|][i - at];
      }
    }
  }

  /** Writing a range and then the same range again keeps only the second
      write. */
  lemma OverwriteTwice(s: seq<byte>, at: nat, first: seq<byte>, second: seq<byte>)
    requires at + |first| <= |s| && |second| == |first|
    ensures Overwrite(Overwrite(s, at, first), at, second) == Overwrite(s, at, second)
  {
    var t := Overwrite(Overwrite(s, at, first), at, second);
    forall i | 0 <= i < |second|
      ensures t[at + i] == second[i]
    {
      assert t[at + i] == t[at..at + |second|][i];
    }
    OverwriteUnique(s, at, second, t);
  }

  /** Writes to disjoint ranges commute. */
  lemma OverwriteDisjoint(s: seq<byte>, a: nat, x: seq<byte>, b: nat, y: seq<byte>)
    requires a + |x| <= |s| && b + |y| <= |s|
    requires a + |x| <= b || b + |y| <= a
    ensures Overwrite(Overwrite(s, a, x), b, y) == Overwrite(Overwrite(s, b, y), a, x)
  {
    var l := Overwrite(Overwrite(s, a, x), b, y);
    var r := Overwrite(Overwrite(s, b, y), a, x);
    forall i | 0 <= i < |s|
      ensures l[i] == r[i]
    {
      if a <= i < a + |x| {
        assert r[i] == r[a..a + |x|][i - a];
        assert Overwrite(s, a, x)[i] == Overwrite(s, a, x)[a..a + |x|][i - a];
      } else if b <= i < b + |y| {
        assert l[i] == l[b..b + |y|][i - b];
        assert Overwrite(s, b, y)[i] == Overwrite(s, b, y)[b..b + |y|][i - b];
      }
    }
  }

  /** Up to the end of the written range, an overwrite is the bytes before
      it followed by the data. */
  lemma OverwritePrefix(s: seq<byte>, at: nat, data: seq<byte>)
    requires at + |data| <= |s|
    ensures Overwrite(s, at, data)[..at + |data|] == s[..at] + data
  {
    var r := Overwrite(s, at, data);
    assert r[..at] == s[..at];
    assert r[..at + |data|] == r[..at] + r[at..at + |data|];
  }

  /** `memcpy(&dst[at], data, |data|)`. */
  method MemCopy(dst: array<byte>, at: nat, data: seq<byte>)
    requires at + |data| <= dst.Length
    modifies dst
    ensures dst[..] == Overwrite(old(dst[..]), at, data)
  {
    var i := 0;
    while i < |data|
      invariant 0 <= i <= |data|
      invariant forall j :: 0 <= j < dst.Length && !(at <= j < at + i) ==> dst[j] == old(dst[j])
      invariant forall j :: 0 <= j < i ==> dst[at + j] == data[j]
    {
      dst[at + i] := data[i];
      i := i + 1;
    }
    OverwriteUnique(old(dst[..]), at, data, dst[..]);
  }
}
