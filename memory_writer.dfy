/** A trace writer into a caller's memory buffer: a write cursor that copies
    each block at the cursor and moves past it, refusing a block that would
    run past the end of the buffer and then a negative size. */
module MemoryWriter {
  import opened Text
  import opened Bytes
  import opened CycleBuilder

  class TraceBinaryMemoryWriter {
    const buffer: array<byte>
    const bufferSize: int
    var offset: int
    /** Every block written so far, in order. */
    ghost var written: seq<byte>

    /** The cursor stays inside the buffer, and everything before it is what
        was written. */
    ghost predicate Valid()
      reads this, buffer
    {
      0 <= offset <= bufferSize <= buffer.Length && buffer[..offset] == written
    }

    /** The buffer and its size are the caller's; the cursor starts at 0. */
    constructor (buffer: array<byte>, bufferSize: int)
      requires 0 <= bufferSize <= buffer.Length
      ensures Valid() && this.buffer == buffer && this.bufferSize == bufferSize
      ensures offset == 0 && written == []
    {
      this.buffer, this.bufferSize := buffer, bufferSize;
      offset := 0;
      written := [];
    }

    /** Copies the first `size` bytes of `data` at the cursor and moves the
        cursor past them.  The overflow check runs first, so a negative size
        is reported as out of range only when it does not also overflow. */
    method Write(data: seq<byte>, size: int) returns (err: Option<TraceError>)
      requires Valid() && size <= |data|
      modifies this, buffer
      ensures Valid()
      ensures old(offset) + size > bufferSize ==> err == Some(BufferOverflow)
      ensures old(offset) + size <= bufferSize && size < 0 ==> err == Some(SizeOutOfRange)
      ensures err.Some? ==> offset == old(offset) && written == old(written) && buffer[..] == old(buffer[..])
      ensures err.None? <==> 0 <= size && old(offset) + size <= bufferSize
      ensures err.None? ==>
        && offset == old(offset) + size
        && written == old(written) + data[..size]
        && buffer[..] == Overwrite(old(buffer[..]), old(offset), data[..size])
    {
      if offset + size > bufferSize {
        return Some(BufferOverflow);
      }
      if !(0 <= size) {
        return Some(SizeOutOfRange);
      }
      ghost var before := buffer[..];
      MemCopy(buffer, offset, data[..size]);
      OverwritePrefix(before, offset, data[..size]);
      offset := offset + size;
      written := written + data[..size];
      err := None;
    }
  }

  /** Two writes in a row leave the bytes of both, one after the other. */
  lemma WritesConcatenate(s: seq<byte>, at: nat, x: seq<byte>, y: seq<byte>)
    requires at + |x| + |y| <= |s|
    ensures Overwrite(Overwrite(s, at, x), at + |x|, y) == Overwrite(s, at, x + y)
  {
    var l := Overwrite(Overwrite(s, at, x), at + |x|, y);
    forall i | 0 <= i < |x + y|
      ensures l[at + i] == (x + y)[i]
    {
      if i < |x| {
        assert Overwrite(s, at, x)[at + i] == Overwrite(s, at, x)[at..at + |x|][i];
      } else {
        assert l[at + i] == l[at + |x|..at + |x| + |y|][i - |x|];
      }
    }
    OverwriteUnique(s, at, x + y, l);
  }
}
