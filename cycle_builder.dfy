/** The buffer a trace cycle is assembled in: a fixed 4096-byte buffer that
    records are appended to, each a header followed by the node's bytes.
    The cycle builder and the cycle logger of the trace library are the same
    buffer under two names; this class stands for both.  The byte layout of
    each node is given by the system being traced (`layout`). */
module CycleBuilder {
  import opened Text
  import opened Common
  import opened Bytes
  import opened TraceFormat

  const BufferSize: nat := 4096

  /** The exceptions of the trace buffers and readers. */
  datatype TraceError =
    | FileOpenFailure     // an index file that could not be opened
    | BufferOverflow      // a record that does not fit the cycle buffer or the output buffer
    | SizeOutOfRange      // a negative write size
    | DataTooSmall        // a trace buffer shorter than one header
    | OffsetOutOfRange    // a reader offset past the end of its buffer
    | SkipFailed          // a skip past the last cycle of an index

  class BinaryCycleBuilder {
    const buffer: array<byte>
    const layout: Node -> seq<byte>
    var dataSize: nat
    /** The records appended so far, oldest first. */
    ghost var records: seq<Record>

    /** The bytes in use are exactly the encoding of the records. */
    ghost predicate Valid()
      reads this, buffer
    {
      buffer.Length == BufferSize && dataSize <= BufferSize && AllFit(records)
      && buffer[..dataSize] == EncodeAll(records)
    }

    /** The raw data of the cycle. */
    function Data(): (r: seq<byte>)
      reads this, buffer
      requires dataSize <= buffer.Length
      ensures |r| == dataSize
    {
      buffer[..dataSize]
    }

    function GetDataSize(): (r: nat)
      reads this, buffer
      requires Valid()
      ensures r == |Data()| <= BufferSize
    {
      dataSize
    }

    /** A new cycle starts with its basic node: the cycle number, XLEN and
        pc.  The basic node is a small fixed-size record that always fits
        the empty buffer. */
    constructor (cycle: uint32, xlen: XLEN, pc: bv64, layout: Node -> seq<byte>)
      requires HeaderSize + |layout(BasicNode(cycle, xlen, pc))| <= BufferSize
      ensures Valid() && fresh(buffer) && this.layout == layout
      ensures records == [Record(BA, layout(BasicNode(cycle, xlen, pc)))]
    {
      buffer := new byte[BufferSize];
      this.layout := layout;
      dataSize := 0;
      records := [];
      new;
      var err := Add(BasicNode(cycle, xlen, pc));
    }

    /** Appends one record.  A record that would not fit is refused before
        any byte is written; otherwise the header and then the node's bytes
        are copied in at the end of the data. */
    method AddData(id: NodeId, node: seq<byte>) returns (err: Option<TraceError>)
      requires Valid()
      modifies this, buffer
      ensures Valid()
      ensures err.Some? <==> old(dataSize) + HeaderSize + |node| > BufferSize
      ensures err.Some? ==> err.value == BufferOverflow && records == old(records) && Data() == old(Data())
      ensures err.None? ==> records == old(records) + [Record(id, node)]
      ensures err.None? ==> Data() == old(Data()) + Header(id, |node|) + node
    {
      if dataSize + HeaderSize + |node| > BufferSize {
        return Some(BufferOverflow);
      }
      ghost var data := Data();
      var header := Header(id, |node|);
      Append(header);
      Append(node);
      AppendAssoc(data, header, node);
      EncodeAllSnoc(records, Record(id, node));
      records := records + [Record(id, node)];
      err := None;
    }

    /** Copies `bytes` in at the end of the data and counts them in. */
    method Append(bytes: seq<byte>)
      requires buffer.Length == BufferSize && dataSize + |bytes| <= BufferSize
      modifies this`dataSize, buffer
      ensures dataSize == old(dataSize) + |bytes| && Data() == old(Data()) + bytes
    {
      ghost var before := buffer[..];
      MemCopy(buffer, dataSize, bytes);
      OverwritePrefix(before, dataSize, bytes);
      dataSize := dataSize + |bytes|;
    }

    /** Adds a node under the fixed id of its kind. */
    method Add(n: Node) returns (err: Option<TraceError>)
      requires Valid()
      modifies this, buffer
      ensures Valid()
      ensures err.Some? <==> old(dataSize) + HeaderSize + |layout(n)| > BufferSize
      ensures err.Some? ==> records == old(records)
      ensures err.None? ==> records == old(records) + [Record(NodeIdOf(n), layout(n))]
    {
      err := AddData(NodeIdOf(n), layout(n));
    }

    /** Ends a cycle's records with a header of size zero. */
    method Break() returns (err: Option<TraceError>)
      requires Valid()
      modifies this, buffer
      ensures Valid()
      ensures err.Some? <==> old(dataSize) + HeaderSize > BufferSize
      ensures err.Some? ==> records == old(records)
      ensures err.None? ==> records == old(records) + [Record(BR, [])]
    {
      err := AddData(BR, []);
    }
  }

  /** The records of a valid cycle buffer are read back from its data. */
  lemma DataDecodes(b: BinaryCycleBuilder)
    requires b.Valid()
    ensures DecodeAll(b.Data()) == Some(b.records)
  {
    DecodeEncode(b.records);
  }

  /** Every appended record costs its header and its bytes, so a full buffer
      holds at most 512 records. */
  lemma {:induction false} EncodedSize(rs: seq<Record>)
    requires AllFit(rs)
    ensures |EncodeAll(rs)| >= HeaderSize * |rs|
    ensures |EncodeAll(rs)| <= BufferSize ==> |rs| <= BufferSize / HeaderSize
  {
    if rs != [] {
      EncodedSize(rs[1..]);
    }
  }
}
