/** The record format of a binary trace cycle: each node is an 8-byte
    header (a 16-bit node id, 16 reserved bits that are written as zero and
    a 32-bit payload size, all little-endian) followed by the payload.  The
    numeric values of the node ids are not part of this model; each id is
    taken to be its two letters as two bytes.  The decoder is the inverse
    the format is designed for: it recovers the records from the bytes. */
module TraceFormat {
  import opened Text
  import opened Common
  import opened EventTypes

  /** The node ids, one per kind of node. */
  datatype NodeId = BA | IN | FP | IO | OP | TR | MA | BR

  const HeaderSize: nat := 8

  /** A payload size must fit the header's 32-bit size field. */
  const SizeLimit: nat := 0x1_0000_0000

  /** `256^n`: one more than the largest value `n` little-endian bytes hold. */
  function Pow256(n: nat): (r: nat)
    ensures r > 0
  {
    if n == 0 then 1 else 256 * Pow256(n - 1)
  }

  /** The `n` low-order bytes of `v`, least significant first. */
  function LE(v: nat, n: nat): (r: seq<byte>)
    ensures |r| == n
  {
    if n == 0 then [] else [(v % 256) as byte] + LE(v / 256, n - 1)
  }

  /** The value of little-endian bytes. */
  function LEValue(bs: seq<byte>): (v: nat)
    ensures v < Pow256(|bs|)
  {
    if bs == [] then 0 else bs[0] as nat + 256 * LEValue(bs[1..])
  }

  lemma {:induction false} LERoundTrip(v: nat, n: nat)
    requires v < Pow256(n)
    ensures LEValue(LE(v, n)) == v
  {
    if n > 0 {
      assert v / 256 < Pow256(n - 1);
      LERoundTrip(v / 256, n - 1);
      assert LE(v, n)[1..] == LE(v / 256, n - 1);
    }
  }

  function Letters(first: char, second: char): nat
    requires first as int < 256 && second as int < 256
  {
    first as nat + 256 * second as nat
  }

  /** The header value of an id: its two letters in memory order. */
  function IdValue(id: NodeId): (v: nat)
    ensures v < Pow256(2)
  {
    match id
    case BA => Letters('B', 'A')
    case IN => Letters('I', 'N')
    case FP => Letters('F', 'P')
    case IO => Letters('I', 'O')
    case OP => Letters('O', 'P')
    case TR => Letters('T', 'R')
    case MA => Letters('M', 'A')
    case BR => Letters('B', 'R')
  }

  /** The id a header value stands for, if any. */
  function IdOf(v: nat): (r: Option<NodeId>)
    ensures r.Some? ==> IdValue(r.value) == v
  {
    if v == IdValue(BA) then Some(BA)
    else if v == IdValue(IN) then Some(IN)
    else if v == IdValue(FP) then Some(FP)
    else if v == IdValue(IO) then Some(IO)
    else if v == IdValue(OP) then Some(OP)
    else if v == IdValue(TR) then Some(TR)
    else if v == IdValue(MA) then Some(MA)
    else if v == IdValue(BR) then Some(BR)
    else None
  }

  /** Distinct ids have distinct header values, so the id is recovered. */
  lemma IdRoundTrip(id: NodeId)
    ensures IdOf(IdValue(id)) == Some(id)
  {
  }

  /** The header `{ id, 0, size }` as bytes. */
  function Header(id: NodeId, size: nat): (r: seq<byte>)
    requires size < SizeLimit
    ensures |r| == HeaderSize
  {
    LE(IdValue(id), 2) + LE(0, 2) + LE(size, 4)
  }

  datatype Record = Record(id: NodeId, payload: seq<byte>)

  predicate Fits(r: Record) {
    |r.payload| < SizeLimit
  }

  predicate AllFit(rs: seq<Record>) {
    forall i :: 0 <= i < |rs| ==> Fits(rs[i])
  }

  function Encode(r: Record): (bs: seq<byte>)
    requires Fits(r)
    ensures |bs| == HeaderSize + |r.payload|
  {
    Header(r.id, |r.payload|) + r.payload
  }

  function EncodeAll(rs: seq<Record>): seq<byte>
    requires AllFit(rs)
  {
    if rs == [] then [] else Encode(rs[0]) + EncodeAll(rs[1..])
  }

  /** Appending a record appends its encoding. */
  lemma {:induction false} EncodeAllSnoc(rs: seq<Record>, r: Record)
    requires AllFit(rs) && Fits(r)
    ensures AllFit(rs + [r])
    ensures EncodeAll(rs + [r]) == EncodeAll(rs) + Encode(r)
  {
    if rs != [] {
      assert (rs + [r])[1..] == rs[1..] + [r];
      EncodeAllSnoc(rs[1..], r);
    }
  }

  /** Reads the records back: a header, then as many payload bytes as the
      header's size field says, until the bytes are used up. */
  function DecodeAll(bs: seq<byte>): Option<seq<Record>>
    decreases |bs|
  {
    if bs == [] then Some([])
    else if |bs| < HeaderSize then None
    else
      var size := LEValue(bs[4..8]);
      match IdOf(LEValue(bs[..2]))
      case None => None
      case Some(id) =>
        if |bs| < HeaderSize + size then None
        else
          match DecodeAll(bs[HeaderSize + size..])
          case None => None
          case Some(rest) => Some([Record(id, bs[HeaderSize..HeaderSize + size])] + rest)
  }

  /** The decoder inverts the encoder. */
  lemma {:induction false} DecodeEncode(rs: seq<Record>)
    requires AllFit(rs)
    ensures DecodeAll(EncodeAll(rs)) == Some(rs)
  {
    if rs != [] {
      var r := rs[0];
      var bs := EncodeAll(rs);
      var size := |r.payload|;
      assert bs == LE(IdValue(r.id), 2) + LE(0, 2) + LE(size, 4) + r.payload + EncodeAll(rs[1..]);
      assert bs[..2] == LE(IdValue(r.id), 2);
      assert bs[4..8] == LE(size, 4);
      LERoundTrip(IdValue(r.id), 2);
      LERoundTrip(size, 4);
      IdRoundTrip(r.id);
      assert bs[HeaderSize..HeaderSize + size] == r.payload;
      assert bs[HeaderSize + size..] == EncodeAll(rs[1..]);
      DecodeEncode(rs[1..]);
      assert LEValue(bs[4..8]) == size && IdOf(LEValue(bs[..2])) == Some(r.id);
      assert DecodeAll(bs) == Some([Record(r.id, r.payload)] + rs[1..]);
      assert [r] + rs[1..] == rs;
    }
  }

  /** The trace nodes a cycle holds.  Register files and the layout of each
      node's bytes are given by the simulated system. */
  datatype Node =
    | BasicNode(cycle: uint32, xlen: XLEN, pc: bv64)
    | IntReg32Node(intRegs: seq<bv32>)
    | IntReg64Node(intRegs64: seq<bv64>)
    | FpRegNode(fpRegs: seq<bv64>)
    | IoNode(hostIoValue: bv32, reserved: bv32)
    | OpNode(op: Event)
    | TrapNode(trap: Event)
    | MemoryNode(access: Event)

  /** The fixed id of each kind of node. */
  function NodeIdOf(n: Node): (id: NodeId)
    ensures id != BR
    ensures n.BasicNode? <==> id == BA
    ensures n.IntReg32Node? || n.IntReg64Node? <==> id == IN
  {
    match n
    case BasicNode(_, _, _) => BA
    case IntReg32Node(_) => IN
    case IntReg64Node(_) => IN
    case FpRegNode(_) => FP
    case IoNode(_, _) => IO
    case OpNode(_) => OP
    case TrapNode(_) => TR
    case MemoryNode(_) => MA
  }

  /** The node that records an event: one node per event, of the kind the
      event is, carrying its fields. */
  function EventNode(e: Event): (n: Node)
    ensures e.OpEvent? <==> NodeIdOf(n) == OP
    ensures e.TrapEvent? <==> NodeIdOf(n) == TR
    ensures e.MemoryEvent? <==> NodeIdOf(n) == MA
  {
    match e
    case OpEvent(_, _) => OpNode(e)
    case TrapEvent(_, _, _, _, _) => TrapNode(e)
    case MemoryEvent(_, _, _, _, _) => MemoryNode(e)
  }
}
