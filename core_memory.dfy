/** The memory model of the core's test bench: once per clock it serves
    the core's memory port, one line at a time.  A line is as wide as the
    port's read-value register; the line address is scaled by the line size
    and wrapped at the capacity.  The capacity and the line size are fixed
    by a header that is not part of this model, so they are construction
    parameters here. */
module CoreMemory {
  import opened Text
  import opened Bytes

  /** The port signals of the core that the memory reads and drives. */
  class Port {
    var memoryEnable: bool
    var memoryIsWrite: bool
    var memoryAddr: nat
    var memoryWriteValue: seq<byte>
    var memoryDone: nat
    var memoryReadValue: seq<byte>

    constructor (enable: bool, isWrite: bool, addr: nat, writeValue: seq<byte>, readValue: seq<byte>)
      ensures memoryEnable == enable && memoryIsWrite == isWrite && memoryAddr == addr
      ensures memoryWriteValue == writeValue && memoryReadValue == readValue && memoryDone == 0
    {
      memoryEnable, memoryIsWrite, memoryAddr := enable, isWrite, addr;
      memoryWriteValue, memoryReadValue, memoryDone := writeValue, readValue, 0;
    }
  }

  class Memory {
    const capacity: nat
    const lineSize: nat
    const body: array<byte>

    ghost predicate Valid()
      reads this
    {
      capacity > 0 && body.Length == capacity
    }

    /** The memory starts zeroed. */
    constructor (capacity: nat, lineSize: nat)
      requires capacity > 0
      ensures Valid() && this.capacity == capacity && this.lineSize == lineSize
      ensures fresh(body) && body[..] == Zeros(capacity)
    {
      this.capacity, this.lineSize := capacity, lineSize;
      body := new byte[capacity](_ => 0);
    }

    /** The byte offset of a line address. */
    function Offset(addr: nat): (r: nat)
      reads this
      requires Valid()
      ensures r < capacity
    {
      (addr * lineSize) % capacity
    }

    /** Loads an image from the start of the memory, as much as fits; a file
        that cannot be opened aborts the bench (`aborted`), touching nothing. */
    method LoadFile(file: Option<seq<byte>>) returns (aborted: bool)
      requires Valid()
      modifies body
      ensures aborted <==> file.None?
      ensures file.None? ==> body[..] == old(body[..])
      ensures file.Some? ==>
        body[..] == Overwrite(old(body[..]), 0, Fitting(file.value, capacity))
    {
      if file.None? {
        return true;
      }
      MemCopy(body, 0, Fitting(file.value, capacity));
      aborted := false;
    }

    /** One clock of the port: a write stores the write value's line and
        zeroes the read value; a read copies the line into the read value;
        with the port disabled, nothing is done and the read value is
        zeroed.  An enabled access asserts that the line ends strictly
        before the capacity. */
    method UpdateCore(core: Port)
      requires Valid() && |core.memoryWriteValue| == lineSize
      requires core.memoryEnable ==> Offset(core.memoryAddr) + lineSize < capacity
      modifies body, core`memoryDone, core`memoryReadValue
      ensures var offset := Offset(core.memoryAddr);
        && (core.memoryEnable && core.memoryIsWrite ==>
              core.memoryDone == 1 && core.memoryReadValue == Zeros(lineSize)
              && body[..] == Overwrite(old(body[..]), offset, core.memoryWriteValue))
        && (core.memoryEnable && !core.memoryIsWrite ==>
              core.memoryDone == 1 && core.memoryReadValue == body[offset..offset + lineSize]
              && body[..] == old(body[..]))
        && (!core.memoryEnable ==>
              core.memoryDone == 0 && core.memoryReadValue == Zeros(lineSize)
              && body[..] == old(body[..]))
    {
      var offset := Offset(core.memoryAddr);
      if core.memoryEnable && core.memoryIsWrite {
        core.memoryDone := 1;
        core.memoryReadValue := Zeros(lineSize);
        MemCopy(body, offset, core.memoryWriteValue);
      } else if core.memoryEnable && !core.memoryIsWrite {
        core.memoryDone := 1;
        core.memoryReadValue := body[offset..offset + lineSize];
      } else {
        core.memoryDone := 0;
        core.memoryReadValue := Zeros(lineSize);
      }
    }
  }
}
