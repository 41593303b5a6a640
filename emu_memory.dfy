/** The emulator's memories: a RAM of any capacity and a 4 KiB ROM, each a
    zero-initialised byte array behind a bounds check.  A failed check in
    the RAM is a debug assertion (a precondition here); in the ROM it raises
    an emulator exception (an error result here).  File contents are given
    as an input: `None` stands for a file that could not be opened. */
module EmuMemory {
  import opened Text
  import opened Bytes

  /** The emulator exceptions the memories raise. */
  datatype EmuError =
    | OffsetOutOfRange   // the range check on a load offset
    | OpenFailed         // the image file could not be opened
    | AccessOutOfRange   // the access check on a read
    | WriteUnsupported   // any write to the ROM

  datatype Result<T> = Ok(value: T) | Err(error: EmuError)

  /** The range check on a load offset, `0 <= offset < capacity`. */
  predicate InRange(offset: int, capacity: nat) {
    0 <= offset < capacity
  }

  class Ram {
    const capacity: nat
    const body: array<byte>

    ghost predicate Valid()
      reads this
    {
      body.Length == capacity
    }

    /** A new RAM has the requested capacity and holds only zeros. */
    constructor (capacity: nat)
      ensures Valid() && this.capacity == capacity && fresh(body)
      ensures body[..] == Zeros(capacity)
    {
      this.capacity := capacity;
      body := new byte[capacity](_ => 0);
    }

    function GetCapacity(): (r: nat)
      reads this
      requires Valid()
      ensures r == body.Length
    {
      capacity
    }

    /** The whole body; the caller must ask for exactly the capacity. */
    method Copy(size: nat) returns (out: seq<byte>)
      requires Valid() && size == capacity
      ensures out == body[..] && |out| == GetCapacity()
    {
      out := body[..size];
    }

    method Read(size: nat, address: nat) returns (out: seq<byte>)
      requires Valid() && address + size <= capacity
      ensures out == body[address..address + size]
    {
      out := body[address..address + size];
    }

    /** Copies `buffer` into the body at `address`; nothing else changes. */
    method Write(buffer: seq<byte>, address: nat)
      requires Valid() && address + |buffer| <= capacity
      modifies body
      ensures body[..] == Overwrite(old(body[..]), address, buffer)
    {
      MemCopy(body, address, buffer);
    }

    /** Loads an image at `offset`: range check, then the open, then as
        much of the file as fits between the offset and the end. */
    method LoadFile(offset: int, file: Option<seq<byte>>) returns (err: Option<EmuError>)
      requires Valid()
      modifies body
      ensures !InRange(offset, capacity) ==> err == Some(OffsetOutOfRange) && body[..] == old(body[..])
      ensures InRange(offset, capacity) && file.None? ==> err == Some(OpenFailed) && body[..] == old(body[..])
      ensures InRange(offset, capacity) && file.Some? ==>
        err.None? && body[..] == Overwrite(old(body[..]), offset, Fitting(file.value, capacity - offset))
    {
      if !InRange(offset, capacity) {
        return Some(OffsetOutOfRange);
      }
      if file.None? {
        return Some(OpenFailed);
      }
      Write(Fitting(file.value, capacity - offset), offset);
      err := None;
    }
  }

  const RomCapacity: nat := 4 * 1024

  class Rom {
    const body: array<byte>

    ghost predicate Valid()
      reads this
    {
      body.Length == RomCapacity
    }

    constructor ()
      ensures Valid() && fresh(body) && body[..] == Zeros(RomCapacity)
    {
      body := new byte[RomCapacity](_ => 0);
    }

    function GetCapacity(): (r: nat)
      reads this
      requires Valid()
      ensures r == body.Length == 4096
    {
      RomCapacity
    }

    /** Reads are access-checked and return the body bytes unchanged. */
    method Read(size: nat, address: nat) returns (r: Result<seq<byte>>)
      requires Valid()
      ensures address + size <= RomCapacity <==> r.Ok?
      ensures r.Ok? ==> r.value == body[address..address + size]
      ensures r.Err? ==> r.error == AccessOutOfRange
    {
      if address + size > RomCapacity {
        return Err(AccessOutOfRange);
      }
      r := Ok(body[address..address + size]);
    }

    /** Every write is refused; the body cannot change (no `modifies`). */
    method Write(buffer: seq<byte>, address: nat) returns (err: EmuError)
      requires Valid()
      ensures err == WriteUnsupported
    {
      err := WriteUnsupported;
    }

    /** The same steps as the RAM's load, against the fixed capacity. */
    method LoadFile(offset: int, file: Option<seq<byte>>) returns (err: Option<EmuError>)
      requires Valid()
      modifies body
      ensures !InRange(offset, RomCapacity) ==> err == Some(OffsetOutOfRange) && body[..] == old(body[..])
      ensures InRange(offset, RomCapacity) && file.None? ==> err == Some(OpenFailed) && body[..] == old(body[..])
      ensures InRange(offset, RomCapacity) && file.Some? ==>
        err.None? && body[..] == Overwrite(old(body[..]), offset, Fitting(file.value, RomCapacity - offset))
    {
      if !InRange(offset, RomCapacity) {
        return Some(OffsetOutOfRange);
      }
      if file.None? {
        return Some(OpenFailed);
      }
      MemCopy(body, offset, Fitting(file.value, RomCapacity - offset));
      err := None;
    }
  }
}
