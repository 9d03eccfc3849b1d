/** Bounded byte buffers with little-endian integers (rte_buffer.c). */
module Buffer {
  import opened Words

  // ---- byte order -------------------------------------------------------------------------------------------------

  function U16Le(v: u16): (b: Bytes)
    ensures |b| == 2
  {
    [ByteOf(v % 0x100), ByteOf(v / 0x100)]
  }

  function U32Le(v: u32): (b: Bytes)
    ensures |b| == 4
  {
    U16Le(v % 0x1_0000) + U16Le(v / 0x1_0000)
  }

  function FromU16Le(b: Bytes): u16
    requires |b| == 2
  {
    ValueOf(b[0]) + 0x100 * ValueOf(b[1])
  }

  function FromU32Le(b: Bytes): u32
    requires |b| == 4
  {
    FromU16Le(b[..2]) + 0x1_0000 * FromU16Le(b[2..])
  }

  lemma U16RoundTrip(v: u16, b: Bytes)
    requires |b| == 2
    ensures FromU16Le(U16Le(v)) == v
    ensures U16Le(FromU16Le(b)) == b
  {
    hide ByteOf, ValueOf;
    ByteOfValue(b[0]);
    ByteOfValue(b[1]);
  }

  lemma U32RoundTrip(v: u32, b: Bytes)
    requires |b| == 4
    ensures FromU32Le(U32Le(v)) == v
    ensures U32Le(FromU32Le(b)) == b
  {
    hide U16Le, FromU16Le;
    assert U32Le(v)[..2] == U16Le(v % 0x1_0000) && U32Le(v)[2..] == U16Le(v / 0x1_0000);
    U16RoundTrip(v % 0x1_0000, b[..2]);
    U16RoundTrip(v / 0x1_0000, b[2..]);
    assert b == b[..2] + b[2..];
  }

  lemma U16Digits(v: u16)
    ensures ValueOf(U16Le(v)[0]) == v % 0x100 && ValueOf(U16Le(v)[1]) == v / 0x100
  {
    hide ByteOf, ValueOf;
  }

  lemma HalvesOfDigits(v: u32)
    ensures v % 0x1_0000 % 0x100 == v % 0x100 && v % 0x1_0000 / 0x100 == v / 0x100 % 0x100
    ensures v / 0x1_0000 / 0x100 == v / 0x100_0000
  {}

  /** The bytes are the digits of the number to the base 256, least significant first. */
  lemma U32Digits(v: u32)
    ensures ValueOf(U32Le(v)[0]) == v % 0x100 && ValueOf(U32Le(v)[1]) == v / 0x100 % 0x100
    ensures ValueOf(U32Le(v)[2]) == v / 0x1_0000 % 0x100 && ValueOf(U32Le(v)[3]) == v / 0x100_0000
  {
    hide ByteOf, ValueOf, U16Le;
    U16Digits(v % 0x1_0000);
    U16Digits(v / 0x1_0000);
    HalvesOfDigits(v);
  }

  /** A 64-bit word in memory order. */
  function U64Le(v: bv64): (b: Bytes)
    ensures |b| == 8
  {
    [(v & 0xFF) as bv8, ((v >> 8) & 0xFF) as bv8, ((v >> 16) & 0xFF) as bv8, ((v >> 24) & 0xFF) as bv8,
     ((v >> 32) & 0xFF) as bv8, ((v >> 40) & 0xFF) as bv8, ((v >> 48) & 0xFF) as bv8, (v >> 56) as bv8]
  }

  function FromU64Le(b: Bytes): bv64
    requires |b| == 8
  {
    (b[0] as bv64) | ((b[1] as bv64) << 8) | ((b[2] as bv64) << 16) | ((b[3] as bv64) << 24)
    | ((b[4] as bv64) << 32) | ((b[5] as bv64) << 40) | ((b[6] as bv64) << 48) | ((b[7] as bv64) << 56)
  }

  lemma U64RoundTrip(v: bv64, b: Bytes)
    requires |b| == 8
    ensures FromU64Le(U64Le(v)) == v
    ensures U64Le(FromU64Le(b)) == b
  {}

  // ---- the buffer -------------------------------------------------------------------------------------------------

  class ByteBuffer {
    const storage: array<bv8>
    var length: nat

    ghost predicate Valid()
      reads this
    {
      length <= storage.Length
    }

    ghost function Contents(): Bytes
      reads this, storage
      requires Valid()
    {
      storage[..length]
    }

    /** rte_buffer_init over caller storage. */
    constructor (storage: array<bv8>)
      ensures this.storage == storage && length == 0 && Valid()
    {
      this.storage := storage;
      length := 0;
    }

    method SetLength(n: nat) returns (status: Status)
      requires Valid()
      modifies this
      ensures Valid()
      ensures status == if n > storage.Length then ResourceExhausted else Ok
      ensures length == if status.Ok? then n else old(length)
    {
      if n > storage.Length {
        return ResourceExhausted;
      }
      length := n;
      return Ok;
    }

    method AppendBytes(bytes: Bytes) returns (status: Status)
      requires Valid()
      modifies this, storage
      ensures Valid()
      ensures status == if old(length) + |bytes| <= storage.Length then Ok else ResourceExhausted
      ensures Contents() == if status.Ok? then old(Contents()) + bytes else old(Contents())
    {
      if storage.Length - length < |bytes| {
        return ResourceExhausted;
      }
      var i := 0;
      while i < |bytes|
        invariant 0 <= i <= |bytes|
        invariant length == old(length)
        invariant storage[..length + i] == old(Contents()) + bytes[..i]
      {
        storage[length + i] := bytes[i];
        i := i + 1;
      }
      assert bytes[..i] == bytes;
      length := length + |bytes|;
      return Ok;
    }

    method PeekBytes(offset: nat, n: nat) returns (status: Status, bytes: Bytes)
      requires Valid()
      ensures status == if offset + n <= length then Ok else ResourceExhausted
      ensures status.Ok? ==> bytes == Contents()[offset..offset + n]
    {
      if offset > length || length - offset < n {
        return ResourceExhausted, [];
      }
      return Ok, storage[offset..offset + n];
    }

    method WriteU32Le(v: u32) returns (status: Status)
      requires Valid()
      modifies this, storage
      ensures Valid()
      ensures status == if old(length) + 4 <= storage.Length then Ok else ResourceExhausted
      ensures Contents() == if status.Ok? then old(Contents()) + U32Le(v) else old(Contents())
    {
      status := AppendBytes(U32Le(v));
    }

    /** Reads back whatever was written at offset; the buffer is not touched. */
    method ReadU32Le(offset: nat) returns (status: Status, v: u32)
      requires Valid()
      ensures status == if offset + 4 <= length then Ok else ResourceExhausted
      ensures status.Ok? ==> U32Le(v) == Contents()[offset..offset + 4]
    {
      var bytes;
      status, bytes := PeekBytes(offset, 4);
      v := 0;
      if status.Ok? {
        v := FromU32Le(bytes);
        U32RoundTrip(v, bytes);
      }
    }
  }
}
