/** What every component shares: the fixed-width integers of the sources, with wrap-around and saturation spelled out,
    and the status codes. */
module Words {
  const U32_LIMIT := 0x1_0000_0000
  const U64_LIMIT := 0x1_0000_0000_0000_0000
  const U8_MAX := 255

  type u8 = x: int | 0 <= x < 0x100
  type u16 = x: int | 0 <= x < 0x1_0000
  type u32 = x: int | 0 <= x < U32_LIMIT
  type u64 = x: int | 0 <= x < U64_LIMIT

  /** Byte strings on the wire and in memory. */
  type Bytes = seq<bv8>

  /** x + 1U on a uint32_t. */
  function Inc32(x: u32): u32 {
    (x + 1) % U32_LIMIT
  }

  /** The saturating increment the sources guard with "< UINT8_MAX". */
  function SatInc8(x: u8): u8 {
    if x < U8_MAX then x + 1 else x
  }

  lemma ByteIncrement(b: bv8)
    requires b != 255
    ensures (b + 1) as int == b as int + 1
  {}

  function ValueOf(b: bv8): u8 {
    b as nat
  }

  /** The byte that holds n. */
  function ByteOf(n: u8): (b: bv8)
    ensures ValueOf(b) == n
  {
    if n == 0 then
      0
    else
      ByteIncrement(ByteOf(n - 1));
      ByteOf(n - 1) + 1
  }

  lemma ByteOfValue(b: bv8)
    ensures ByteOf(ValueOf(b)) == b
  {
    assert (ByteOf(ValueOf(b)) as int) as bv8 == ByteOf(ValueOf(b));
    assert (b as int) as bv8 == b;
  }

  datatype Option<+T> = None | Some(value: T)

  /** The rte_status_t values the modelled functions return. */
  datatype Status =
    | Ok
    | InvalidParam
    | NotInitialized
    | AlreadyInitialized
    | Timeout
    | ResourceExhausted
    | HardwareFault
    | DataCorruption
    | ValueOutOfRange
}
