/** The vital message envelope: its layout, its checksum and its verification (rte_checksum.c). */
module Checksum {
  import opened Words
  import opened Buffer
  import opened Polynomials
  import opened Crc64
  import opened BurstDetection

  /** The polynomial all channels of a system are initialized for. It may be any of the three. */
  const SYSTEM_POLYNOMIAL: Polynomial

  const PAYLOAD_MAX: nat := 248
  const HEADER_SIZE: nat := 16
  /** Bytes the checksum covers: everything before the crc64 field. */
  const COVERED_SIZE: nat := 264
  const MESSAGE_SIZE: nat := 272

  /** rte_vital_message_t. */
  datatype MessageFields = MessageFields(
    sequence: u32, sender: u32, timestamp: u32,
    payloadSize: u8, padding: u8, reserved: u16,
    payload: Bytes, crc: bv64)

  ghost const EMPTY_PAYLOAD: Bytes := seq(PAYLOAD_MAX, _ => 0)

  type VitalMessage = m: MessageFields | |m.payload| == PAYLOAD_MAX
    ghost witness MessageFields(0, 0, 0, 0, 0, 0, EMPTY_PAYLOAD, 0)

  // ---- layout -----------------------------------------------------------------------------------------------------

  function Header(m: VitalMessage): (h: Bytes)
    ensures |h| == HEADER_SIZE
  {
    U32Le(m.sequence) + U32Le(m.sender) + U32Le(m.timestamp) + [ByteOf(m.payloadSize), ByteOf(m.padding)] + U16Le(m.reserved)
  }

  /** The bytes the checksum is computed over, as they lie in memory. */
  function Covered(m: VitalMessage): (c: Bytes)
    ensures |c| == COVERED_SIZE
  {
    Header(m) + m.payload
  }

  function Serialize(m: VitalMessage): (raw: Bytes)
    ensures |raw| == MESSAGE_SIZE
  {
    Covered(m) + U64Le(m.crc)
  }

  function Parse(raw: Bytes): VitalMessage
    requires |raw| == MESSAGE_SIZE
  {
    MessageFields(
      FromU32Le(raw[0..4]), FromU32Le(raw[4..8]), FromU32Le(raw[8..12]),
      ValueOf(raw[12]), ValueOf(raw[13]), FromU16Le(raw[14..16]),
      raw[HEADER_SIZE..COVERED_SIZE], FromU64Le(raw[COVERED_SIZE..]))
  }

  lemma HeaderFields(m: VitalMessage)
    ensures var h := Header(m);
      && h[0..4] == U32Le(m.sequence) && h[4..8] == U32Le(m.sender) && h[8..12] == U32Le(m.timestamp)
      && h[12] == ByteOf(m.payloadSize) && h[13] == ByteOf(m.padding) && h[14..16] == U16Le(m.reserved)
  {
    hide U32Le, U16Le;
    var a, b, c := U32Le(m.sequence), U32Le(m.sender), U32Le(m.timestamp);
    var d, e := [ByteOf(m.payloadSize), ByteOf(m.padding)], U16Le(m.reserved);
    assert Header(m) == a + b + c + d + e;
  }

  lemma ParseSerialize(m: VitalMessage)
    ensures Parse(Serialize(m)) == m
  {
    hide U32Le, U16Le, U64Le, FromU32Le, FromU16Le, FromU64Le, Header;
    var raw := Serialize(m);
    HeaderFields(m);
    assert raw[0..4] == Header(m)[0..4] && raw[4..8] == Header(m)[4..8] && raw[8..12] == Header(m)[8..12];
    assert raw[12] == Header(m)[12] && raw[13] == Header(m)[13] && raw[14..16] == Header(m)[14..16];
    assert raw[HEADER_SIZE..COVERED_SIZE] == m.payload;
    assert raw[COVERED_SIZE..] == U64Le(m.crc);
    U32RoundTrip(m.sequence, raw[0..4]);
    U32RoundTrip(m.sender, raw[4..8]);
    U32RoundTrip(m.timestamp, raw[8..12]);
    ByteOfValue(raw[12]);
    ByteOfValue(raw[13]);
    U16RoundTrip(m.reserved, raw[14..16]);
    U64RoundTrip(m.crc, raw[COVERED_SIZE..]);
  }

  lemma SerializeParse(raw: Bytes)
    requires |raw| == MESSAGE_SIZE
    ensures Serialize(Parse(raw)) == raw
  {
    hide U32Le, U16Le, U64Le, FromU32Le, FromU16Le, FromU64Le, Header;
    var m := Parse(raw);
    U32RoundTrip(m.sequence, raw[0..4]);
    U32RoundTrip(m.sender, raw[4..8]);
    U32RoundTrip(m.timestamp, raw[8..12]);
    ByteOfValue(raw[12]);
    ByteOfValue(raw[13]);
    U16RoundTrip(m.reserved, raw[14..16]);
    U64RoundTrip(m.crc, raw[COVERED_SIZE..]);
    HeaderFields(m);
    var h := Header(m);
    assert h == h[0..4] + h[4..8] + h[8..12] + [h[12], h[13]] + h[14..16];
    assert raw[..HEADER_SIZE] == raw[0..4] + raw[4..8] + raw[8..12] + [raw[12], raw[13]] + raw[14..16];
    assert raw == raw[..HEADER_SIZE] + raw[HEADER_SIZE..COVERED_SIZE] + raw[COVERED_SIZE..];
  }

  // ---- creation and verification ----------------------------------------------------------------------------------

  function ZeroPadded(payload: Bytes): (p: Bytes)
    requires |payload| <= PAYLOAD_MAX
    ensures |p| == PAYLOAD_MAX && p[..|payload|] == payload
    ensures forall i :: |payload| <= i < PAYLOAD_MAX ==> p[i] == 0
  {
    payload + seq(PAYLOAD_MAX - |payload|, _ => 0)
  }

  function Created(p: Polynomial, sender: u32, sequence: u32, payload: Bytes, now: u32): (m: VitalMessage)
    requires |payload| <= PAYLOAD_MAX
    ensures Intact(p, m)
    ensures m.sender == sender && m.sequence == sequence && m.timestamp == now
    ensures m.payload == ZeroPadded(payload) && m.payloadSize == |payload| && m.padding == 0 && m.reserved == 0
  {
    var blank := MessageFields(sequence, sender, now, |payload|, 0, 0, ZeroPadded(payload), 0);
    blank.(crc := CrcOf(p, Covered(blank)))
  }

  /** The stored checksum matches the covered bytes. */
  predicate Intact(p: Polynomial, m: VitalMessage) {
    m.crc == CrcOf(p, Covered(m))
  }

  datatype Verdict = Accepted(payload: Bytes) | Rejected(status: Status)

  /** What an initialized module answers. The copy length is the size field, so a forged size beyond the payload field
      would read on into the checksum bytes behind it; callers bound it with maxSize. */
  function Verified(p: Polynomial, m: VitalMessage, expected: u32, maxSize: nat): Verdict {
    if !Intact(p, m) then Rejected(DataCorruption)
    else if m.sequence != expected then Rejected(DataCorruption)
    else if m.payloadSize > maxSize then Rejected(InvalidParam)
    else Accepted(Serialize(m)[HEADER_SIZE..HEADER_SIZE + m.payloadSize])
  }

  /** Round trip: a created message is accepted exactly under its own number, and gives back exactly its payload. */
  lemma CreatedIsVerified(p: Polynomial, sender: u32, sequence: u32, payload: Bytes, now: u32, expected: u32, maxSize: nat)
    requires |payload| <= PAYLOAD_MAX
    ensures Verified(p, Created(p, sender, sequence, payload, now), expected, maxSize)
      == if sequence != expected then Rejected(DataCorruption)
         else if |payload| > maxSize then Rejected(InvalidParam)
         else Accepted(payload)
  {
    hide Covered, Header, U64Le, CrcOf;
    var m := Created(p, sender, sequence, payload, now);
    PayloadInMemory(m, |payload|);
  }

  lemma PayloadInMemory(m: VitalMessage, n: nat)
    requires n <= PAYLOAD_MAX
    ensures Serialize(m)[HEADER_SIZE..HEADER_SIZE + n] == m.payload[..n]
  {
    hide Header, U64Le;
    assert Serialize(m) == Header(m) + m.payload + U64Le(m.crc);
  }

  /** Damage confined to a window of the covered part, as Parse sees it: the stored checksum stays. */
  lemma CoveredDamage(m: VitalMessage, raw: Bytes, from: nat, width: nat)
    requires DifferOnlyIn(Serialize(m), raw, from, width) && from + width <= COVERED_SIZE
    ensures DifferOnlyIn(Covered(m), Covered(Parse(raw)), from, width) && Parse(raw).crc == m.crc
    ensures Covered(Parse(raw)) == raw[..COVERED_SIZE] && Covered(m) == Serialize(m)[..COVERED_SIZE]
    ensures raw != Serialize(m) ==> Covered(Parse(raw)) != Covered(m)
  {
    hide Parse, U64Le, FromU64Le, Header;
    var sent := Serialize(m);
    var got := Parse(raw);
    SerializeParse(raw);
    var a, b := sent[..COVERED_SIZE], raw[..COVERED_SIZE];
    assert sent == a + sent[COVERED_SIZE..] && raw == b + raw[COVERED_SIZE..];
    assert sent[COVERED_SIZE..] == sent[from + width..][COVERED_SIZE - (from + width)..];
    assert raw[COVERED_SIZE..] == raw[from + width..][COVERED_SIZE - (from + width)..];
    assert a == Covered(m) && b == Covered(got);
    assert a[..from] == sent[..from] && b[..from] == raw[..from];
    assert a[from + width..] == sent[from + width..][..COVERED_SIZE - (from + width)];
    assert b[from + width..] == raw[from + width..][..COVERED_SIZE - (from + width)];
    assert U64Le(got.crc) == raw[COVERED_SIZE..] == U64Le(m.crc);
    U64RoundTrip(got.crc, U64Le(got.crc));
    U64RoundTrip(m.crc, U64Le(m.crc));
  }

  /** A burst of damaged bytes in the covered part of a created message, the stored checksum intact, is rejected as
      corruption whatever number and size the receiver expects: up to seven bytes under ERTMS and XZ. */
  lemma DamagedMessageRejected(p: Polynomial, m: VitalMessage, raw: Bytes, from: nat, width: nat,
                               expected: u32, maxSize: nat)
    requires Intact(p, m)
    requires DifferOnlyIn(Serialize(m), raw, from, width) && width <= BurstLimit(p) && from + width <= COVERED_SIZE
    requires raw != Serialize(m)
    ensures Verified(p, Parse(raw), expected, maxSize) == Rejected(DataCorruption)
  {
    assert |raw| == MESSAGE_SIZE;
    hide Parse, CrcOf, Serialize, Covered, DifferOnlyIn;
    CoveredDamage(m, raw, from, width);
    BurstDetected(p, Covered(m), Covered(Parse(raw)), from, width);
  }

  /** One byte more is not safe: a message damaged by the blind spot anywhere in its covered part is still intact. Under
      ISO that is a single byte. */
  lemma BlindDamageAccepted(p: Polynomial, m: VitalMessage, raw: Bytes, from: nat)
    requires Intact(p, m)
    requires DifferOnlyIn(Serialize(m), raw, from, BurstLimit(p) + 1) && from + BurstLimit(p) + 1 <= COVERED_SIZE
    requires XorBytes(Covered(m), raw[..COVERED_SIZE])[from..from + BurstLimit(p) + 1] == BlindSpot(p)
    ensures Intact(p, Parse(raw)) && Covered(Parse(raw)) != Covered(m)
  {
    assert |raw| == MESSAGE_SIZE;
    hide Parse, CrcOf, Serialize, Covered, DifferOnlyIn, BlindSpot, XorBytes;
    CoveredDamage(m, raw, from, BurstLimit(p) + 1);
    BlindSpotMissed(p, Covered(m), Covered(Parse(raw)), from);
  }

  // ---- the module -------------------------------------------------------------------------------------------------

  datatype Stats = Stats(totalChecksums: u32, passes: u32, failures: u32, sequenceErrors: u32, payloadOversize: u32)

  const ZERO_STATS := Stats(0, 0, 0, 0, 0)

  /** The module-static state; the polynomial stands for its table. */
  class Module {
    var initialized: bool
    var polynomial: Polynomial
    var stats: Stats

    constructor ()
      ensures !initialized && stats == ZERO_STATS
    {
      initialized := false;
      polynomial := Ertms;
      stats := ZERO_STATS;
    }

    /** rte_checksum_crc64_init, once; None stands for a value that names none of the three polynomials. */
    method Init(selected: Option<Polynomial>) returns (status: Status)
      modifies this
      ensures status == if old(initialized) then AlreadyInitialized else if selected.None? then InvalidParam else Ok
      ensures if status.Ok? then initialized && polynomial == selected.value && stats == ZERO_STATS
              else (initialized, polynomial, stats) == old((initialized, polynomial, stats))
    {
      if initialized {
        return AlreadyInitialized;
      }
      if selected.None? {
        return InvalidParam;
      }
      polynomial := selected.value;
      stats := ZERO_STATS;
      initialized := true;
      return Ok;
    }

    /** rte_checksum_crc64: 0, which is not a valid checksum, before initialization. */
    method Crc(data: Bytes) returns (crc: bv64)
      modifies this`stats
      ensures crc == if initialized then CrcOf(polynomial, data) else 0
      ensures stats == if initialized then old(stats).(totalChecksums := Inc32(old(stats).totalChecksums)) else old(stats)
    {
      if !initialized {
        return 0;
      }
      crc := TableDrivenCrc(polynomial, data);
      stats := stats.(totalChecksums := Inc32(stats.totalChecksums));
    }

    /** rte_checksum_crc64_verify. */
    method VerifyCrc(data: Bytes, expected: bv64) returns (status: Status)
      modifies this`stats
      ensures status == if !initialized then NotInitialized
                        else if CrcOf(polynomial, data) == expected then Ok else DataCorruption
      ensures stats == AfterCrcCheck(initialized, old(stats), status)
    {
      if !initialized {
        return NotInitialized;
      }
      var computed := Crc(data);
      if computed == expected {
        stats := stats.(passes := Inc32(stats.passes));
        status := Ok;
      } else {
        stats := stats.(failures := Inc32(stats.failures));
        status := DataCorruption;
      }
    }

    /** rte_checksum_vital_message_create. Nothing is built before initialization. */
    method Create(sender: u32, sequence: u32, payload: Bytes, now: u32) returns (status: Status, m: Option<VitalMessage>)
      modifies this`stats
      ensures status == if |payload| > PAYLOAD_MAX then InvalidParam else if !initialized then NotInitialized else Ok
      ensures m == if status.Ok? then Some(Created(polynomial, sender, sequence, payload, now)) else None
      ensures stats == if |payload| > PAYLOAD_MAX then old(stats).(payloadOversize := Inc32(old(stats).payloadOversize))
                       else if status.Ok? then old(stats).(totalChecksums := Inc32(old(stats).totalChecksums))
                       else old(stats)
    {
      if |payload| > PAYLOAD_MAX {
        stats := stats.(payloadOversize := Inc32(stats.payloadOversize));
        return InvalidParam, None;
      }
      if !initialized {
        return NotInitialized, None;
      }
      var blank: VitalMessage := MessageFields(sequence, sender, now, |payload|, 0, 0, ZeroPadded(payload), 0);
      var crc := Crc(Covered(blank));
      return Ok, Some(blank.(crc := crc));
    }

    /** rte_checksum_vital_message_verify: checksum first, then number, then size. */
    method Verify(m: VitalMessage, expected: u32, maxSize: nat) returns (verdict: Verdict)
      modifies this`stats
      ensures verdict == if initialized then Verified(polynomial, m, expected, maxSize) else Rejected(NotInitialized)
      ensures stats == AfterVerify(initialized, polynomial, old(stats), m, expected, maxSize)
    {
      var status := VerifyCrc(Covered(m), m.crc);
      if !status.Ok? {
        return Rejected(status);
      }
      if m.sequence != expected {
        stats := stats.(sequenceErrors := Inc32(stats.sequenceErrors));
        return Rejected(DataCorruption);
      }
      if m.payloadSize > maxSize {
        stats := stats.(payloadOversize := Inc32(stats.payloadOversize));
        return Rejected(InvalidParam);
      }
      return Accepted(Serialize(m)[HEADER_SIZE..HEADER_SIZE + m.payloadSize]);
    }
  }

  /** One checksum computed and one verification counted, or nothing at all before initialization. */
  function AfterCrcCheck(initialized: bool, s: Stats, status: Status): Stats {
    if !initialized then s
    else if status.Ok? then s.(totalChecksums := Inc32(s.totalChecksums), passes := Inc32(s.passes))
    else s.(totalChecksums := Inc32(s.totalChecksums), failures := Inc32(s.failures))
  }

  function AfterVerify(initialized: bool, p: Polynomial, s: Stats, m: VitalMessage, expected: u32, maxSize: nat): Stats {
    var checked := AfterCrcCheck(initialized, s, if Intact(p, m) then Ok else DataCorruption);
    if !initialized || !Intact(p, m) then checked
    else if m.sequence != expected then checked.(sequenceErrors := Inc32(checked.sequenceErrors))
    else if m.payloadSize > maxSize then checked.(payloadOversize := Inc32(checked.payloadOversize))
    else checked
  }

  /** The statistics tell what became of a message: each verification passes or fails the checksum, a pass is followed by at most
      one of the two other complaints, and the message was accepted exactly if it passed without one. */
  lemma StatsTellVerdict(p: Polynomial, s: Stats, m: VitalMessage, expected: u32, maxSize: nat)
    requires s.totalChecksums < U32_LIMIT - 1 && s.passes < U32_LIMIT - 1 && s.failures < U32_LIMIT - 1
    requires s.sequenceErrors < U32_LIMIT - 1 && s.payloadOversize < U32_LIMIT - 1
    ensures var t := AfterVerify(true, p, s, m, expected, maxSize);
      var complaints := (t.sequenceErrors - s.sequenceErrors) + (t.payloadOversize - s.payloadOversize);
      && t.totalChecksums == s.totalChecksums + 1
      && (t.passes - s.passes) + (t.failures - s.failures) == 1 && s.passes <= t.passes && s.failures <= t.failures
      && s.sequenceErrors <= t.sequenceErrors && s.payloadOversize <= t.payloadOversize
      && 0 <= complaints <= t.passes - s.passes
      && (t.passes > s.passes <==> Intact(p, m))
      && (t.sequenceErrors > s.sequenceErrors <==> Intact(p, m) && m.sequence != expected)
      && (Verified(p, m, expected, maxSize).Accepted? <==> t.passes > s.passes && complaints == 0)
    ensures AfterVerify(false, p, s, m, expected, maxSize) == s
  {
    hide Intact, Serialize;
  }
}
