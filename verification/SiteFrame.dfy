/** The byte layout of the inter-site data frame (rte_site_role.c, frame codec). */
module SiteFrame {
  import opened Words
  import opened Buffer
  import opened SiteRole

  const FRAME_OVERHEAD: nat := 7
  const STATE_OFFSET: nat := 6
  const VALID_MARKER: bv8 := 0xA5

  /** faulted | single mode | cycle, little endian | application state | valid marker. */
  function Encoded(f: WireFrame, state: Bytes): (raw: Bytes)
    ensures |raw| == FRAME_OVERHEAD + |state|
  {
    [if f.faulted then 1 else 0, ByteOf(f.singleMode)] + U32Le(f.cycle) + state + [if f.valid then VALID_MARKER else 0]
  }

  function Decoded(raw: Bytes): WireFrame
    requires |raw| >= FRAME_OVERHEAD
  {
    WireFrame(raw[0] != 0, ValueOf(raw[1]), FromU32Le(raw[2..6]), raw[|raw| - 1] == VALID_MARKER)
  }

  function StateRegion(raw: Bytes): Bytes
    requires |raw| >= FRAME_OVERHEAD
  {
    raw[STATE_OFFSET..|raw| - 1]
  }

  /** Every frame is read back as it was written, whatever the application state. */
  lemma FrameRoundTrip(f: WireFrame, state: Bytes)
    ensures Decoded(Encoded(f, state)) == f
    ensures StateRegion(Encoded(f, state)) == state
  {
    hide U32Le, FromU32Le, ByteOf, ValueOf;
    var raw := Encoded(f, state);
    assert raw[2..6] == U32Le(f.cycle);
    U32RoundTrip(f.cycle, raw[2..6]);
  }

  /** The bytes on the wire: 1 or 0, the mode, the cycle in little endian, the state, and 0xA5 or 0. */
  lemma FrameBytes(f: WireFrame, state: Bytes)
    ensures var raw := Encoded(f, state);
      && raw[0] == (if f.faulted then 1 else 0) && ValueOf(raw[1]) == f.singleMode
      && ValueOf(raw[2]) == f.cycle % 0x100 && ValueOf(raw[3]) == f.cycle / 0x100 % 0x100
      && ValueOf(raw[4]) == f.cycle / 0x1_0000 % 0x100 && ValueOf(raw[5]) == f.cycle / 0x100_0000
      && raw[6..|raw| - 1] == state && raw[|raw| - 1] == if f.valid then 0xA5 else 0
  {
    U32Digits(f.cycle);
    hide U32Le, ByteOf, ValueOf;
  }

  /** encode_frame, into the caller's buffer. The state region is what the encoder callback leaves of it after it has
      been zeroed. */
  method EncodeFrame(out: array<bv8>, f: WireFrame, state: Bytes)
    requires out.Length == FRAME_OVERHEAD + |state|
    modifies out
    ensures out[..] == Encoded(f, state)
  {
    hide U32Le, ByteOf;
    out[0] := if f.faulted then 1 else 0;
    out[1] := ByteOf(f.singleMode);
    var buffer := new ByteBuffer(out);
    var _ := buffer.SetLength(2);
    var written := buffer.WriteU32Le(f.cycle);
    assert out[..6] == [if f.faulted then 1 else 0, ByteOf(f.singleMode)] + U32Le(f.cycle);
    ghost var head := out[..6];
    var i := 0;
    while i < |state|
      invariant 0 <= i <= |state|
      invariant out[..STATE_OFFSET + i] == head + state[..i]
    {
      out[STATE_OFFSET + i] := state[i];
      i := i + 1;
    }
    assert state[..i] == state;
    out[out.Length - 1] := if f.valid then VALID_MARKER else 0;
    assert out[..] == out[..out.Length - 1] + [out[out.Length - 1]];
  }
}
