/** Snapshots of registered fields (rte_state_transfer.c). */
module StateTransfer {
  import opened Words

  const MAX_FIELDS: nat := 8

  /** What a codec answers, and the bytes it leaves at its destination, complete or not. */
  datatype Coding = Coding(status: Status, bytes: Bytes)

  /** A raw copy, or a pair of callbacks: from the live bytes to the wire, and from the wire to the live bytes, where the
      old live bytes may matter too. */
  datatype Codec = Plain | Custom(encode: Bytes -> Coding, decode: (Bytes, Bytes) -> Coding)

  /** extent live bytes at addr, size bytes in the encoded form. */
  datatype Field = Field(addr: nat, extent: nat, size: nat, codec: Codec)

  // ---- one field --------------------------------------------------------------------------------------------------

  /** The callbacks stay inside their buffers, and a raw field is as long encoded as live. */
  ghost predicate CodecOk(f: Field) {
    && f.size > 0
    && match f.codec
       case Plain => f.extent == f.size
       case Custom(encode, decode) =>
         && (forall live :: |live| == f.extent ==> |encode(live).bytes| == f.size)
         && (forall before, wire :: |before| == f.extent && |wire| == f.size ==> |decode(before, wire).bytes| == f.extent)
  }

  ghost predicate FieldOk(f: Field, memory: nat) {
    f.addr + f.extent <= memory && CodecOk(f)
  }

  /** s with the bytes written at an offset. */
  function Spliced(s: Bytes, at: nat, bytes: Bytes): (t: Bytes)
    requires at + |bytes| <= |s|
    ensures |t| == |s|
  {
    s[..at] + bytes + s[at + |bytes|..]
  }

  function Live(f: Field, m: Bytes): (live: Bytes)
    requires f.addr + f.extent <= |m|
    ensures |live| == f.extent
  {
    m[f.addr..f.addr + f.extent]
  }

  function Stored(f: Field, m: Bytes, live: Bytes): (m': Bytes)
    requires f.addr + f.extent <= |m| && |live| == f.extent
    ensures |m'| == |m|
  {
    Spliced(m, f.addr, live)
  }

  function EncodedField(f: Field, live: Bytes): Coding {
    match f.codec
    case Plain => Coding(Ok, live)
    case Custom(encode, _) => encode(live)
  }

  function DecodedField(f: Field, live: Bytes, wire: Bytes): Coding {
    match f.codec
    case Plain => Coding(Ok, wire)
    case Custom(_, decode) => decode(live, wire)
  }

  lemma CodingSizes(f: Field, live: Bytes, wire: Bytes)
    requires CodecOk(f) && |live| == f.extent && |wire| == f.size
    ensures |EncodedField(f, live).bytes| == f.size && |DecodedField(f, live, wire).bytes| == f.extent
  {}

  // ---- the registry as a whole ------------------------------------------------------------------------------------

  ghost predicate FieldsOk(fs: seq<Field>, memory: nat) {
    forall f <- fs :: FieldOk(f, memory)
  }

  /** Where the slice of field i starts: the sizes of the fields before it. */
  function Offset(fs: seq<Field>, i: nat): nat
    requires i <= |fs|
  {
    if i == 0 then 0 else Offset(fs, i - 1) + fs[i - 1].size
  }

  function EncodedSize(fs: seq<Field>): nat {
    Offset(fs, |fs|)
  }

  /** The slices are consecutive: each starts where the one before it ends, and none reaches past the encoded size. */
  lemma {:induction false} SlicesTile(fs: seq<Field>, i: nat, j: nat)
    requires i <= j <= |fs|
    ensures Offset(fs, i) <= Offset(fs, j)
    ensures i < j ==> Offset(fs, i) + fs[i].size <= Offset(fs, j)
    decreases j
  {
    if i < j {
      SlicesTile(fs, i, j - 1);
    }
  }

  /** Every byte of [0, encoded size) lies in exactly one slice. */
  lemma {:induction false} SlicesCover(fs: seq<Field>, n: nat, k: nat) returns (i: nat)
    requires n <= |fs| && k < Offset(fs, n)
    ensures i < n && Offset(fs, i) <= k < Offset(fs, i) + fs[i].size
    ensures forall j :: 0 <= j < n && Offset(fs, j) <= k < Offset(fs, j) + fs[j].size ==> j == i
  {
    if k >= Offset(fs, n - 1) {
      i := n - 1;
    } else {
      i := SlicesCover(fs, n - 1, k);
    }
    forall j | 0 <= j < n && Offset(fs, j) <= k < Offset(fs, j) + fs[j].size
      ensures j == i
    {
      if j < i {
        SlicesTile(fs, j, i);
      } else if i < j {
        SlicesTile(fs, i, j);
      }
    }
  }

  /** The slices of the first n fields. */
  function Snapshot(fs: seq<Field>, m: Bytes, n: nat): Bytes
    requires n <= |fs| && forall f <- fs :: f.addr + f.extent <= |m|
  {
    if n == 0 then [] else Snapshot(fs, m, n - 1) + EncodedField(fs[n - 1], Live(fs[n - 1], m)).bytes
  }

  /** Field n is the first whose encoder fails, or there is none among the first n. */
  ghost predicate EncodesUpTo(fs: seq<Field>, m: Bytes, n: nat)
    requires n <= |fs| && forall f <- fs :: f.addr + f.extent <= |m|
  {
    forall i :: 0 <= i < n ==> EncodedField(fs[i], Live(fs[i], m)).status.Ok?
  }

  /** Field n is the first whose encoder fails; the slices up to its own are written. */
  ghost predicate EncodeFailed(fs: seq<Field>, m: Bytes, before: Bytes, after: Bytes, n: nat, status: Status)
    requires forall f <- fs :: f.addr + f.extent <= |m|
  {
    && n < |fs| && EncodesUpTo(fs, m, n)
    && status == EncodedField(fs[n], Live(fs[n], m)).status && !status.Ok?
    && Offset(fs, n + 1) <= |before| && after == Snapshot(fs, m, n + 1) + before[Offset(fs, n + 1)..]
  }

  lemma {:induction false} SnapshotLength(fs: seq<Field>, m: Bytes, n: nat)
    requires n <= |fs| && FieldsOk(fs, |m|)
    ensures |Snapshot(fs, m, n)| == Offset(fs, n)
  {
    hide CodecOk;
    if n != 0 {
      SnapshotLength(fs, m, n - 1);
      assert fs[n - 1] in fs;
      CodingSizes(fs[n - 1], Live(fs[n - 1], m), seq(fs[n - 1].size, _ => 0));
    }
  }

  /** Memory after the first n fields were decoded from the input; a failing decoder is the last to run. */
  ghost function Restored(fs: seq<Field>, m: Bytes, input: Bytes, n: nat): (r: Coding)
    requires n <= |fs| && FieldsOk(fs, |m|) && Offset(fs, n) <= |input|
    ensures |r.bytes| == |m|
  {
    if n == 0 then Coding(Ok, m)
    else
      var before := Restored(fs, m, input, n - 1);
      var f := fs[n - 1];
      assert f in fs;
      if !before.status.Ok? then before
      else
        var c := DecodedField(f, Live(f, before.bytes), input[Offset(fs, n - 1)..Offset(fs, n)]);
        Coding(c.status, Stored(f, before.bytes, c.bytes))
  }

  // ---- the registry object ----------------------------------------------------------------------------------------

  class Registry {
    var fields: seq<Field>

    constructor ()
      ensures fields == []
    {
      fields := [];
    }

    /** rte_state_transfer_register_field_ex. Both callbacks or neither. */
    method RegisterField(addr: nat, extent: nat, size: nat, encode: Option<Bytes -> Coding>,
                         decode: Option<(Bytes, Bytes) -> Coding>)
      returns (status: Status)
      modifies this
      ensures status == if size == 0 || encode.Some? != decode.Some? then InvalidParam
                        else if |old(fields)| >= MAX_FIELDS then ResourceExhausted
                        else Ok
      ensures fields == if !status.Ok? then old(fields)
                        else if encode.None? then old(fields) + [Field(addr, extent, size, Plain)]
                        else old(fields) + [Field(addr, extent, size, Custom(encode.value, decode.value))]
    {
      if size == 0 {
        return InvalidParam;
      }
      if encode.Some? != decode.Some? {
        return InvalidParam;
      }
      if |fields| >= MAX_FIELDS {
        return ResourceExhausted;
      }
      fields := fields + [Field(addr, extent, size, CodecOf(encode, decode))];
      return Ok;
    }

    method ComputeEncodedSize() returns (total: nat)
      ensures total == EncodedSize(fields)
    {
      total := 0;
      for i := 0 to |fields|
        invariant total == Offset(fields, i)
      {
        total := total + fields[i].size;
      }
    }

    /** rte_state_transfer_encode: the snapshot and nothing behind it. A failing encoder stops the call; the slices before
        it are written. */
    method Encode(memory: array<bv8>, out: array<bv8>) returns (status: Status, len: nat)
      requires FieldsOk(fields, memory.Length) && memory != out
      modifies out
      ensures out.Length < EncodedSize(fields) ==> status.ResourceExhausted? && out[..] == old(out[..])
      ensures EncodedSize(fields) <= out.Length ==>
                if EncodesUpTo(fields, memory[..], |fields|) then
                  && status.Ok? && len == EncodedSize(fields)
                  && out[..] == Snapshot(fields, memory[..], |fields|) + old(out[..])[len..]
                else exists n :: EncodeFailed(fields, memory[..], old(out[..]), out[..], n, status)
    {
      hide CodecOk, EncodedField, Spliced, Snapshot, EncodesUpTo, EncodeFailed;
      var total := ComputeEncodedSize();
      if out.Length < total {
        return ResourceExhausted, 0;
      }
      ghost var m, rest := memory[..], out[..];
      var offset := 0;
      NothingEncoded(fields, m);
      for i := 0 to |fields|
        invariant offset == Offset(fields, i) <= total && memory[..] == m
        invariant EncodesUpTo(fields, m, i)
        invariant out[..] == Snapshot(fields, m, i) + rest[offset..]
      {
        SlicesTile(fields, i + 1, |fields|);
        var one := EncodeSlice(i, offset, memory, out, rest);
        if !one.Ok? {
          FailureStops(fields, m, rest, out[..], i, one);
          return one, 0;
        }
        offset := offset + fields[i].size;
      }
      return Ok, offset;
    }

    /** Field i is encoded into its slice; rest is what the buffer held at the start. */
    method EncodeSlice(i: nat, offset: nat, memory: array<bv8>, out: array<bv8>, ghost rest: Bytes) returns (status: Status)
      requires i < |fields| && FieldsOk(fields, memory.Length) && memory != out && |rest| == out.Length
      requires offset == Offset(fields, i) && Offset(fields, i + 1) <= out.Length && EncodesUpTo(fields, memory[..], i)
      requires out[..] == Snapshot(fields, memory[..], i) + rest[offset..]
      modifies out
      ensures out[..] == Snapshot(fields, memory[..], i + 1) + rest[Offset(fields, i + 1)..]
      ensures status.Ok? ==> EncodesUpTo(fields, memory[..], i + 1)
      ensures !status.Ok? ==> EncodeFailed(fields, memory[..], rest, out[..], i, status)
    {
      hide CodecOk, EncodedField, Spliced, Snapshot;
      var f := fields[i];
      assert f in fields;
      EncodeStep(fields, memory[..], i, rest);
      assert memory[f.addr..f.addr + f.extent] == Live(f, memory[..]);
      var c := EncodedField(f, memory[f.addr..f.addr + f.extent]);
      ghost var m := memory[..];
      CopyInto(out, offset, c.bytes);
      assert memory[..] == m;
      status := c.status;
    }

    /** rte_state_transfer_decode; input longer than needed is accepted. */
    method Decode(memory: array<bv8>, input: Bytes) returns (status: Status)
      requires FieldsOk(fields, memory.Length)
      modifies memory
      ensures |input| < EncodedSize(fields) ==> status.ResourceExhausted? && memory[..] == old(memory[..])
      ensures EncodedSize(fields) <= |input| ==>
                Coding(status, memory[..]) == Restored(fields, old(memory[..]), input, |fields|)
    {
      hide CodecOk, DecodedField, Spliced, Restored;
      var total := ComputeEncodedSize();
      if |input| < total {
        return ResourceExhausted;
      }
      ghost var m := memory[..];
      var offset := 0;
      NothingRestored(fields, m, input);
      for i := 0 to |fields|
        invariant offset == Offset(fields, i) <= total
        invariant Coding(Ok, memory[..]) == Restored(fields, m, input, i)
      {
        var f := fields[i];
        assert f in fields;
        SlicesTile(fields, i + 1, |fields|);
        RestoreStep(fields, m, input, i, memory[..]);
        var c := DecodedField(f, memory[f.addr..f.addr + f.extent], input[offset..offset + f.size]);
        CopyInto(memory, f.addr, c.bytes);
        assert Coding(c.status, memory[..]) == Restored(fields, m, input, i + 1);
        if !c.status.Ok? {
          RestoredStops(fields, m, input, i + 1);
          return c.status;
        }
        offset := offset + f.size;
      }
      return Ok;
    }
  }

  lemma FailureStops(fs: seq<Field>, m: Bytes, before: Bytes, after: Bytes, n: nat, status: Status)
    requires FieldsOk(fs, |m|) && EncodeFailed(fs, m, before, after, n, status)
    ensures !EncodesUpTo(fs, m, |fs|)
  {
    hide EncodedField, Snapshot, Offset;
  }

  lemma NothingEncoded(fs: seq<Field>, m: Bytes)
    requires FieldsOk(fs, |m|)
    ensures Snapshot(fs, m, 0) == [] && EncodesUpTo(fs, m, 0)
  {}

  lemma SpliceBehind(a: Bytes, rest: Bytes, bytes: Bytes)
    requires |a| + |bytes| <= |rest|
    ensures |a + rest[|a|..]| == |rest|
    ensures Spliced(a + rest[|a|..], |a|, bytes) == a + bytes + rest[|a| + |bytes|..]
  {
    var s := a + rest[|a|..];
    assert s[..|a|] == a && s[|a| + |bytes|..] == rest[|a| + |bytes|..];
  }

  /** One more slice lands right behind the ones before it. */
  lemma EncodeStep(fs: seq<Field>, m: Bytes, i: nat, rest: Bytes)
    requires i < |fs| && FieldsOk(fs, |m|) && Offset(fs, i + 1) <= |rest|
    ensures fs[i] in fs
    ensures var bytes := EncodedField(fs[i], Live(fs[i], m)).bytes;
      var before := Snapshot(fs, m, i) + rest[Offset(fs, i)..];
      && |bytes| == fs[i].size && |before| == |rest|
      && Spliced(before, Offset(fs, i), bytes) == Snapshot(fs, m, i + 1) + rest[Offset(fs, i + 1)..]
  {
    hide CodecOk, EncodedField, Spliced;
    SnapshotLength(fs, m, i);
    assert fs[i] in fs;
    CodingSizes(fs[i], Live(fs[i], m), seq(fs[i].size, _ => 0));
    SpliceBehind(Snapshot(fs, m, i), rest, EncodedField(fs[i], Live(fs[i], m)).bytes);
  }

  lemma NothingRestored(fs: seq<Field>, m: Bytes, input: Bytes)
    requires FieldsOk(fs, |m|)
    ensures Restored(fs, m, input, 0) == Coding(Ok, m)
  {}

  lemma RestoreStep(fs: seq<Field>, m: Bytes, input: Bytes, i: nat, now: Bytes)
    requires i < |fs| && FieldsOk(fs, |m|) && Offset(fs, i + 1) <= |input|
    requires Restored(fs, m, input, i) == Coding(Ok, now)
    ensures fs[i] in fs
    ensures var f := fs[i];
      var c := DecodedField(f, now[f.addr..f.addr + f.extent], input[Offset(fs, i)..Offset(fs, i) + f.size]);
      |c.bytes| == f.extent && Restored(fs, m, input, i + 1) == Coding(c.status, Spliced(now, f.addr, c.bytes))
  {
    hide CodecOk, DecodedField;
    var f := fs[i];
    assert f in fs;
    CodingSizes(f, now[f.addr..f.addr + f.extent], input[Offset(fs, i)..Offset(fs, i) + f.size]);
  }

  function CodecOf(encode: Option<Bytes -> Coding>, decode: Option<(Bytes, Bytes) -> Coding>): Codec {
    if encode.Some? && decode.Some? then Custom(encode.value, decode.value) else Plain
  }

  /** rte_mem_copy. */
  method CopyInto(dest: array<bv8>, at: nat, bytes: Bytes)
    requires at + |bytes| <= dest.Length
    modifies dest
    ensures dest[..] == Spliced(old(dest[..]), at, bytes)
  {
    for i := 0 to |bytes|
      invariant forall k :: 0 <= k < dest.Length ==> dest[k] == if at <= k < at + i then bytes[k - at] else old(dest[k])
    {
      dest[at + i] := bytes[i];
    }
  }

  lemma {:induction false} RestoredStops(fs: seq<Field>, m: Bytes, input: Bytes, n: nat)
    requires n <= |fs| && EncodedSize(fs) <= |input| && FieldsOk(fs, |m|)
    requires Offset(fs, n) <= |input| && !Restored(fs, m, input, n).status.Ok?
    ensures Restored(fs, m, input, |fs|) == Restored(fs, m, input, n)
    decreases |fs| - n
  {
    if n < |fs| {
      SlicesTile(fs, n + 1, |fs|);
      RestoredStops(fs, m, input, n + 1);
    }
  }

  // ---- the round trip ---------------------------------------------------------------------------------------------

  /** The decoder undoes the encoder, whatever was there before. */
  ghost predicate InversePair(f: Field) {
    forall live, before :: |live| == |before| == f.extent && EncodedField(f, live).status.Ok? ==>
      DecodedField(f, before, EncodedField(f, live).bytes) == Coding(Ok, live)
  }

  ghost predicate Disjoint(f: Field, g: Field) {
    f.addr + f.extent <= g.addr || g.addr + g.extent <= f.addr
  }

  ghost predicate PairwiseDisjoint(fs: seq<Field>) {
    forall i, j :: 0 <= i < j < |fs| ==> Disjoint(fs[i], fs[j])
  }

  /** g describes the same field at another address. */
  ghost predicate SameFormat(f: Field, g: Field) {
    f.extent == g.extent && f.size == g.size && f.codec == g.codec
  }

  ghost predicate SameFormats(fs: seq<Field>, gs: seq<Field>) {
    |fs| == |gs| && forall i :: 0 <= i < |fs| ==> SameFormat(fs[i], gs[i])
  }

  lemma {:induction false} SameOffsets(fs: seq<Field>, gs: seq<Field>, n: nat)
    requires SameFormats(fs, gs) && n <= |fs|
    ensures Offset(fs, n) == Offset(gs, n)
  {
    if n != 0 {
      SameOffsets(fs, gs, n - 1);
    }
  }

  /** The snapshot holds the encoding of field i in slice i. */
  lemma {:induction false} SliceOf(fs: seq<Field>, m: Bytes, n: nat, i: nat)
    requires i < n <= |fs| && FieldsOk(fs, |m|)
    ensures Offset(fs, i + 1) <= Offset(fs, n) == |Snapshot(fs, m, n)|
    ensures fs[i] in fs
    ensures Snapshot(fs, m, n)[Offset(fs, i)..Offset(fs, i + 1)] == EncodedField(fs[i], Live(fs[i], m)).bytes
  {
    hide CodecOk, EncodedField;
    SlicesTile(fs, i + 1, n);
    SnapshotLength(fs, m, n);
    SnapshotLength(fs, m, n - 1);
    var whole, prefix := Snapshot(fs, m, n), Snapshot(fs, m, n - 1);
    assert fs[n - 1] in fs && fs[i] in fs;
    assert whole == prefix + EncodedField(fs[n - 1], Live(fs[n - 1], m)).bytes;
    if i < n - 1 {
      SliceOf(fs, m, n - 1, i);
      assert whole[Offset(fs, i)..Offset(fs, i + 1)] == prefix[Offset(fs, i)..Offset(fs, i + 1)];
    }
  }

  /** The first n fields hold what was encoded. */
  ghost predicate FieldsRestored(fs: seq<Field>, m: Bytes, gs: seq<Field>, now: Bytes, n: nat)
    requires n <= |fs| == |gs| && FieldsOk(fs, |m|) && FieldsOk(gs, |now|)
  {
    forall i :: 0 <= i < n ==> fs[i] in fs && gs[i] in gs && Live(gs[i], now) == Live(fs[i], m)
  }

  predicate Holds(f: Field, k: nat) {
    f.addr <= k < f.addr + f.extent
  }

  /** Nothing outside the first n fields has changed. */
  ghost predicate OthersKept(gs: seq<Field>, m0: Bytes, now: Bytes, n: nat)
    requires n <= |gs| && |now| == |m0|
  {
    forall k :: 0 <= k < |m0| && (forall i :: 0 <= i < n ==> !Holds(gs[i], k)) ==> now[k] == m0[k]
  }

  lemma SplicedReads(s: Bytes, at: nat, bytes: Bytes, from: nat, n: nat)
    requires at + |bytes| <= |s| && from + n <= |s|
    ensures Spliced(s, at, bytes)[at..at + |bytes|] == bytes
    ensures from + n <= at || at + |bytes| <= from ==> Spliced(s, at, bytes)[from..from + n] == s[from..from + n]
    ensures forall k :: 0 <= k < |s| && !(at <= k < at + |bytes|) ==> Spliced(s, at, bytes)[k] == s[k]
  {
    var t := Spliced(s, at, bytes);
    assert forall k :: 0 <= k < |s| ==> t[k] == if at <= k < at + |bytes| then bytes[k - at] else s[k];
  }

  lemma StoreRestores(fs: seq<Field>, m: Bytes, gs: seq<Field>, now: Bytes, n: nat)
    requires n < |fs| == |gs| && FieldsOk(fs, |m|) && FieldsOk(gs, |now|)
    requires PairwiseDisjoint(gs) && SameFormats(fs, gs) && FieldsRestored(fs, m, gs, now, n)
    ensures fs[n] in fs && gs[n] in gs && SameFormat(fs[n], gs[n])
    ensures FieldsRestored(fs, m, gs, Spliced(now, gs[n].addr, Live(fs[n], m)), n + 1)
  {
    hide CodecOk, Spliced;
    assert fs[n] in fs && gs[n] in gs && SameFormat(fs[n], gs[n]);
    var live := Live(fs[n], m);
    forall i | 0 <= i < n + 1
      ensures fs[i] in fs && gs[i] in gs && Live(gs[i], Spliced(now, gs[n].addr, live)) == Live(fs[i], m)
    {
      SplicedReads(now, gs[n].addr, live, gs[i].addr, gs[i].extent);
      if i < n {
        assert Disjoint(gs[i], gs[n]);
      }
    }
  }

  lemma StoreKeepsOthers(gs: seq<Field>, m0: Bytes, now: Bytes, live: Bytes, n: nat)
    requires n < |gs| && |now| == |m0| && gs[n].addr + gs[n].extent <= |m0| && |live| == gs[n].extent
    requires OthersKept(gs, m0, now, n)
    ensures OthersKept(gs, m0, Spliced(now, gs[n].addr, live), n + 1)
  {
    hide Spliced;
    SplicedReads(now, gs[n].addr, live, 0, 0);
    forall k | 0 <= k < |m0| && forall i :: 0 <= i < n + 1 ==> !Holds(gs[i], k)
      ensures Spliced(now, gs[n].addr, live)[k] == m0[k]
    {
      assert !Holds(gs[n], k);
    }
  }

  /** The input starts with the snapshot, whatever follows it. */
  ghost predicate StartsWithSnapshot(input: Bytes, fs: seq<Field>, m: Bytes)
    requires FieldsOk(fs, |m|)
  {
    Snapshot(fs, m, |fs|) <= input
  }

  lemma SliceOfInput(fs: seq<Field>, m: Bytes, gs: seq<Field>, input: Bytes, n: nat)
    requires FieldsOk(fs, |m|) && SameFormats(fs, gs) && n < |fs| && StartsWithSnapshot(input, fs, m)
    ensures Offset(gs, n) <= Offset(gs, n + 1) <= |input| && Offset(gs, n + 1) == Offset(gs, n) + gs[n].size
    ensures fs[n] in fs && SameFormat(fs[n], gs[n])
    ensures input[Offset(gs, n)..Offset(gs, n + 1)] == EncodedField(fs[n], Live(fs[n], m)).bytes
  {
    hide CodecOk, EncodedField, Snapshot;
    SameOffsets(fs, gs, n);
    SameOffsets(fs, gs, n + 1);
    SliceOf(fs, m, |fs|, n);
    var whole := Snapshot(fs, m, |fs|);
    assert input[Offset(gs, n)..Offset(gs, n + 1)] == whole[Offset(fs, n)..Offset(fs, n + 1)];
  }

  /** Decoding slice n of the snapshot stores field n's live bytes. */
  lemma RestoreOne(fs: seq<Field>, m: Bytes, gs: seq<Field>, m0: Bytes, input: Bytes, n: nat, now: Bytes)
    requires FieldsOk(fs, |m|) && FieldsOk(gs, |m0|) && SameFormats(fs, gs) && n < |fs|
    requires EncodesUpTo(fs, m, |fs|) && InversePair(fs[n]) && StartsWithSnapshot(input, fs, m)
    requires Offset(gs, n) <= |input| && Restored(gs, m0, input, n) == Coding(Ok, now)
    ensures fs[n] in fs && gs[n] in gs && SameFormat(fs[n], gs[n]) && Offset(gs, n + 1) <= |input|
    ensures Restored(gs, m0, input, n + 1) == Coding(Ok, Spliced(now, gs[n].addr, Live(fs[n], m)))
  {
    SliceOfInput(fs, m, gs, input, n);
    assert gs[n] in gs && EncodedField(fs[n], Live(fs[n], m)).status.Ok?;
    hide CodecOk, EncodedField, DecodedField, InversePair, Spliced, Restored, Snapshot, Offset, SameFormats, EncodesUpTo;
    RestoreStep(gs, m0, input, n, now);
    Undone(fs[n], gs[n], Live(fs[n], m), now[gs[n].addr..gs[n].addr + gs[n].extent]);
  }

  ghost predicate RestoredTo(fs: seq<Field>, m: Bytes, gs: seq<Field>, m0: Bytes, r: Coding, n: nat)
    requires n <= |fs| == |gs| && FieldsOk(fs, |m|) && FieldsOk(gs, |m0|)
  {
    && r.status.Ok? && |r.bytes| == |m0|
    && FieldsRestored(fs, m, gs, r.bytes, n) && OthersKept(gs, m0, r.bytes, n)
  }

  lemma NothingRestoredYet(fs: seq<Field>, m: Bytes, gs: seq<Field>, m0: Bytes, input: Bytes)
    requires |fs| == |gs| && FieldsOk(fs, |m|) && FieldsOk(gs, |m0|)
    ensures Offset(gs, 0) == 0 && RestoredTo(fs, m, gs, m0, Restored(gs, m0, input, 0), 0)
  {
    hide FieldsOk;
  }

  lemma RestoreNext(fs: seq<Field>, m: Bytes, gs: seq<Field>, m0: Bytes, input: Bytes, n: nat)
    requires FieldsOk(fs, |m|) && FieldsOk(gs, |m0|) && SameFormats(fs, gs) && PairwiseDisjoint(gs) && n < |fs|
    requires EncodesUpTo(fs, m, |fs|) && InversePair(fs[n]) && StartsWithSnapshot(input, fs, m)
    requires Offset(gs, n) <= |input| && RestoredTo(fs, m, gs, m0, Restored(gs, m0, input, n), n)
    ensures Offset(gs, n + 1) <= |input| && RestoredTo(fs, m, gs, m0, Restored(gs, m0, input, n + 1), n + 1)
  {
    hide CodecOk, InversePair, EncodesUpTo, PairwiseDisjoint, OthersKept, Spliced, FieldsRestored, Restored, Snapshot, Offset,
      StartsWithSnapshot;
    var now := Restored(gs, m0, input, n).bytes;
    RestoreOne(fs, m, gs, m0, input, n, now);
    StoreRestores(fs, m, gs, now, n);
    StoreKeepsOthers(gs, m0, now, Live(fs[n], m), n);
  }

  /** Round trip: decoding a snapshot, with anything behind it, into a registry with the same formats and disjoint fields
      restores every field and touches nothing else. */
  lemma {:induction false} SnapshotRoundTrip(fs: seq<Field>, m: Bytes, gs: seq<Field>, m0: Bytes, input: Bytes, n: nat)
    requires FieldsOk(fs, |m|) && FieldsOk(gs, |m0|) && SameFormats(fs, gs) && PairwiseDisjoint(gs) && n <= |fs|
    requires EncodesUpTo(fs, m, |fs|) && (forall f <- fs :: InversePair(f)) && StartsWithSnapshot(input, fs, m)
    ensures Offset(gs, n) <= |input| && RestoredTo(fs, m, gs, m0, Restored(gs, m0, input, n), n)
  {
    hide FieldsOk, InversePair, EncodesUpTo, PairwiseDisjoint, Snapshot, StartsWithSnapshot, RestoredTo, Restored, Offset;
    if n == 0 {
      NothingRestoredYet(fs, m, gs, m0, input);
    } else {
      SnapshotRoundTrip(fs, m, gs, m0, input, n - 1);
      assert fs[n - 1] in fs;
      RestoreNext(fs, m, gs, m0, input, n - 1);
    }
  }

  lemma Undone(f: Field, g: Field, live: Bytes, before: Bytes)
    requires InversePair(f) && SameFormat(f, g) && |live| == |before| == f.extent && EncodedField(f, live).status.Ok?
    ensures DecodedField(g, before, EncodedField(f, live).bytes) == Coding(Ok, live)
  {}
}
