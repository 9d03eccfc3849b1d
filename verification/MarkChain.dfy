/** The chain of checkpoint marks: how a cycle's path ends up in its rendezvous number (rte_appmanager.c). */
module MarkChain {
  import opened Words
  import opened Buffer
  import opened Polynomials
  import opened Crc64
  import opened BurstDetection

  const SIGNATURE_SEED: bv64 := 0xFFFF_FFFF_FFFF_FFFF
  const MARK_TEXT_MAX: nat := 127

  /** One mark: its text, and what the checksum module is initialized for at that moment, if it is. */
  datatype Mark = Mark(text: Bytes, checksum: Option<Polynomial>)

  /** What fits into the text buffer. */
  function HashedText(text: Bytes): Bytes {
    if |text| <= MARK_TEXT_MAX then text else text[..MARK_TEXT_MAX]
  }

  /** A text of up to 127 bytes is hashed whole, of a longer one the first 127. */
  lemma HashedPrefix(text: Bytes)
    ensures HashedText(text) <= text && |HashedText(text)| == if |text| > 127 then 127 else |text|
  {}

  /** rte_checksum_crc64: 0 before initialization. */
  function Checked(checksum: Option<Polynomial>, data: Bytes): bv64 {
    if checksum.Some? then CrcOf(checksum.value, data) else 0
  }

  /** One link of the chain: the signature so far and the mark's own checksum, as sixteen bytes. */
  function Folded(signature: bv64, hash: bv64): Bytes {
    U64Le(signature) + U64Le(hash)
  }

  function MarkedSignature(signature: bv64, mark: Mark): bv64 {
    Checked(mark.checksum, Folded(signature, Checked(mark.checksum, HashedText(mark.text))))
  }

  function SignatureAfter(signature: bv64, marks: seq<Mark>): bv64 {
    if marks == [] then signature
    else MarkedSignature(SignatureAfter(signature, marks[..|marks| - 1]), marks[|marks| - 1])
  }

  function Xor32(a: bv32, b: bv32): bv32 {
    a ^ b
  }

  function LowHalf(signature: bv64): bv32 {
    (signature & 0xFFFF_FFFF) as bv32
  }

  function HighHalf(signature: bv64): bv32 {
    (signature >> 32) as bv32
  }

  /** rte_appmanager_checkpoint_fold_signature. */
  function FoldSignature(signature: bv64): bv32 {
    Xor32(LowHalf(signature), HighHalf(signature))
  }

  lemma {:induction false} SignatureConcat(signature: bv64, xs: seq<Mark>, ys: seq<Mark>)
    ensures SignatureAfter(signature, xs + ys) == SignatureAfter(SignatureAfter(signature, xs), ys)
    decreases |ys|
  {
    hide MarkedSignature;
    if ys == [] {
      assert xs + ys == xs;
    } else {
      var n := |ys| - 1;
      SignatureConcat(signature, xs, ys[..n]);
      assert (xs + ys)[..|xs| + n] == xs + ys[..n];
    }
  }

  // ---- a difference is never forgotten ----------------------------------------------------------------------------

  /** Two different numbers whose difference fits the register. */
  predicate DifferSlightly(x: bv64, y: bv64) {
    x != y && Xor(x, y) < REGISTER_LIMIT
  }

  lemma NarrowStep8(poly: bv64, c: bv64, b: bv64)
    requires poly < REGISTER_LIMIT && b < 0x100
    ensures Step8(poly, Xor(c, b)) < REGISTER_LIMIT
  {
    hide Xor;
    var c0 := Xor(c, b);
    var c1 := Step(poly, c0);
    var c2 := Step(poly, c1);
    var c3 := Step(poly, c2);
    assert c1 < 0x8000000000000000 && c2 < 0x4000000000000000 && c3 < REGISTER_LIMIT;
    NarrowStep(poly, c3);
    NarrowStep(poly, Step(poly, c3));
    NarrowStep(poly, Step(poly, Step(poly, c3)));
    NarrowStep(poly, Step(poly, Step(poly, Step(poly, c3))));
    NarrowStep(poly, Step(poly, Step(poly, Step(poly, Step(poly, c3)))));
    hide Step;
  }

  lemma NarrowStep(poly: bv64, c: bv64)
    requires poly < REGISTER_LIMIT && c < REGISTER_LIMIT
    ensures Step(poly, c) < REGISTER_LIMIT
  {}

  /** After one byte the register has its 61 bits. */
  lemma {:induction false} NarrowRegister(poly: bv64, c: bv64, data: Bytes)
    requires poly < REGISTER_LIMIT && (data != [] || c < REGISTER_LIMIT)
    ensures Register(poly, c, data) < REGISTER_LIMIT
    decreases |data|
  {
    hide Step8, ShiftBits, Xor;
    if data != [] {
      RegisterStep(poly, c, data);
      ByteIsSmall(data[0]);
      NarrowStep8(poly, c, data[0] as bv64);
      NarrowRegister(poly, Step8(poly, Xor(c, data[0] as bv64)), data[1..]);
    }
  }

  lemma ByteIsSmall(b: bv8)
    ensures b as bv64 < 0x100
  {}

  lemma NarrowXor(x: bv64, y: bv64)
    requires x < REGISTER_LIMIT && y < REGISTER_LIMIT
    ensures Xor(Xor(x, ALL_ONES), Xor(y, ALL_ONES)) < REGISTER_LIMIT
  {}

  /** Different checksums of bytes that are there differ only in the register's bits. */
  lemma ChecksumsDifferSlightly(p: Polynomial, a: Bytes, b: Bytes)
    requires !p.Iso? && a != [] && b != [] && CrcOf(p, a) != CrcOf(p, b)
    ensures DifferSlightly(CrcOf(p, a), CrcOf(p, b))
  {
    NarrowRegister(Poly(p), ALL_ONES, a);
    NarrowRegister(Poly(p), ALL_ONES, b);
    NarrowXor(Register(Poly(p), ALL_ONES, a), Register(Poly(p), ALL_ONES, b));
    hide Register, Xor, Poly;
  }

  lemma PushByteXor(x: bv8, y: bv8, v: bv64, w: bv64)
    ensures PushByte(XorByte(x, y), Xor(v, w)) == Xor(PushByte(x, v), PushByte(y, w))
  {}

  lemma {:induction false} PackXor(a: Bytes, b: Bytes)
    requires |a| == |b|
    ensures Pack(XorBytes(a, b)) == Xor(Pack(a), Pack(b))
    decreases |a|
  {
    if a == [] {
      XorSelf(0);
    } else {
      hide PushByte, Xor, XorByte;
      var d := XorBytes(a, b);
      assert d[1..] == XorBytes(a[1..], b[1..]);
      PackXor(a[1..], b[1..]);
      PushByteXor(a[0], b[0], Pack(a[1..]), Pack(b[1..]));
    }
  }

  /** The bytes in which two words differ. */
  function WordXor(x: bv64, y: bv64): (w: Bytes)
    ensures |w| == 8
  {
    XorBytes(U64Le(x), U64Le(y))
  }

  lemma WordXorPacked(x: bv64, y: bv64)
    ensures Pack(WordXor(x, y)) == Xor(x, y)
  {
    hide Pack, XorBytes, U64Le, FromU64Le, Xor;
    PackXor(U64Le(x), U64Le(y));
    PackEight(U64Le(x));
    PackEight(U64Le(y));
    U64RoundTrip(x, U64Le(x));
    U64RoundTrip(y, U64Le(y));
  }

  lemma SameWord(x: bv64)
    ensures AllZero(WordXor(x, x))
  {
    hide XorByte, XorBytes;
    forall i | 0 <= i < 8
      ensures WordXor(x, x)[i] == 0
    {
      XorByteZero(U64Le(x)[i], U64Le(x)[i]);
    }
  }

  lemma XorSelf(x: bv64)
    ensures Xor(x, x) == 0
  {}

  lemma XorBytesConcat(a: Bytes, b: Bytes, c: Bytes, d: Bytes)
    requires |a| == |b| && |c| == |d|
    ensures XorBytes(a + c, b + d) == XorBytes(a, b) + XorBytes(c, d)
  {
    hide XorByte, XorBytes;
    var x, y := XorBytes(a + c, b + d), XorBytes(a, b) + XorBytes(c, d);
    forall i | 0 <= i < |x|
      ensures x[i] == y[i]
    {
      assert x[i] == XorByte((a + c)[i], (b + d)[i]);
    }
  }

  lemma FoldedXor(x: bv64, y: bv64, h: bv64, k: bv64)
    ensures XorBytes(Folded(x, h), Folded(y, k)) == WordXor(x, y) + WordXor(h, k)
  {
    hide U64Le, XorBytes;
    XorBytesConcat(U64Le(x), U64Le(y), U64Le(h), U64Le(k));
  }

  /** A small difference of two words, fed into the empty register, stays. */
  lemma WordInRegister(poly: bv64, x: bv64, y: bv64)
    requires IsWide(poly) && DifferSlightly(x, y)
    ensures 0 != Register(poly, 0, WordXor(x, y)) < REGISTER_LIMIT
  {
    hide WordXor, Register, Xor, IsWide, Pack;
    var w := WordXor(x, y);
    WindowIsPacked(poly, 0, w);
    XorZero(Pack(w));
    WordXorPacked(x, y);
    XorCancel(x, y);
    StepsKernel(poly, 8 * |w|, Xor(x, y));
  }

  lemma SameLength(x: bv64, h: bv64, y: bv64, k: bv64)
    ensures |Folded(x, h)| == |Folded(y, k)| == 16
  {}

  /** A link keeps a small difference in either of its words. */
  lemma LinkKeepsDifference(p: Polynomial, x: bv64, y: bv64, h: bv64, k: bv64)
    requires !p.Iso?
    requires (x == y && DifferSlightly(h, k)) || (h == k && DifferSlightly(x, y))
    ensures DifferSlightly(CrcOf(p, Folded(x, h)), CrcOf(p, Folded(y, k)))
  {
    hide WordXor, Register, Xor, IsWide, Poly, CrcOf, AllZero, DifferSlightly, Folded;
    var poly := Poly(p);
    WideEnough(p);
    FoldedXor(x, y, h, k);
    RegisterConcat(poly, 0, WordXor(x, y), WordXor(h, k));
    if x == y && DifferSlightly(h, k) {
      SameWord(x);
      ZerosFromZero(poly, WordXor(x, x));
      WordInRegister(poly, h, k);
    } else {
      SameWord(h);
      WordInRegister(poly, x, y);
      ZerosKeepDifference(poly, Register(poly, 0, WordXor(x, y)), WordXor(h, h));
    }
    SameLength(x, h, y, k);
    SameCrc(p, Folded(x, h), Folded(y, k));
    ChecksumsDifferSlightly(p, Folded(x, h), Folded(y, k));
  }

  /** The texts of two marks, as far as they are hashed, differ in a burst of up to seven bytes. */
  ghost predicate TextsDiverge(a: Mark, b: Mark, from: nat, width: nat) {
    DifferOnlyIn(HashedText(a.text), HashedText(b.text), from, width) && width <= WINDOW
    && HashedText(a.text) != HashedText(b.text)
  }

  lemma HashesDiffer(p: Polynomial, a: Bytes, b: Bytes, from: nat, width: nat)
    requires !p.Iso? && DifferOnlyIn(a, b, from, width) && width <= WINDOW && a != b
    ensures DifferSlightly(CrcOf(p, a), CrcOf(p, b))
  {
    hide CrcOf;
    BurstDetected(p, a, b, from, width);
    ChecksumsDifferSlightly(p, a, b);
  }

  lemma {:induction false} RestKeepsDifference(p: Polynomial, x: bv64, y: bv64, marks: seq<Mark>)
    requires !p.Iso? && DifferSlightly(x, y) && forall m <- marks :: m.checksum == Some(p)
    ensures DifferSlightly(SignatureAfter(x, marks), SignatureAfter(y, marks))
    decreases |marks|
  {
    hide DifferSlightly, CrcOf, Folded;
    if marks != [] {
      var n := |marks| - 1;
      assert marks[n] in marks;
      RestKeepsDifference(p, x, y, marks[..n]);
      var h := Checked(Some(p), HashedText(marks[n].text));
      LinkKeepsDifference(p, SignatureAfter(x, marks[..n]), SignatureAfter(y, marks[..n]), h, h);
    }
  }

  /** Two paths that part in a single mark never end in the same signature, whatever marks came before and follow. */
  lemma DivergenceIsKept(p: Polynomial, signature: bv64, before: seq<Mark>, a: Mark, b: Mark, rest: seq<Mark>,
                         from: nat, width: nat)
    requires !p.Iso? && a.checksum == b.checksum == Some(p) && forall m <- rest :: m.checksum == Some(p)
    requires TextsDiverge(a, b, from, width)
    ensures SignatureAfter(signature, before + [a] + rest) != SignatureAfter(signature, before + [b] + rest)
  {
    hide CrcOf, Folded, HashedText, DifferSlightly;
    var s := SignatureAfter(signature, before);
    var h, k := CrcOf(p, HashedText(a.text)), CrcOf(p, HashedText(b.text));
    HashesDiffer(p, HashedText(a.text), HashedText(b.text), from, width);
    LinkKeepsDifference(p, s, s, h, k);
    LastMark(signature, before, a);
    LastMark(signature, before, b);
    RestKeepsDifference(p, MarkedSignature(s, a), MarkedSignature(s, b), rest);
    SignatureConcat(signature, before + [a], rest);
    SignatureConcat(signature, before + [b], rest);
    SlightlyIsDifferent(SignatureAfter(MarkedSignature(s, a), rest), SignatureAfter(MarkedSignature(s, b), rest));
  }

  lemma LastMark(signature: bv64, before: seq<Mark>, a: Mark)
    ensures SignatureAfter(signature, before + [a]) == MarkedSignature(SignatureAfter(signature, before), a)
  {
    hide MarkedSignature;
    assert (before + [a])[..|before|] == before;
  }

  lemma SlightlyIsDifferent(x: bv64, y: bv64)
    requires DifferSlightly(x, y)
    ensures x != y
  {}

  /** The number is made of the whole signature: its halves give it back. */
  lemma HalvesRebuild(signature: bv64)
    ensures (LowHalf(signature) as bv64) | ((HighHalf(signature) as bv64) << 32) == signature
  {}

  lemma CancelFirst(a: bv32, b: bv32, c: bv32)
    ensures Xor32(Xor32(a, b), Xor32(b, c)) == Xor32(a, c)
  {}

  lemma CancelSecond(a: bv32, b: bv32, c: bv32)
    ensures Xor32(Xor32(a, b), Xor32(c, a)) == Xor32(c, b)
  {}

  lemma HalvesExchange(a: bv32, b: bv32, c: bv32, d: bv32)
    requires Xor32(a, b) == Xor32(c, d)
    ensures Xor32(a, c) == Xor32(b, d)
  {
    CancelFirst(a, b, c);
    CancelSecond(c, d, b);
    hide Xor32;
  }

  /** The rendezvous compares the number folded to 32 bits, which misses exactly the differences whose halves are equal. */
  lemma FoldMisses(s: bv64, t: bv64)
    ensures FoldSignature(s) == FoldSignature(t) <==> Xor32(LowHalf(s), LowHalf(t)) == Xor32(HighHalf(s), HighHalf(t))
  {
    hide LowHalf, HighHalf, Xor32;
    if FoldSignature(s) == FoldSignature(t) {
      HalvesExchange(LowHalf(s), HighHalf(s), LowHalf(t), HighHalf(t));
    } else if Xor32(LowHalf(s), LowHalf(t)) == Xor32(HighHalf(s), HighHalf(t)) {
      HalvesExchange(LowHalf(s), LowHalf(t), HighHalf(s), HighHalf(t));
    }
  }

  /** Without an initialized module every path has the same signature, and so the same rendezvous number. */
  lemma UncheckedPathsLookAlike(signature: bv64, marks: seq<Mark>)
    requires marks != [] && marks[|marks| - 1].checksum.None?
    ensures SignatureAfter(signature, marks) == 0
  {}
}
