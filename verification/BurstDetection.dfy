/** What each checksum is guaranteed to detect: the longest burst of damaged bytes that never goes unnoticed. */
module BurstDetection {
  import opened Words
  import opened Buffer
  import opened Polynomials
  import opened Crc64

  /** The longest window that fits the register of the wide polynomials, in bytes. */
  const WINDOW: nat := 7

  /** Their register is 61 bits wide: values below this stay below it and steps are invertible there. */
  const REGISTER_LIMIT: bv64 := 0x2000000000000000

  predicate IsWide(poly: bv64) {
    0x1000000000000000 <= poly < REGISTER_LIMIT
  }

  /** The longest burst, in bytes, that is always detected. The register of the ISO polynomial has five bits, too few for a
      single byte. */
  function BurstLimit(p: Polynomial): nat {
    if p.Iso? then 0 else WINDOW
  }

  /** Two byte strings of one length that agree outside the window [from, from + width). */
  ghost predicate DifferOnlyIn(a: Bytes, b: Bytes, from: nat, width: nat) {
    && |a| == |b|
    && from + width <= |a|
    && a[..from] == b[..from]
    && a[from + width..] == b[from + width..]
  }

  function XorByte(x: bv8, y: bv8): bv8 {
    x ^ y
  }

  function XorBytes(a: Bytes, b: Bytes): (d: Bytes)
    requires |a| == |b|
    ensures |d| == |a|
    ensures forall i :: 0 <= i < |a| ==> d[i] == XorByte(a[i], b[i])
    decreases |a|
  {
    hide XorByte;
    if a == [] then [] else [XorByte(a[0], b[0])] + XorBytes(a[1..], b[1..])
  }

  // ---- the register is linear in its state and its input ----------------------------------------------------------

  lemma RegisterStep(poly: bv64, c: bv64, data: Bytes)
    requires data != []
    ensures Register(poly, c, data) == Register(poly, Step8(poly, Xor(c, data[0] as bv64)), data[1..])
  {
    hide Step8, Xor, ShiftBits;
    ShiftByte(poly, c, data[0]);
  }

  lemma XorByteWiden(x: bv8, y: bv8)
    ensures XorByte(x, y) as bv64 == Xor(x as bv64, y as bv64)
  {}

  lemma XorSwap(c: bv64, d: bv64, x: bv64, y: bv64)
    ensures Xor(Xor(c, x), Xor(d, y)) == Xor(Xor(c, d), Xor(x, y))
  {
    hide Xor;
    XorAssoc(c, x, Xor(d, y));
    XorAssoc(x, d, y);
    XorComm(x, d);
    XorAssoc(d, x, y);
    XorAssoc(c, d, Xor(x, y));
  }

  lemma {:induction false} RegisterXor(poly: bv64, c: bv64, d: bv64, a: Bytes, b: Bytes)
    requires |a| == |b|
    ensures Xor(Register(poly, c, a), Register(poly, d, b)) == Register(poly, Xor(c, d), XorBytes(a, b))
    decreases |a|
  {
    if a != [] {
      hide Step8, Xor, ShiftBits, XorByte;
      var x := XorBytes(a, b);
      RegisterStep(poly, c, a);
      RegisterStep(poly, d, b);
      RegisterStep(poly, Xor(c, d), x);
      Step8Xor(poly, Xor(c, a[0] as bv64), Xor(d, b[0] as bv64));
      XorByteWiden(a[0], b[0]);
      XorSwap(c, d, a[0] as bv64, b[0] as bv64);
      assert x[1..] == XorBytes(a[1..], b[1..]);
      RegisterXor(poly, Step8(poly, Xor(c, a[0] as bv64)), Step8(poly, Xor(d, b[0] as bv64)), a[1..], b[1..]);
    }
  }

  lemma {:induction false} RegisterConcat(poly: bv64, c: bv64, x: Bytes, y: Bytes)
    ensures Register(poly, c, x + y) == Register(poly, Register(poly, c, x), y)
    decreases |x|
  {
    hide ShiftBits;
    if x == [] {
      assert x + y == y;
    } else {
      assert (x + y)[1..] == x[1..] + y;
      RegisterConcat(poly, ShiftBits(poly, 8, c, x[0] as bv64), x[1..], y);
    }
  }

  // ---- the register never forgets a nonzero 61-bit difference -----------------------------------------------------

  lemma StepKernel(poly: bv64, c: bv64)
    requires IsWide(poly) && c < REGISTER_LIMIT
    ensures Step(poly, c) < REGISTER_LIMIT
    ensures Step(poly, c) == 0 ==> c == 0
  {}

  lemma {:induction false} StepsKernel(poly: bv64, n: nat, c: bv64)
    requires IsWide(poly) && c < REGISTER_LIMIT && c != 0
    ensures Steps(poly, n, c) < REGISTER_LIMIT && Steps(poly, n, c) != 0
    decreases n
  {
    hide Step;
    if n != 0 {
      StepKernel(poly, c);
      StepsKernel(poly, n - 1, Step(poly, c));
    }
  }

  ghost predicate AllZero(data: Bytes) {
    forall i :: 0 <= i < |data| ==> data[i] == 0
  }

  lemma ZeroByteStep(poly: bv64, c: bv64, data: Bytes)
    requires data != [] && data[0] == 0
    ensures Register(poly, c, data) == Register(poly, Steps(poly, 8, c), data[1..])
  {
    RegisterStep(poly, c, data);
    hide Step8, Step;
    XorZero(c);
    Steps8(poly, c);
  }

  lemma {:induction false} ZerosKeepDifference(poly: bv64, c: bv64, data: Bytes)
    requires AllZero(data)
    requires IsWide(poly) && c < REGISTER_LIMIT && c != 0
    ensures Register(poly, c, data) != 0
    decreases |data|
  {
    hide Step, ShiftBits;
    if data != [] {
      ZeroByteStep(poly, c, data);
      StepsKernel(poly, 8, c);
      ZerosKeepDifference(poly, Steps(poly, 8, c), data[1..]);
    }
  }

  lemma {:induction false} StepsOfZero(poly: bv64, n: nat)
    ensures Steps(poly, n, 0) == 0
    decreases n
  {
    if n != 0 {
      StepsOfZero(poly, n - 1);
    }
  }

  lemma {:induction false} ZerosFromZero(poly: bv64, data: Bytes)
    requires AllZero(data)
    ensures Register(poly, 0, data) == 0
    decreases |data|
  {
    hide Step, ShiftBits;
    if data != [] {
      ZeroByteStep(poly, 0, data);
      StepsOfZero(poly, 8);
      ZerosFromZero(poly, data[1..]);
    }
  }

  // ---- a window as one number -------------------------------------------------------------------------------------

  function PushByte(b: bv8, v: bv64): bv64 {
    Xor(b as bv64, v << 8)
  }

  /** Up to eight bytes as a little-endian number. */
  function Pack(w: Bytes): bv64
    decreases |w|
  {
    if w == [] then 0 else PushByte(w[0], Pack(w[1..]))
  }

  /** v has at most n bytes. */
  predicate Fits(n: nat, v: bv64)
    requires n <= 7
  {
    match n
    case 0 => v == 0
    case 1 => v < 0x100
    case 2 => v < 0x10000
    case 3 => v < 0x1000000
    case 4 => v < 0x100000000
    case 5 => v < 0x10000000000
    case 6 => v < 0x1000000000000
    case _ => v < 0x100000000000000
  }

  lemma FitsStep(n: nat, b: bv8, v: bv64)
    requires n <= 6 && Fits(n, v)
    ensures Fits(n + 1, PushByte(b, v))
  {}

  lemma FitsSeven(n: nat, v: bv64)
    requires n <= 7 && Fits(n, v)
    ensures v < 0x100000000000000
  {}

  lemma {:induction false} PackFits(w: Bytes)
    requires |w| <= WINDOW
    ensures Fits(|w|, Pack(w))
    decreases |w|
  {
    if w == [] {
    } else {
      hide Fits, PushByte;
      PackFits(w[1..]);
      FitsStep(|w| - 1, w[0], Pack(w[1..]));
    }
  }

  lemma PushByteZero(n: nat, b: bv8, v: bv64)
    requires n <= 7 && Fits(n, v)
    requires PushByte(b, v) == 0
    ensures b == 0 && v == 0
  {}

  lemma {:induction false} PackZero(w: Bytes)
    requires |w| <= WINDOW
    requires Pack(w) == 0
    ensures AllZero(w)
    decreases |w|
  {
    hide PushByte, Fits;
    if w != [] {
      PackFits(w[1..]);
      PushByteZero(|w| - 1, w[0], Pack(w[1..]));
      PackZero(w[1..]);
    }
  }

  lemma PushByteShift(poly: bv64, n: nat, c: bv64, b: bv8, v: bv64)
    requires n <= 7 && Fits(n, v)
    ensures Step8(poly, Xor(c, PushByte(b, v))) == Xor(Step8(poly, Xor(c, b as bv64)), v)
  {
    FitsSeven(n, v);
    Step8Shift(poly, v);
    PushByteSplit(c, b, v);
    hide Step8, Xor, PushByte, Fits;
    Step8Xor(poly, Xor(c, b as bv64), v << 8);
  }

  lemma PushByteSplit(c: bv64, b: bv8, v: bv64)
    ensures Xor(c, PushByte(b, v)) == Xor(Xor(c, b as bv64), v << 8)
  {}

  /** Feeding a window of up to eight bytes is stepping its packed number, exclusive-ored into the state. */
  lemma {:induction false} WindowIsPacked(poly: bv64, c: bv64, w: Bytes)
    requires |w| <= WINDOW + 1
    ensures Register(poly, c, w) == Steps(poly, 8 * |w|, Xor(c, Pack(w)))
    decreases |w|
  {
    hide Xor, Step, Step8, ShiftBits, PushByte, Fits;
    if w == [] {
      XorZero(c);
    } else {
      var head := Step8(poly, Xor(c, w[0] as bv64));
      RegisterStep(poly, c, w);
      WindowIsPacked(poly, head, w[1..]);
      PackFits(w[1..]);
      PushByteShift(poly, |w| - 1, c, w[0], Pack(w[1..]));
      Steps8(poly, Xor(c, Pack(w)));
      StepsAdd(poly, 8, 8 * (|w| - 1), Xor(c, Pack(w)));
    }
  }

  // ---- detection --------------------------------------------------------------------------------------------------

  lemma XorByteZero(x: bv8, y: bv8)
    ensures XorByte(x, y) == 0 <==> x == y
  {}

  lemma XorBytesZero(a: Bytes, b: Bytes, i: nat)
    requires |a| == |b| && i < |a|
    ensures XorBytes(a, b)[i] == 0 <==> a[i] == b[i]
  {
    hide XorByte;
    XorByteZero(a[i], b[i]);
  }

  lemma EqualRangeXorsToZero(a: Bytes, b: Bytes, lo: nat, hi: nat)
    requires |a| == |b| && lo <= hi <= |a|
    ensures AllZero(XorBytes(a, b)[lo..hi]) <==> a[lo..hi] == b[lo..hi]
  {
    hide XorByte, XorBytes;
    var range := XorBytes(a, b)[lo..hi];
    forall i | 0 <= i < hi - lo
      ensures range[i] == 0 <==> a[lo..hi][i] == b[lo..hi][i]
    {
      XorBytesZero(a, b, lo + i);
    }
    if AllZero(range) {
      forall i | 0 <= i < hi - lo
        ensures a[lo..hi][i] == b[lo..hi][i]
      {
        assert range[i] == 0;
      }
    }
  }

  /** The exclusive or of two such strings is zero outside the window, and inside it exactly when they are equal. */
  lemma WindowOfDifference(a: Bytes, b: Bytes, from: nat, width: nat)
    requires DifferOnlyIn(a, b, from, width)
    ensures AllZero(XorBytes(a, b)[..from])
    ensures AllZero(XorBytes(a, b)[from + width..])
    ensures AllZero(XorBytes(a, b)[from..from + width]) <==> a == b
  {
    hide XorByte, XorBytes, AllZero;
    EqualRangeXorsToZero(a, b, 0, from);
    EqualRangeXorsToZero(a, b, from, from + width);
    EqualRangeXorsToZero(a, b, from + width, |a|);
    var d := XorBytes(a, b);
    assert a[0..from] == a[..from] && b[0..from] == b[..from] && d[0..from] == d[..from];
    assert a[from + width..|a|] == a[from + width..] && b[from + width..|a|] == b[from + width..];
    assert d[from + width..|a|] == d[from + width..];
    assert a == a[..from] + a[from..from + width] + a[from + width..];
    assert b == b[..from] + b[from..from + width] + b[from + width..];
  }

  /** The difference the window leaves in the register, after leading zeros, is the register of the window alone. */
  lemma DifferenceRegister(poly: bv64, d: Bytes, from: nat, width: nat)
    requires from + width <= |d| && AllZero(d[..from])
    ensures Register(poly, 0, d) == Register(poly, Register(poly, 0, d[from..from + width]), d[from + width..])
  {
    hide Register;
    var head, window, tail := d[..from], d[from..from + width], d[from + width..];
    assert d == head + (window + tail);
    RegisterConcat(poly, 0, head, window + tail);
    ZerosFromZero(poly, head);
    RegisterConcat(poly, 0, window, tail);
  }

  lemma SameCrc(p: Polynomial, a: Bytes, b: Bytes)
    requires |a| == |b|
    ensures CrcOf(p, a) == CrcOf(p, b) <==> Register(Poly(p), 0, XorBytes(a, b)) == 0
  {
    hide ShiftBits, XorByte, XorBytes, Xor, Poly;
    var poly := Poly(p);
    var ra := Register(poly, ALL_ONES, a);
    var rb := Register(poly, ALL_ONES, b);
    RegisterXor(poly, ALL_ONES, ALL_ONES, a, b);
    XorCancel(ALL_ONES, ALL_ONES);
    XorCancel(ra, rb);
    XorSwap(ra, rb, ALL_ONES, ALL_ONES);
    XorZero(Xor(ra, rb));
    XorCancel(CrcOf(p, a), CrcOf(p, b));
  }

  lemma SevenBytesFitRegister(n: nat, v: bv64)
    requires n <= 7 && Fits(n, v)
    ensures v < REGISTER_LIMIT
  {}

  lemma WideDifferenceStays(poly: bv64, d: Bytes, from: nat, width: nat)
    requires IsWide(poly) && from + width <= |d| && width <= WINDOW
    requires AllZero(d[..from]) && AllZero(d[from + width..]) && !AllZero(d[from..from + width])
    ensures Register(poly, 0, d) != 0
  {
    hide IsWide;
    var w := d[from..from + width];
    DifferenceRegister(poly, d, from, width);
    WindowIsPacked(poly, 0, w);
    XorZero(Pack(w));
    PackFits(w);
    SevenBytesFitRegister(|w|, Pack(w));
    if Pack(w) == 0 {
      PackZero(w);
      assert false;
    }
    StepsKernel(poly, 8 * |w|, Pack(w));
    ZerosKeepDifference(poly, Steps(poly, 8 * |w|, Pack(w)), d[from + width..]);
  }

  /** Two strings that differ only inside a burst of this length never share a checksum. */
  lemma BurstDetected(p: Polynomial, a: Bytes, b: Bytes, from: nat, width: nat)
    requires DifferOnlyIn(a, b, from, width) && width <= BurstLimit(p)
    ensures CrcOf(p, a) == CrcOf(p, b) <==> a == b
  {
    hide CrcOf, XorBytes, AllZero, Register;
    WindowOfDifference(a, b, from, width);
    if p.Iso? {
      NothingIsZero(XorBytes(a, b), from);
    } else if a != b {
      WideDifferenceStays(Poly(p), XorBytes(a, b), from, width);
      SameCrc(p, a, b);
    }
  }

  lemma NothingIsZero(d: Bytes, at: nat)
    requires at <= |d|
    ensures AllZero(d[at..at])
  {}

  // ---- the bound is sharp -----------------------------------------------------------------------------------------

  /** The bytes whose packed number is one register step before the empty register. */
  function BlindSpot(p: Polynomial): (w: Bytes)
    ensures |w| == BurstLimit(p) + 1
  {
    if p.Iso? then [0x37] else U64Le((Poly(p) << 1) | 1)
  }

  function PushFour(w: Bytes, v: bv64): bv64
    requires |w| == 4
  {
    PushByte(w[0], PushByte(w[1], PushByte(w[2], PushByte(w[3], v))))
  }

  lemma PushEight(w: Bytes)
    requires |w| == 8
    ensures PushFour(w[..4], PushFour(w[4..], 0)) == FromU64Le(w)
  {}

  lemma PackEight(w: Bytes)
    requires |w| == 8
    ensures Pack(w) == FromU64Le(w)
  {
    PushEight(w);
    hide Pack, PushByte, FromU64Le;
    PackNone(w[8..]);
    PackNext(w, 7);
    PackNext(w, 6);
    PackNext(w, 5);
    PackNext(w, 4);
    PackNext(w, 3);
    PackNext(w, 2);
    PackNext(w, 1);
    PackNext(w, 0);
    assert w[0..] == w;
  }

  lemma PackNone(w: Bytes)
    requires w == []
    ensures Pack(w) == 0
  {}

  lemma PackNext(w: Bytes, i: nat)
    requires i < |w|
    ensures Pack(w[i..]) == PushByte(w[i], Pack(w[i + 1..]))
  {
    hide PushByte;
    assert w[i..][1..] == w[i + 1..];
  }

  lemma BlindSpotPacked(p: Polynomial)
    ensures Pack(BlindSpot(p)) == (Poly(p) << 1) | 1
    ensures Step(Poly(p), (Poly(p) << 1) | 1) == 0 && (Poly(p) << 1) | 1 != 0
  {
    var v := (Poly(p) << 1) | 1;
    if p.Iso? {
      PackNext([0x37], 0);
      PackNone([0x37][1..]);
      assert [0x37][0..] == [0x37];
    } else {
      hide U64Le, FromU64Le;
      PackEight(U64Le(v));
      U64RoundTrip(v, U64Le(v));
    }
  }

  lemma {:induction false} PackOfZeros(w: Bytes)
    requires AllZero(w)
    ensures Pack(w) == 0
    decreases |w|
  {
    if w != [] {
      PackOfZeros(w[1..]);
    }
  }

  /** One byte more cannot be promised: exclusive-oring the blind spot into any string, anywhere, goes unnoticed. */
  lemma BlindSpotMissed(p: Polynomial, a: Bytes, b: Bytes, from: nat)
    requires DifferOnlyIn(a, b, from, BurstLimit(p) + 1)
    requires XorBytes(a, b)[from..from + BurstLimit(p) + 1] == BlindSpot(p)
    ensures a != b && CrcOf(p, a) == CrcOf(p, b)
  {
    hide Poly, Step, XorBytes, Register, AllZero, CrcOf, Pack, Xor, BlindSpot;
    var poly, d, w := Poly(p), XorBytes(a, b), BlindSpot(p);
    var n := 8 * |w| - 1;
    WindowOfDifference(a, b, from, |w|);
    DifferenceRegister(poly, d, from, |w|);
    BlindSpotPacked(p);
    WindowIsPacked(poly, 0, w);
    XorZero(Pack(w));
    assert Steps(poly, n + 1, Pack(w)) == Steps(poly, n, 0);
    StepsOfZero(poly, n);
    ZerosFromZero(poly, d[from + |w|..]);
    SameCrc(p, a, b);
    if AllZero(w) {
      PackOfZeros(w);
      assert false;
    }
  }

  /** Every burst of up to this many bytes, in any string, changes the checksum. */
  ghost predicate DetectsBursts(p: Polynomial, width: nat) {
    forall a: Bytes, b: Bytes, from: nat :: DifferOnlyIn(a, b, from, width) ==> (CrcOf(p, a) == CrcOf(p, b) <==> a == b)
  }

  /** The limits are exact: seven bytes for ERTMS and XZ, not even one for ISO. */
  lemma BurstLimitIsExact(p: Polynomial, width: nat)
    ensures DetectsBursts(p, width) <==> width <= BurstLimit(p)
  {
    hide CrcOf, Poly, XorByte;
    if width <= BurstLimit(p) {
      hide DifferOnlyIn;
      forall a: Bytes, b: Bytes, from: nat | DifferOnlyIn(a, b, from, width)
        ensures CrcOf(p, a) == CrcOf(p, b) <==> a == b
      {
        BurstDetected(p, a, b, from, width);
      }
    } else {
      var a, b := BlindExample(p, width);
    }
  }

  lemma XorWithZero(x: bv8)
    ensures XorByte(0, x) == x
  {}

  lemma BlindExample(p: Polynomial, width: nat) returns (a: Bytes, b: Bytes)
    requires width > BurstLimit(p)
    ensures DifferOnlyIn(a, b, 0, width) && a != b && CrcOf(p, a) == CrcOf(p, b)
  {
    hide CrcOf, Poly, XorByte, BlindSpot;
    var w := BlindSpot(p);
    var zeros: Bytes := seq(width - |w|, _ => 0);
    a, b := seq(|w|, _ => 0) + zeros, w + zeros;
    var d := XorBytes(a, b);
    forall i | 0 <= i < |w|
      ensures d[i] == w[i]
    {
      XorWithZero(w[i]);
    }
    assert d[0..|w|] == w;
    BlindSpotMissed(p, a, b, 0);
  }

  // ---- the preset -------------------------------------------------------------------------------------------------

  /** The checksum of nothing is 0, and that of a zero byte is the last table entry behind eight ones. */
  lemma PresetAndFinal(p: Polynomial)
    ensures CrcOf(p, []) == 0
    ensures CrcOf(p, [0]) == Xor(Table(p, 0xFF), 0xFF00_0000_0000_0000)
  {
    var poly := Poly(p);
    RegisterStep(poly, ALL_ONES, [0]);
    assert [0][1..] == [];
    XorZero(ALL_ONES);
    ByteStep(p, ALL_ONES);
    XorCancel(ALL_ONES, ALL_ONES);
    OnesShifted(Table(p, 0xFF));
    hide Xor, Step8, Table, Poly;
  }

  lemma OnesShifted(entry: bv64)
    ensures LowByte(ALL_ONES) == 0xFF
    ensures Xor(Xor(ALL_ONES >> 8, entry), ALL_ONES) == Xor(entry, 0xFF00_0000_0000_0000)
  {}

  /** What a zero byte makes of the preset differs from it, and in the register from then on. */
  lemma PresetMoves(p: Polynomial)
    requires !p.Iso?
    ensures var d := Xor(Step8(Poly(p), ALL_ONES), ALL_ONES);
      d != 0 && 0 != Step8(Poly(p), d) < REGISTER_LIMIT
  {
    match p
    case Ertms =>
    case Xz =>
  }

  lemma SameBytesXorToZero(data: Bytes)
    ensures AllZero(XorBytes(data, data))
  {
    EqualRangeXorsToZero(data, data, 0, |data|);
    assert XorBytes(data, data)[0..|data|] == XorBytes(data, data);
  }

  /** Thanks to the preset a zero byte in front of a message is noticed, which a register that starts empty would not see. */
  lemma LeadingZeroNoticed(p: Polynomial, data: Bytes)
    requires !p.Iso?
    ensures CrcOf(p, [0] + data) != CrcOf(p, data)
  {
    hide Poly, Step8, Xor, XorBytes, Register, AllZero, IsWide;
    var poly, c := Poly(p), Step8(Poly(p), ALL_ONES);
    var zeros := XorBytes(data, data);
    WideEnough(p);
    assert ([0] + data)[1..] == data;
    RegisterStep(poly, ALL_ONES, [0] + data);
    XorZero(ALL_ONES);
    RegisterXor(poly, c, ALL_ONES, data, data);
    SameBytesXorToZero(data);
    PresetMoves(p);
    DifferenceLasts(poly, Xor(c, ALL_ONES), zeros);
    XorCancel(Register(poly, c, data), Register(poly, ALL_ONES, data));
    FinalXorKeeps(Register(poly, c, data), Register(poly, ALL_ONES, data));
  }

  lemma WideEnough(p: Polynomial)
    requires !p.Iso?
    ensures IsWide(Poly(p))
  {}

  lemma DifferenceLasts(poly: bv64, d: bv64, zeros: Bytes)
    requires IsWide(poly) && AllZero(zeros) && d != 0 && 0 != Step8(poly, d) < REGISTER_LIMIT
    ensures Register(poly, d, zeros) != 0
  {
    if zeros != [] {
      ZeroByteStep(poly, d, zeros);
      Steps8(poly, d);
      hide Step8, ShiftBits;
      ZerosKeepDifference(poly, Steps(poly, 8, d), zeros[1..]);
    }
  }

  lemma FinalXorKeeps(x: bv64, y: bv64)
    ensures Xor(x, ALL_ONES) == Xor(y, ALL_ONES) <==> x == y
  {}
}
