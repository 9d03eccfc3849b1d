/** The CRC-64 of the vital message: a bit-serial reference, the table-driven loop, and what the code detects. */
module Crc64 {
  import opened Words
  import opened Polynomials
  import ErtmsTable
  import IsoTable
  import XzTable

  const ALL_ONES: bv64 := 0xFFFFFFFFFFFFFFFF

  /** Exclusive or, named so that proofs can treat it as an algebraic operation instead of 64 bits. */
  function Xor(a: bv64, b: bv64): bv64 {
    a ^ b
  }

  // ---- bit-serial reference ---------------------------------------------------------------------------------------

  /** n register steps. */
  function Steps(poly: bv64, n: nat, c: bv64): bv64 {
    if n == 0 then c else Steps(poly, n - 1, Step(poly, c))
  }

  /** Shifts the low n bits of b into the register, least significant bit first. */
  function ShiftBits(poly: bv64, n: nat, c: bv64, b: bv64): bv64 {
    if n == 0 then c else ShiftBits(poly, n - 1, Step(poly, Xor(c, b & 1)), b >> 1)
  }

  /** The shift register after all bits of data, from state c. */
  function Register(poly: bv64, c: bv64, data: Bytes): bv64
    decreases |data|
  {
    if data == [] then c else Register(poly, ShiftBits(poly, 8, c, data[0] as bv64), data[1..])
  }

  /** The checksum: all-ones preset, all-ones final exclusive or. */
  function CrcOf(p: Polynomial, data: Bytes): bv64 {
    Xor(Register(Poly(p), ALL_ONES, data), ALL_ONES)
  }

  // ---- exclusive-or algebra ---------------------------------------------------------------------------------------

  lemma BitsCancel(a: bv64, b: bv64, p: bv64)
    ensures (a ^ p) ^ (b ^ p) == a ^ b
    ensures (a ^ p) ^ b == (a ^ b) ^ p
    ensures a ^ (b ^ p) == (a ^ b) ^ p
    ensures a ^ b == 0 <==> a == b
  {}

  lemma XorAssoc(a: bv64, b: bv64, c: bv64)
    ensures Xor(Xor(a, b), c) == Xor(a, Xor(b, c))
  {}

  lemma XorComm(a: bv64, b: bv64)
    ensures Xor(a, b) == Xor(b, a)
  {}

  lemma XorZero(a: bv64)
    ensures Xor(a, 0) == a
    ensures Xor(0, a) == a
  {}

  lemma XorCancel(a: bv64, b: bv64)
    ensures Xor(a, b) == 0 <==> a == b
  {
    BitsCancel(a, b, 0);
  }

  lemma XorShift(a: bv64, b: bv64)
    ensures (a ^ b) >> 1 == (a >> 1) ^ (b >> 1)
    ensures (a ^ b) & 1 == (a & 1) ^ (b & 1)
  {}

  lemma LowBit(a: bv64)
    ensures a & 1 == 0 || a & 1 == 1
  {}

  lemma StepXorOddOdd(poly: bv64, a: bv64, b: bv64)
    requires a & 1 == 1 && b & 1 == 1
    ensures Step(poly, a ^ b) == Step(poly, a) ^ Step(poly, b)
  {
    XorShift(a, b);
    BitsCancel(a >> 1, b >> 1, poly);
  }

  lemma StepXorOddEven(poly: bv64, a: bv64, b: bv64)
    requires a & 1 == 1 && b & 1 == 0
    ensures Step(poly, a ^ b) == Step(poly, a) ^ Step(poly, b)
  {
    XorShift(a, b);
    BitsCancel(a >> 1, b >> 1, poly);
  }

  lemma StepXorEvenEven(poly: bv64, a: bv64, b: bv64)
    requires a & 1 == 0 && b & 1 == 0
    ensures Step(poly, a ^ b) == Step(poly, a) ^ Step(poly, b)
  {
    XorShift(a, b);
  }

  /** The register step is linear over exclusive or, for all 64-bit registers. */
  lemma StepXor(poly: bv64, a: bv64, b: bv64)
    ensures Step(poly, Xor(a, b)) == Xor(Step(poly, a), Step(poly, b))
  {
    hide Step;
    LowBit(a);
    LowBit(b);
    if a & 1 == 1 && b & 1 == 1 {
      StepXorOddOdd(poly, a, b);
    } else if a & 1 == 1 {
      StepXorOddEven(poly, a, b);
    } else if b & 1 == 1 {
      StepXorOddEven(poly, b, a);
      XorComm(a, b);
      XorComm(Step(poly, a), Step(poly, b));
    } else {
      StepXorEvenEven(poly, a, b);
    }
  }

  lemma {:induction false} StepsXor(poly: bv64, n: nat, a: bv64, b: bv64)
    ensures Steps(poly, n, Xor(a, b)) == Xor(Steps(poly, n, a), Steps(poly, n, b))
  {
    hide Step, Xor;
    if n != 0 {
      StepXor(poly, a, b);
      StepsXor(poly, n - 1, Step(poly, a), Step(poly, b));
    }
  }

  lemma {:induction false} StepsAdd(poly: bv64, m: nat, n: nat, c: bv64)
    ensures Steps(poly, m + n, c) == Steps(poly, n, Steps(poly, m, c))
  {
    if m != 0 {
      StepsAdd(poly, m - 1, n, Step(poly, c));
    }
  }

  lemma FourSteps(poly: bv64, n: nat, c: bv64)
    ensures Steps(poly, n + 4, c) == Steps(poly, n, Step(poly, Step(poly, Step(poly, Step(poly, c)))))
  {
    hide Step;
    var c1 := Step(poly, c);
    var c2 := Step(poly, c1);
    var c3 := Step(poly, c2);
    assert Steps(poly, n + 4, c) == Steps(poly, n + 3, c1);
    assert Steps(poly, n + 3, c1) == Steps(poly, n + 2, c2);
    assert Steps(poly, n + 2, c2) == Steps(poly, n + 1, c3);
  }

  lemma Steps8(poly: bv64, c: bv64)
    ensures Steps(poly, 8, c) == Step8(poly, c)
  {
    hide Step, Steps;
    FourSteps(poly, 4, c);
    FourSteps(poly, 0, Step(poly, Step(poly, Step(poly, Step(poly, c)))));
    NoSteps(poly, Step8(poly, c));
  }

  lemma NoSteps(poly: bv64, c: bv64)
    ensures Steps(poly, 0, c) == c
  {}

  // ---- whole bytes at a time --------------------------------------------------------------------------------------

  function Halve(n: nat, b: bv64): bv64
    decreases n
  {
    if n == 0 then b else Halve(n - 1, b >> 1)
  }

  lemma SplitLowBit(poly: bv64, c: bv64, b: bv64)
    ensures Xor(c, b) == Xor(Xor(c, b & 1), (b >> 1) << 1)
    ensures Step(poly, (b >> 1) << 1) == b >> 1
  {}

  /** Feeding n bits one at a time is exclusive-oring them in at once and stepping n times. */
  lemma {:induction false} ShiftBitsIsXorThenSteps(poly: bv64, n: nat, c: bv64, b: bv64)
    requires Halve(n, b) == 0
    ensures ShiftBits(poly, n, c, b) == Steps(poly, n, Xor(c, b))
  {
    hide Step, Xor;
    if n == 0 {
      XorZero(c);
    } else {
      SplitLowBit(poly, c, b);
      StepXor(poly, Xor(c, b & 1), (b >> 1) << 1);
      ShiftBitsIsXorThenSteps(poly, n - 1, Step(poly, Xor(c, b & 1)), b >> 1);
    }
  }

  lemma ByteFits(b: bv8)
    ensures Halve(8, b as bv64) == 0
    ensures b as bv64 & 0xFF == b as bv64
  {
    var v := b as bv64;
    assert Halve(8, v) == Halve(4, v >> 1 >> 1 >> 1 >> 1);
    assert Halve(4, v >> 1 >> 1 >> 1 >> 1) == Halve(0, v >> 1 >> 1 >> 1 >> 1 >> 1 >> 1 >> 1 >> 1);
  }

  lemma ShiftByte(poly: bv64, c: bv64, b: bv8)
    ensures ShiftBits(poly, 8, c, b as bv64) == Step8(poly, Xor(c, b as bv64))
  {
    hide Step, Step8, Xor;
    ByteFits(b);
    ShiftBitsIsXorThenSteps(poly, 8, c, b as bv64);
    Steps8(poly, Xor(c, b as bv64));
  }

  lemma StepDouble(poly: bv64, y: bv64)
    requires y < 0x8000000000000000
    ensures Step(poly, y << 1) == y
  {}

  lemma DoublesMeet(y: bv64)
    requires y < 0x0100000000000000
    ensures y << 8 == ((((((((y << 1) << 1) << 1) << 1) << 1) << 1) << 1) << 1)
    ensures y << 1 < 0x0200000000000000 && (y << 1) << 1 < 0x0400000000000000
    ensures ((y << 1) << 1) << 1 < 0x0800000000000000
    ensures (((y << 1) << 1) << 1) << 1 < 0x1000000000000000
    ensures ((((y << 1) << 1) << 1) << 1) << 1 < 0x2000000000000000
    ensures (((((y << 1) << 1) << 1) << 1) << 1) << 1 < 0x4000000000000000
    ensures ((((((y << 1) << 1) << 1) << 1) << 1) << 1) << 1 < 0x8000000000000000
  {}

  /** A zero low byte passes through eight steps as a plain shift. */
  lemma Step8Shift(poly: bv64, y: bv64)
    requires y < 0x0100000000000000
    ensures Step8(poly, y << 8) == y
  {
    hide Step;
    DoublesMeet(y);
    var y1 := y << 1;
    var y2 := y1 << 1;
    var y3 := y2 << 1;
    var y4 := y3 << 1;
    var y5 := y4 << 1;
    var y6 := y5 << 1;
    var y7 := y6 << 1;
    StepDouble(poly, y7);
    StepDouble(poly, y6);
    StepDouble(poly, y5);
    StepDouble(poly, y4);
    StepDouble(poly, y3);
    StepDouble(poly, y2);
    StepDouble(poly, y1);
    StepDouble(poly, y);
  }

  lemma Step8Xor(poly: bv64, a: bv64, b: bv64)
    ensures Step8(poly, Xor(a, b)) == Xor(Step8(poly, a), Step8(poly, b))
  {
    hide Step, Step8, Xor;
    StepsXor(poly, 8, a, b);
    Steps8(poly, a);
    Steps8(poly, b);
    Steps8(poly, Xor(a, b));
  }

  /** The index of the table entry a register selects. */
  function LowByte(c: bv64): bv8 {
    (c & 0xFF) as bv8
  }

  /** The register without its low byte, in place. */
  function HighPart(c: bv64): bv64 {
    (c >> 8) << 8
  }

  lemma SplitLowByte(c: bv64)
    ensures c == Xor(HighPart(c), LowByte(c) as bv64)
  {}

  lemma Step8High(poly: bv64, c: bv64)
    ensures Step8(poly, HighPart(c)) == c >> 8
  {
    hide Step8;
    assert c >> 8 < 0x0100000000000000;
    Step8Shift(poly, c >> 8);
  }

  /** The selected table. */
  function Table(p: Polynomial, index: bv8): bv64 {
    match p
    case Ertms => ErtmsTable.Table(index)
    case Iso => IsoTable.Table(index)
    case Xz => XzTable.Table(index)
  }

  lemma TablesAreGenerated(p: Polynomial, index: bv8)
    ensures Table(p, index) == Step8(Poly(p), index as bv64)
  {
    hide Step8, ErtmsTable.Table, IsoTable.Table, XzTable.Table;
    match p
    case Ertms => ErtmsTable.TableIsGenerated(index);
    case Iso => IsoTable.TableIsGenerated(index);
    case Xz => XzTable.TableIsGenerated(index);
  }

  /** The byte step of the loop is eight register steps, for every 64-bit register. */
  lemma ByteStep(p: Polynomial, c: bv64)
    ensures Step8(Poly(p), c) == Xor(c >> 8, Table(p, LowByte(c)))
  {
    hide Step8, Xor, Table, Poly, LowByte, HighPart;
    SplitLowByte(c);
    Step8Xor(Poly(p), HighPart(c), LowByte(c) as bv64);
    Step8High(Poly(p), c);
    TablesAreGenerated(p, LowByte(c));
  }

  // ---- the table-driven loop --------------------------------------------------------------------------------------

  lemma {:induction false} RegisterAppend(poly: bv64, c: bv64, data: Bytes, b: bv8)
    ensures Register(poly, c, data + [b]) == ShiftBits(poly, 8, Register(poly, c, data), b as bv64)
    decreases |data|
  {
    hide ShiftBits;
    if data == [] {
      assert [b][1..] == [];
    } else {
      assert (data + [b])[1..] == data[1..] + [b];
      RegisterAppend(poly, ShiftBits(poly, 8, c, data[0] as bv64), data[1..], b);
    }
  }

  lemma ShiftOutByte(c: bv64, b: bv8)
    ensures Xor(c, b as bv64) >> 8 == c >> 8
  {}

  /** One iteration of the loop: shift the register right by a byte and exclusive-or in a table entry. */
  function NextByte(p: Polynomial, crc: bv64, b: bv8): bv64 {
    Xor(crc >> 8, Table(p, LowByte(Xor(crc, b as bv64))))
  }

  lemma NextByteShiftsEightBits(p: Polynomial, crc: bv64, b: bv8)
    ensures NextByte(p, crc, b) == ShiftBits(Poly(p), 8, crc, b as bv64)
  {
    hide Step8, Table, Poly, Xor, ShiftBits, LowByte;
    var mixed := Xor(crc, b as bv64);
    ByteStep(p, mixed);
    ShiftOutByte(crc, b);
    assert NextByte(p, crc, b) == Step8(Poly(p), mixed);
    ShiftByte(Poly(p), crc, b);
  }

  /** rte_checksum_crc64 on a module initialized for this polynomial: one table lookup per byte. */
  method TableDrivenCrc(p: Polynomial, data: Bytes) returns (crc: bv64)
    ensures crc == CrcOf(p, data)
  {
    hide NextByte, Xor, Poly, ShiftBits;
    crc := ALL_ONES;
    var i := 0;
    while i < |data|
      invariant 0 <= i <= |data|
      invariant crc == Register(Poly(p), ALL_ONES, data[..i])
    {
      NextByteShiftsEightBits(p, crc, data[i]);
      RegisterAppend(Poly(p), ALL_ONES, data[..i], data[i]);
      assert data[..i + 1] == data[..i] + [data[i]];
      crc := NextByte(p, crc, data[i]);
      i := i + 1;
    }
    assert data[..i] == data;
    crc := Xor(crc, ALL_ONES);
  }
}
