/** The three checksum polynomials, already in the reflected (right-shifting) form, and the register step they define. */
module Polynomials {
  const ERTMS_POLY: bv64 := 0x1D4F63B86E40E541
  const ISO_POLY: bv64 := 0x1B
  const XZ_POLY: bv64 := 0x142F0E1EBA9EA3C3

  datatype Polynomial = Ertms | Iso | Xz

  function Poly(p: Polynomial): bv64 {
    match p
    case Ertms => ERTMS_POLY
    case Iso => ISO_POLY
    case Xz => XZ_POLY
  }

  /** One step of the reflected shift register. */
  function Step(poly: bv64, c: bv64): bv64 {
    if c & 1 == 1 then (c >> 1) ^ poly else c >> 1
  }

  function Step8(poly: bv64, c: bv64): bv64 {
    var c4 := Step(poly, Step(poly, Step(poly, Step(poly, c))));
    Step(poly, Step(poly, Step(poly, Step(poly, c4))))
  }

  lemma SplitIndex(index: bv8)
    ensures index & 0xF < 16 && index >> 4 < 16
    ensures index as bv64 == ((index & 0xF) as bv64) | (((index >> 4) as bv64) << 4)
  {}
}
