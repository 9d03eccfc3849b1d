/** The lookup table of the ISO polynomial. */
module IsoTable {
  import opened Polynomials

  // The 256 entries, sixteen to a row.

  function Row0(lo: bv8): bv64 {
    match lo
    case 0x0 => 0x0000000000000000
    case 0x1 => 0x0000000000000007
    case 0x2 => 0x000000000000000E
    case 0x3 => 0x0000000000000009
    case 0x4 => 0x000000000000001C
    case 0x5 => 0x000000000000001B
    case 0x6 => 0x0000000000000012
    case 0x7 => 0x0000000000000015
    case 0x8 => 0x000000000000000F
    case 0x9 => 0x0000000000000008
    case 0xA => 0x0000000000000001
    case 0xB => 0x0000000000000006
    case 0xC => 0x0000000000000013
    case 0xD => 0x0000000000000014
    case 0xE => 0x000000000000001D
    case _ => 0x000000000000001A
  }

  function Row1(lo: bv8): bv64 {
    match lo
    case 0x0 => 0x000000000000001E
    case 0x1 => 0x0000000000000019
    case 0x2 => 0x0000000000000010
    case 0x3 => 0x0000000000000017
    case 0x4 => 0x0000000000000002
    case 0x5 => 0x0000000000000005
    case 0x6 => 0x000000000000000C
    case 0x7 => 0x000000000000000B
    case 0x8 => 0x0000000000000011
    case 0x9 => 0x0000000000000016
    case 0xA => 0x000000000000001F
    case 0xB => 0x0000000000000018
    case 0xC => 0x000000000000000D
    case 0xD => 0x000000000000000A
    case 0xE => 0x0000000000000003
    case _ => 0x0000000000000004
  }

  function Row2(lo: bv8): bv64 {
    match lo
    case 0x0 => 0x000000000000000B
    case 0x1 => 0x000000000000000C
    case 0x2 => 0x0000000000000005
    case 0x3 => 0x0000000000000002
    case 0x4 => 0x0000000000000017
    case 0x5 => 0x0000000000000010
    case 0x6 => 0x0000000000000019
    case 0x7 => 0x000000000000001E
    case 0x8 => 0x0000000000000004
    case 0x9 => 0x0000000000000003
    case 0xA => 0x000000000000000A
    case 0xB => 0x000000000000000D
    case 0xC => 0x0000000000000018
    case 0xD => 0x000000000000001F
    case 0xE => 0x0000000000000016
    case _ => 0x0000000000000011
  }

  function Row3(lo: bv8): bv64 {
    match lo
    case 0x0 => 0x0000000000000015
    case 0x1 => 0x0000000000000012
    case 0x2 => 0x000000000000001B
    case 0x3 => 0x000000000000001C
    case 0x4 => 0x0000000000000009
    case 0x5 => 0x000000000000000E
    case 0x6 => 0x0000000000000007
    case 0x7 => 0x0000000000000000
    case 0x8 => 0x000000000000001A
    case 0x9 => 0x000000000000001D
    case 0xA => 0x0000000000000014
    case 0xB => 0x0000000000000013
    case 0xC => 0x0000000000000006
    case 0xD => 0x0000000000000001
    case 0xE => 0x0000000000000008
    case _ => 0x000000000000000F
  }

  function Row4(lo: bv8): bv64 {
    match lo
    case 0x0 => 0x0000000000000016
    case 0x1 => 0x0000000000000011
    case 0x2 => 0x0000000000000018
    case 0x3 => 0x000000000000001F
    case 0x4 => 0x000000000000000A
    case 0x5 => 0x000000000000000D
    case 0x6 => 0x0000000000000004
    case 0x7 => 0x0000000000000003
    case 0x8 => 0x0000000000000019
    case 0x9 => 0x000000000000001E
    case 0xA => 0x0000000000000017
    case 0xB => 0x0000000000000010
    case 0xC => 0x0000000000000005
    case 0xD => 0x0000000000000002
    case 0xE => 0x000000000000000B
    case _ => 0x000000000000000C
  }

  function Row5(lo: bv8): bv64 {
    match lo
    case 0x0 => 0x0000000000000008
    case 0x1 => 0x000000000000000F
    case 0x2 => 0x0000000000000006
    case 0x3 => 0x0000000000000001
    case 0x4 => 0x0000000000000014
    case 0x5 => 0x0000000000000013
    case 0x6 => 0x000000000000001A
    case 0x7 => 0x000000000000001D
    case 0x8 => 0x0000000000000007
    case 0x9 => 0x0000000000000000
    case 0xA => 0x0000000000000009
    case 0xB => 0x000000000000000E
    case 0xC => 0x000000000000001B
    case 0xD => 0x000000000000001C
    case 0xE => 0x0000000000000015
    case _ => 0x0000000000000012
  }

  function Row6(lo: bv8): bv64 {
    match lo
    case 0x0 => 0x000000000000001D
    case 0x1 => 0x000000000000001A
    case 0x2 => 0x0000000000000013
    case 0x3 => 0x0000000000000014
    case 0x4 => 0x0000000000000001
    case 0x5 => 0x0000000000000006
    case 0x6 => 0x000000000000000F
    case 0x7 => 0x0000000000000008
    case 0x8 => 0x0000000000000012
    case 0x9 => 0x0000000000000015
    case 0xA => 0x000000000000001C
    case 0xB => 0x000000000000001B
    case 0xC => 0x000000000000000E
    case 0xD => 0x0000000000000009
    case 0xE => 0x0000000000000000
    case _ => 0x0000000000000007
  }

  function Row7(lo: bv8): bv64 {
    match lo
    case 0x0 => 0x0000000000000003
    case 0x1 => 0x0000000000000004
    case 0x2 => 0x000000000000000D
    case 0x3 => 0x000000000000000A
    case 0x4 => 0x000000000000001F
    case 0x5 => 0x0000000000000018
    case 0x6 => 0x0000000000000011
    case 0x7 => 0x0000000000000016
    case 0x8 => 0x000000000000000C
    case 0x9 => 0x000000000000000B
    case 0xA => 0x0000000000000002
    case 0xB => 0x0000000000000005
    case 0xC => 0x0000000000000010
    case 0xD => 0x0000000000000017
    case 0xE => 0x000000000000001E
    case _ => 0x0000000000000019
  }

  function Row8(lo: bv8): bv64 {
    match lo
    case 0x0 => 0x000000000000001B
    case 0x1 => 0x000000000000001C
    case 0x2 => 0x0000000000000015
    case 0x3 => 0x0000000000000012
    case 0x4 => 0x0000000000000007
    case 0x5 => 0x0000000000000000
    case 0x6 => 0x0000000000000009
    case 0x7 => 0x000000000000000E
    case 0x8 => 0x0000000000000014
    case 0x9 => 0x0000000000000013
    case 0xA => 0x000000000000001A
    case 0xB => 0x000000000000001D
    case 0xC => 0x0000000000000008
    case 0xD => 0x000000000000000F
    case 0xE => 0x0000000000000006
    case _ => 0x0000000000000001
  }

  function Row9(lo: bv8): bv64 {
    match lo
    case 0x0 => 0x0000000000000005
    case 0x1 => 0x0000000000000002
    case 0x2 => 0x000000000000000B
    case 0x3 => 0x000000000000000C
    case 0x4 => 0x0000000000000019
    case 0x5 => 0x000000000000001E
    case 0x6 => 0x0000000000000017
    case 0x7 => 0x0000000000000010
    case 0x8 => 0x000000000000000A
    case 0x9 => 0x000000000000000D
    case 0xA => 0x0000000000000004
    case 0xB => 0x0000000000000003
    case 0xC => 0x0000000000000016
    case 0xD => 0x0000000000000011
    case 0xE => 0x0000000000000018
    case _ => 0x000000000000001F
  }

  function RowA(lo: bv8): bv64 {
    match lo
    case 0x0 => 0x0000000000000010
    case 0x1 => 0x0000000000000017
    case 0x2 => 0x000000000000001E
    case 0x3 => 0x0000000000000019
    case 0x4 => 0x000000000000000C
    case 0x5 => 0x000000000000000B
    case 0x6 => 0x0000000000000002
    case 0x7 => 0x0000000000000005
    case 0x8 => 0x000000000000001F
    case 0x9 => 0x0000000000000018
    case 0xA => 0x0000000000000011
    case 0xB => 0x0000000000000016
    case 0xC => 0x0000000000000003
    case 0xD => 0x0000000000000004
    case 0xE => 0x000000000000000D
    case _ => 0x000000000000000A
  }

  function RowB(lo: bv8): bv64 {
    match lo
    case 0x0 => 0x000000000000000E
    case 0x1 => 0x0000000000000009
    case 0x2 => 0x0000000000000000
    case 0x3 => 0x0000000000000007
    case 0x4 => 0x0000000000000012
    case 0x5 => 0x0000000000000015
    case 0x6 => 0x000000000000001C
    case 0x7 => 0x000000000000001B
    case 0x8 => 0x0000000000000001
    case 0x9 => 0x0000000000000006
    case 0xA => 0x000000000000000F
    case 0xB => 0x0000000000000008
    case 0xC => 0x000000000000001D
    case 0xD => 0x000000000000001A
    case 0xE => 0x0000000000000013
    case _ => 0x0000000000000014
  }

  function RowC(lo: bv8): bv64 {
    match lo
    case 0x0 => 0x000000000000000D
    case 0x1 => 0x000000000000000A
    case 0x2 => 0x0000000000000003
    case 0x3 => 0x0000000000000004
    case 0x4 => 0x0000000000000011
    case 0x5 => 0x0000000000000016
    case 0x6 => 0x000000000000001F
    case 0x7 => 0x0000000000000018
    case 0x8 => 0x0000000000000002
    case 0x9 => 0x0000000000000005
    case 0xA => 0x000000000000000C
    case 0xB => 0x000000000000000B
    case 0xC => 0x000000000000001E
    case 0xD => 0x0000000000000019
    case 0xE => 0x0000000000000010
    case _ => 0x0000000000000017
  }

  function RowD(lo: bv8): bv64 {
    match lo
    case 0x0 => 0x0000000000000013
    case 0x1 => 0x0000000000000014
    case 0x2 => 0x000000000000001D
    case 0x3 => 0x000000000000001A
    case 0x4 => 0x000000000000000F
    case 0x5 => 0x0000000000000008
    case 0x6 => 0x0000000000000001
    case 0x7 => 0x0000000000000006
    case 0x8 => 0x000000000000001C
    case 0x9 => 0x000000000000001B
    case 0xA => 0x0000000000000012
    case 0xB => 0x0000000000000015
    case 0xC => 0x0000000000000000
    case 0xD => 0x0000000000000007
    case 0xE => 0x000000000000000E
    case _ => 0x0000000000000009
  }

  function RowE(lo: bv8): bv64 {
    match lo
    case 0x0 => 0x0000000000000006
    case 0x1 => 0x0000000000000001
    case 0x2 => 0x0000000000000008
    case 0x3 => 0x000000000000000F
    case 0x4 => 0x000000000000001A
    case 0x5 => 0x000000000000001D
    case 0x6 => 0x0000000000000014
    case 0x7 => 0x0000000000000013
    case 0x8 => 0x0000000000000009
    case 0x9 => 0x000000000000000E
    case 0xA => 0x0000000000000007
    case 0xB => 0x0000000000000000
    case 0xC => 0x0000000000000015
    case 0xD => 0x0000000000000012
    case 0xE => 0x000000000000001B
    case _ => 0x000000000000001C
  }

  function RowF(lo: bv8): bv64 {
    match lo
    case 0x0 => 0x0000000000000018
    case 0x1 => 0x000000000000001F
    case 0x2 => 0x0000000000000016
    case 0x3 => 0x0000000000000011
    case 0x4 => 0x0000000000000004
    case 0x5 => 0x0000000000000003
    case 0x6 => 0x000000000000000A
    case 0x7 => 0x000000000000000D
    case 0x8 => 0x0000000000000017
    case 0x9 => 0x0000000000000010
    case 0xA => 0x0000000000000019
    case 0xB => 0x000000000000001E
    case 0xC => 0x000000000000000B
    case 0xD => 0x000000000000000C
    case 0xE => 0x0000000000000005
    case _ => 0x0000000000000002
  }

  function Entry(hi: bv8, lo: bv8): bv64 {
    match hi
    case 0x0 => Row0(lo)
    case 0x1 => Row1(lo)
    case 0x2 => Row2(lo)
    case 0x3 => Row3(lo)
    case 0x4 => Row4(lo)
    case 0x5 => Row5(lo)
    case 0x6 => Row6(lo)
    case 0x7 => Row7(lo)
    case 0x8 => Row8(lo)
    case 0x9 => Row9(lo)
    case 0xA => RowA(lo)
    case 0xB => RowB(lo)
    case 0xC => RowC(lo)
    case 0xD => RowD(lo)
    case 0xE => RowE(lo)
    case _ => RowF(lo)
  }

  /** g_crc64_iso_table[index]. */
  function Table(index: bv8): bv64 {
    Entry(index >> 4, index & 0xF)
  }

  // Every row holds eight register steps of its index. One lemma a row and one case an entry keep each proof small.

  lemma Row0Steps(lo: bv8)
    requires lo < 16
    ensures Row0(lo) == Step8(ISO_POLY, (lo as bv64) | 0x00)
  {
    match lo
    case 0x0 =>
    case 0x1 =>
    case 0x2 =>
    case 0x3 =>
    case 0x4 =>
    case 0x5 =>
    case 0x6 =>
    case 0x7 =>
    case 0x8 =>
    case 0x9 =>
    case 0xA =>
    case 0xB =>
    case 0xC =>
    case 0xD =>
    case 0xE =>
    case _ => assert lo == 0xF;
  }

  lemma Row1Steps(lo: bv8)
    requires lo < 16
    ensures Row1(lo) == Step8(ISO_POLY, (lo as bv64) | 0x10)
  {
    match lo
    case 0x0 =>
    case 0x1 =>
    case 0x2 =>
    case 0x3 =>
    case 0x4 =>
    case 0x5 =>
    case 0x6 =>
    case 0x7 =>
    case 0x8 =>
    case 0x9 =>
    case 0xA =>
    case 0xB =>
    case 0xC =>
    case 0xD =>
    case 0xE =>
    case _ => assert lo == 0xF;
  }

  lemma Row2Steps(lo: bv8)
    requires lo < 16
    ensures Row2(lo) == Step8(ISO_POLY, (lo as bv64) | 0x20)
  {
    match lo
    case 0x0 =>
    case 0x1 =>
    case 0x2 =>
    case 0x3 =>
    case 0x4 =>
    case 0x5 =>
    case 0x6 =>
    case 0x7 =>
    case 0x8 =>
    case 0x9 =>
    case 0xA =>
    case 0xB =>
    case 0xC =>
    case 0xD =>
    case 0xE =>
    case _ => assert lo == 0xF;
  }

  lemma Row3Steps(lo: bv8)
    requires lo < 16
    ensures Row3(lo) == Step8(ISO_POLY, (lo as bv64) | 0x30)
  {
    match lo
    case 0x0 =>
    case 0x1 =>
    case 0x2 =>
    case 0x3 =>
    case 0x4 =>
    case 0x5 =>
    case 0x6 =>
    case 0x7 =>
    case 0x8 =>
    case 0x9 =>
    case 0xA =>
    case 0xB =>
    case 0xC =>
    case 0xD =>
    case 0xE =>
    case _ => assert lo == 0xF;
  }

  lemma Row4Steps(lo: bv8)
    requires lo < 16
    ensures Row4(lo) == Step8(ISO_POLY, (lo as bv64) | 0x40)
  {
    match lo
    case 0x0 =>
    case 0x1 =>
    case 0x2 =>
    case 0x3 =>
    case 0x4 =>
    case 0x5 =>
    case 0x6 =>
    case 0x7 =>
    case 0x8 =>
    case 0x9 =>
    case 0xA =>
    case 0xB =>
    case 0xC =>
    case 0xD =>
    case 0xE =>
    case _ => assert lo == 0xF;
  }

  lemma Row5Steps(lo: bv8)
    requires lo < 16
    ensures Row5(lo) == Step8(ISO_POLY, (lo as bv64) | 0x50)
  {
    match lo
    case 0x0 =>
    case 0x1 =>
    case 0x2 =>
    case 0x3 =>
    case 0x4 =>
    case 0x5 =>
    case 0x6 =>
    case 0x7 =>
    case 0x8 =>
    case 0x9 =>
    case 0xA =>
    case 0xB =>
    case 0xC =>
    case 0xD =>
    case 0xE =>
    case _ => assert lo == 0xF;
  }

  lemma Row6Steps(lo: bv8)
    requires lo < 16
    ensures Row6(lo) == Step8(ISO_POLY, (lo as bv64) | 0x60)
  {
    match lo
    case 0x0 =>
    case 0x1 =>
    case 0x2 =>
    case 0x3 =>
    case 0x4 =>
    case 0x5 =>
    case 0x6 =>
    case 0x7 =>
    case 0x8 =>
    case 0x9 =>
    case 0xA =>
    case 0xB =>
    case 0xC =>
    case 0xD =>
    case 0xE =>
    case _ => assert lo == 0xF;
  }

  lemma Row7Steps(lo: bv8)
    requires lo < 16
    ensures Row7(lo) == Step8(ISO_POLY, (lo as bv64) | 0x70)
  {
    match lo
    case 0x0 =>
    case 0x1 =>
    case 0x2 =>
    case 0x3 =>
    case 0x4 =>
    case 0x5 =>
    case 0x6 =>
    case 0x7 =>
    case 0x8 =>
    case 0x9 =>
    case 0xA =>
    case 0xB =>
    case 0xC =>
    case 0xD =>
    case 0xE =>
    case _ => assert lo == 0xF;
  }

  lemma Row8Steps(lo: bv8)
    requires lo < 16
    ensures Row8(lo) == Step8(ISO_POLY, (lo as bv64) | 0x80)
  {
    match lo
    case 0x0 =>
    case 0x1 =>
    case 0x2 =>
    case 0x3 =>
    case 0x4 =>
    case 0x5 =>
    case 0x6 =>
    case 0x7 =>
    case 0x8 =>
    case 0x9 =>
    case 0xA =>
    case 0xB =>
    case 0xC =>
    case 0xD =>
    case 0xE =>
    case _ => assert lo == 0xF;
  }

  lemma Row9Steps(lo: bv8)
    requires lo < 16
    ensures Row9(lo) == Step8(ISO_POLY, (lo as bv64) | 0x90)
  {
    match lo
    case 0x0 =>
    case 0x1 =>
    case 0x2 =>
    case 0x3 =>
    case 0x4 =>
    case 0x5 =>
    case 0x6 =>
    case 0x7 =>
    case 0x8 =>
    case 0x9 =>
    case 0xA =>
    case 0xB =>
    case 0xC =>
    case 0xD =>
    case 0xE =>
    case _ => assert lo == 0xF;
  }

  lemma RowASteps(lo: bv8)
    requires lo < 16
    ensures RowA(lo) == Step8(ISO_POLY, (lo as bv64) | 0xA0)
  {
    match lo
    case 0x0 =>
    case 0x1 =>
    case 0x2 =>
    case 0x3 =>
    case 0x4 =>
    case 0x5 =>
    case 0x6 =>
    case 0x7 =>
    case 0x8 =>
    case 0x9 =>
    case 0xA =>
    case 0xB =>
    case 0xC =>
    case 0xD =>
    case 0xE =>
    case _ => assert lo == 0xF;
  }

  lemma RowBSteps(lo: bv8)
    requires lo < 16
    ensures RowB(lo) == Step8(ISO_POLY, (lo as bv64) | 0xB0)
  {
    match lo
    case 0x0 =>
    case 0x1 =>
    case 0x2 =>
    case 0x3 =>
    case 0x4 =>
    case 0x5 =>
    case 0x6 =>
    case 0x7 =>
    case 0x8 =>
    case 0x9 =>
    case 0xA =>
    case 0xB =>
    case 0xC =>
    case 0xD =>
    case 0xE =>
    case _ => assert lo == 0xF;
  }

  lemma RowCSteps(lo: bv8)
    requires lo < 16
    ensures RowC(lo) == Step8(ISO_POLY, (lo as bv64) | 0xC0)
  {
    match lo
    case 0x0 =>
    case 0x1 =>
    case 0x2 =>
    case 0x3 =>
    case 0x4 =>
    case 0x5 =>
    case 0x6 =>
    case 0x7 =>
    case 0x8 =>
    case 0x9 =>
    case 0xA =>
    case 0xB =>
    case 0xC =>
    case 0xD =>
    case 0xE =>
    case _ => assert lo == 0xF;
  }

  lemma RowDSteps(lo: bv8)
    requires lo < 16
    ensures RowD(lo) == Step8(ISO_POLY, (lo as bv64) | 0xD0)
  {
    match lo
    case 0x0 =>
    case 0x1 =>
    case 0x2 =>
    case 0x3 =>
    case 0x4 =>
    case 0x5 =>
    case 0x6 =>
    case 0x7 =>
    case 0x8 =>
    case 0x9 =>
    case 0xA =>
    case 0xB =>
    case 0xC =>
    case 0xD =>
    case 0xE =>
    case _ => assert lo == 0xF;
  }

  lemma RowESteps(lo: bv8)
    requires lo < 16
    ensures RowE(lo) == Step8(ISO_POLY, (lo as bv64) | 0xE0)
  {
    match lo
    case 0x0 =>
    case 0x1 =>
    case 0x2 =>
    case 0x3 =>
    case 0x4 =>
    case 0x5 =>
    case 0x6 =>
    case 0x7 =>
    case 0x8 =>
    case 0x9 =>
    case 0xA =>
    case 0xB =>
    case 0xC =>
    case 0xD =>
    case 0xE =>
    case _ => assert lo == 0xF;
  }

  lemma RowFSteps(lo: bv8)
    requires lo < 16
    ensures RowF(lo) == Step8(ISO_POLY, (lo as bv64) | 0xF0)
  {
    match lo
    case 0x0 =>
    case 0x1 =>
    case 0x2 =>
    case 0x3 =>
    case 0x4 =>
    case 0x5 =>
    case 0x6 =>
    case 0x7 =>
    case 0x8 =>
    case 0x9 =>
    case 0xA =>
    case 0xB =>
    case 0xC =>
    case 0xD =>
    case 0xE =>
    case _ => assert lo == 0xF;
  }

  lemma EntrySteps(hi: bv8, lo: bv8)
    requires hi < 16 && lo < 16
    ensures Entry(hi, lo) == Step8(ISO_POLY, (lo as bv64) | ((hi as bv64) << 4))
  {
    hide Step8, Row0, Row1, Row2, Row3, Row4, Row5, Row6, Row7, Row8, Row9, RowA, RowB, RowC, RowD, RowE, RowF;
    match hi
    case 0x0 => Row0Steps(lo);
    case 0x1 => Row1Steps(lo);
    case 0x2 => Row2Steps(lo);
    case 0x3 => Row3Steps(lo);
    case 0x4 => Row4Steps(lo);
    case 0x5 => Row5Steps(lo);
    case 0x6 => Row6Steps(lo);
    case 0x7 => Row7Steps(lo);
    case 0x8 => Row8Steps(lo);
    case 0x9 => Row9Steps(lo);
    case 0xA => RowASteps(lo);
    case 0xB => RowBSteps(lo);
    case 0xC => RowCSteps(lo);
    case 0xD => RowDSteps(lo);
    case 0xE => RowESteps(lo);
    case _ =>
      assert hi == 0xF;
      RowFSteps(lo);
  }

  /** The whole table is what the polynomial generates: entry i is the register after eight steps from i. */
  lemma TableIsGenerated(index: bv8)
    ensures Table(index) == Step8(ISO_POLY, index as bv64)
  {
    hide Step8, Entry;
    SplitIndex(index);
    EntrySteps(index >> 4, index & 0xF);
  }
}
