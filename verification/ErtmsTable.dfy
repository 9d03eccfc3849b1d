/** The lookup table of the ERTMS polynomial. */
module ErtmsTable {
  import opened Polynomials

  // The 256 entries, sixteen to a row.

  function Row0(lo: bv8): bv64 {
    match lo
    case 0x0 => 0x0000000000000000
    case 0x1 => 0x0B2CAB2AF58BDC79
    case 0x2 => 0x16595655EB17B8F2
    case 0x3 => 0x1D75FD7F1E9C648B
    case 0x4 => 0x162C6BDB0AAEBB67
    case 0x5 => 0x1D00C0F1FF25671E
    case 0x6 => 0x00753D8EE1B90395
    case 0x7 => 0x0B5996A41432DFEC
    case 0x8 => 0x16C610C6C9DCBC4D
    case 0x9 => 0x1DEABBEC3C576034
    case 0xA => 0x009F469322CB04BF
    case 0xB => 0x0BB3EDB9D740D8C6
    case 0xC => 0x00EA7B1DC372072A
    case 0xD => 0x0BC6D03736F9DB53
    case 0xE => 0x16B32D482865BFD8
    case _ => 0x1D9F8662DDEE63A1
  }

  function Row1(lo: bv8): bv64 {
    match lo
    case 0x0 => 0x1712E6FD4F38B219
    case 0x1 => 0x1C3E4DD7BAB36E60
    case 0x2 => 0x014BB0A8A42F0AEB
    case 0x3 => 0x0A671B8251A4D692
    case 0x4 => 0x013E8D264596097E
    case 0x5 => 0x0A12260CB01DD507
    case 0x6 => 0x1767DB73AE81B18C
    case 0x7 => 0x1C4B70595B0A6DF5
    case 0x8 => 0x01D4F63B86E40E54
    case 0x9 => 0x0AF85D11736FD22D
    case 0xA => 0x178DA06E6DF3B6A6
    case 0xB => 0x1CA10B4498786ADF
    case 0xC => 0x17F89DE08C4AB533
    case 0xD => 0x1CD436CA79C1694A
    case 0xE => 0x01A1CBB5675D0DC1
    case _ => 0x0A8D609F92D6D1B8
  }

  function Row2(lo: bv8): bv64 {
    match lo
    case 0x0 => 0x14BB0A8A42F0AEB1
    case 0x1 => 0x1F97A1A0B77B72C8
    case 0x2 => 0x02E25CDFA9E71643
    case 0x3 => 0x09CEF7F55C6CCA3A
    case 0x4 => 0x02976151485E15D6
    case 0x5 => 0x09BBCA7BBDD5C9AF
    case 0x6 => 0x14CE3704A349AD24
    case 0x7 => 0x1FE29C2E56C2715D
    case 0x8 => 0x027D1A4C8B2C12FC
    case 0x9 => 0x0951B1667EA7CE85
    case 0xA => 0x14244C19603BAA0E
    case 0xB => 0x1F08E73395B07677
    case 0xC => 0x145171978182A99B
    case 0xD => 0x1F7DDABD740975E2
    case 0xE => 0x020827C26A951169
    case _ => 0x09248CE89F1ECD10
  }

  function Row3(lo: bv8): bv64 {
    match lo
    case 0x0 => 0x03A9EC770DC81CA8
    case 0x1 => 0x0885475DF843C0D1
    case 0x2 => 0x15F0BA22E6DFA45A
    case 0x3 => 0x1EDC110813547823
    case 0x4 => 0x158587AC0766A7CF
    case 0x5 => 0x1EA92C86F2ED7BB6
    case 0x6 => 0x03DCD1F9EC711F3D
    case 0x7 => 0x08F07AD319FAC344
    case 0x8 => 0x156FFCB1C414A0E5
    case 0x9 => 0x1E43579B319F7C9C
    case 0xA => 0x0336AAE42F031817
    case 0xB => 0x081A01CEDA88C46E
    case 0xC => 0x0343976ACEBA1B82
    case 0xD => 0x086F3C403B31C7FB
    case 0xE => 0x151AC13F25ADA370
    case _ => 0x1E366A15D0267F09
  }

  function Row4(lo: bv8): bv64 {
    match lo
    case 0x0 => 0x13E8D264596097E1
    case 0x1 => 0x18C4794EACEB4B98
    case 0x2 => 0x05B18431B2772F13
    case 0x3 => 0x0E9D2F1B47FCF36A
    case 0x4 => 0x05C4B9BF53CE2C86
    case 0x5 => 0x0EE81295A645F0FF
    case 0x6 => 0x139DEFEAB8D99474
    case 0x7 => 0x18B144C04D52480D
    case 0x8 => 0x052EC2A290BC2BAC
    case 0x9 => 0x0E0269886537F7D5
    case 0xA => 0x137794F77BAB935E
    case 0xB => 0x185B3FDD8E204F27
    case 0xC => 0x1302A9799A1290CB
    case 0xD => 0x182E02536F994CB2
    case 0xE => 0x055BFF2C71052839
    case _ => 0x0E775406848EF440
  }

  function Row5(lo: bv8): bv64 {
    match lo
    case 0x0 => 0x04FA3499165825F8
    case 0x1 => 0x0FD69FB3E3D3F981
    case 0x2 => 0x12A362CCFD4F9D0A
    case 0x3 => 0x198FC9E608C44173
    case 0x4 => 0x12D65F421CF69E9F
    case 0x5 => 0x19FAF468E97D42E6
    case 0x6 => 0x048F0917F7E1266D
    case 0x7 => 0x0FA3A23D026AFA14
    case 0x8 => 0x123C245FDF8499B5
    case 0x9 => 0x19108F752A0F45CC
    case 0xA => 0x0465720A34932147
    case 0xB => 0x0F49D920C118FD3E
    case 0xC => 0x04104F84D52A22D2
    case 0xD => 0x0F3CE4AE20A1FEAB
    case 0xE => 0x124919D13E3D9A20
    case _ => 0x1965B2FBCBB64659
  }

  function Row6(lo: bv8): bv64 {
    match lo
    case 0x0 => 0x0753D8EE1B903950
    case 0x1 => 0x0C7F73C4EE1BE529
    case 0x2 => 0x110A8EBBF08781A2
    case 0x3 => 0x1A262591050C5DDB
    case 0x4 => 0x117FB335113E8237
    case 0x5 => 0x1A53181FE4B55E4E
    case 0x6 => 0x0726E560FA293AC5
    case 0x7 => 0x0C0A4E4A0FA2E6BC
    case 0x8 => 0x1195C828D24C851D
    case 0x9 => 0x1AB9630227C75964
    case 0xA => 0x07CC9E7D395B3DEF
    case 0xB => 0x0CE03557CCD0E196
    case 0xC => 0x07B9A3F3D8E23E7A
    case 0xD => 0x0C9508D92D69E203
    case 0xE => 0x11E0F5A633F58688
    case _ => 0x1ACC5E8CC67E5AF1
  }

  function Row7(lo: bv8): bv64 {
    match lo
    case 0x0 => 0x10413E1354A88B49
    case 0x1 => 0x1B6D9539A1235730
    case 0x2 => 0x06186846BFBF33BB
    case 0x3 => 0x0D34C36C4A34EFC2
    case 0x4 => 0x066D55C85E06302E
    case 0x5 => 0x0D41FEE2AB8DEC57
    case 0x6 => 0x1034039DB51188DC
    case 0x7 => 0x1B18A8B7409A54A5
    case 0x8 => 0x06872ED59D743704
    case 0x9 => 0x0DAB85FF68FFEB7D
    case 0xA => 0x10DE788076638FF6
    case 0xB => 0x1BF2D3AA83E8538F
    case 0xC => 0x10AB450E97DA8C63
    case 0xD => 0x1B87EE246251501A
    case 0xE => 0x06F2135B7CCD3491
    case _ => 0x0DDEB8718946E8E8
  }

  function Row8(lo: bv8): bv64 {
    match lo
    case 0x0 => 0x1D4F63B86E40E541
    case 0x1 => 0x1663C8929BCB3938
    case 0x2 => 0x0B1635ED85575DB3
    case 0x3 => 0x003A9EC770DC81CA
    case 0x4 => 0x0B63086364EE5E26
    case 0x5 => 0x004FA3499165825F
    case 0x6 => 0x1D3A5E368FF9E6D4
    case 0x7 => 0x1616F51C7A723AAD
    case 0x8 => 0x0B89737EA79C590C
    case 0x9 => 0x00A5D85452178575
    case 0xA => 0x1DD0252B4C8BE1FE
    case 0xB => 0x16FC8E01B9003D87
    case 0xC => 0x1DA518A5AD32E26B
    case 0xD => 0x1689B38F58B93E12
    case 0xE => 0x0BFC4EF046255A99
    case _ => 0x00D0E5DAB3AE86E0
  }

  function Row9(lo: bv8): bv64 {
    match lo
    case 0x0 => 0x0A5D854521785758
    case 0x1 => 0x01712E6FD4F38B21
    case 0x2 => 0x1C04D310CA6FEFAA
    case 0x3 => 0x1728783A3FE433D3
    case 0x4 => 0x1C71EE9E2BD6EC3F
    case 0x5 => 0x175D45B4DE5D3046
    case 0x6 => 0x0A28B8CBC0C154CD
    case 0x7 => 0x010413E1354A88B4
    case 0x8 => 0x1C9B9583E8A4EB15
    case 0x9 => 0x17B73EA91D2F376C
    case 0xA => 0x0AC2C3D603B353E7
    case 0xB => 0x01EE68FCF6388F9E
    case 0xC => 0x0AB7FE58E20A5072
    case 0xD => 0x019B557217818C0B
    case 0xE => 0x1CEEA80D091DE880
    case _ => 0x17C20327FC9634F9
  }

  function RowA(lo: bv8): bv64 {
    match lo
    case 0x0 => 0x09F469322CB04BF0
    case 0x1 => 0x02D8C218D93B9789
    case 0x2 => 0x1FAD3F67C7A7F302
    case 0x3 => 0x1481944D322C2F7B
    case 0x4 => 0x1FD802E9261EF097
    case 0x5 => 0x14F4A9C3D3952CEE
    case 0x6 => 0x098154BCCD094865
    case 0x7 => 0x02ADFF963882941C
    case 0x8 => 0x1F3279F4E56CF7BD
    case 0x9 => 0x141ED2DE10E72BC4
    case 0xA => 0x096B2FA10E7B4F4F
    case 0xB => 0x0247848BFBF09336
    case 0xC => 0x091E122FEFC24CDA
    case 0xD => 0x0232B9051A4990A3
    case 0xE => 0x1F47447A04D5F428
    case _ => 0x146BEF50F15E2851
  }

  function RowB(lo: bv8): bv64 {
    match lo
    case 0x0 => 0x1EE68FCF6388F9E9
    case 0x1 => 0x15CA24E596032590
    case 0x2 => 0x08BFD99A889F411B
    case 0x3 => 0x039372B07D149D62
    case 0x4 => 0x08CAE4146926428E
    case 0x5 => 0x03E64F3E9CAD9EF7
    case 0x6 => 0x1E93B2418231FA7C
    case 0x7 => 0x15BF196B77BA2605
    case 0x8 => 0x08209F09AA5445A4
    case 0x9 => 0x030C34235FDF99DD
    case 0xA => 0x1E79C95C4143FD56
    case 0xB => 0x15556276B4C8212F
    case 0xC => 0x1E0CF4D2A0FAFEC3
    case 0xD => 0x15205FF8557122BA
    case 0xE => 0x0855A2874BED4631
    case _ => 0x037909ADBE669A48
  }

  function RowC(lo: bv8): bv64 {
    match lo
    case 0x0 => 0x0EA7B1DC372072A0
    case 0x1 => 0x058B1AF6C2ABAED9
    case 0x2 => 0x18FEE789DC37CA52
    case 0x3 => 0x13D24CA329BC162B
    case 0x4 => 0x188BDA073D8EC9C7
    case 0x5 => 0x13A7712DC80515BE
    case 0x6 => 0x0ED28C52D6997135
    case 0x7 => 0x05FE27782312AD4C
    case 0x8 => 0x1861A11AFEFCCEED
    case 0x9 => 0x134D0A300B771294
    case 0xA => 0x0E38F74F15EB761F
    case 0xB => 0x05145C65E060AA66
    case 0xC => 0x0E4DCAC1F452758A
    case 0xD => 0x056161EB01D9A9F3
    case 0xE => 0x18149C941F45CD78
    case _ => 0x133837BEEACE1101
  }

  function RowD(lo: bv8): bv64 {
    match lo
    case 0x0 => 0x19B557217818C0B9
    case 0x1 => 0x1299FC0B8D931CC0
    case 0x2 => 0x0FEC0174930F784B
    case 0x3 => 0x04C0AA5E6684A432
    case 0x4 => 0x0F993CFA72B67BDE
    case 0x5 => 0x04B597D0873DA7A7
    case 0x6 => 0x19C06AAF99A1C32C
    case 0x7 => 0x12ECC1856C2A1F55
    case 0x8 => 0x0F7347E7B1C47CF4
    case 0x9 => 0x045FECCD444FA08D
    case 0xA => 0x192A11B25AD3C406
    case 0xB => 0x1206BA98AF58187F
    case 0xC => 0x195F2C3CBB6AC793
    case 0xD => 0x127387164EE11BEA
    case 0xE => 0x0F067A69507D7F61
    case _ => 0x042AD143A5F6A318
  }

  function RowE(lo: bv8): bv64 {
    match lo
    case 0x0 => 0x1A1CBB5675D0DC11
    case 0x1 => 0x1130107C805B0068
    case 0x2 => 0x0C45ED039EC764E3
    case 0x3 => 0x076946296B4CB89A
    case 0x4 => 0x0C30D08D7F7E6776
    case 0x5 => 0x071C7BA78AF5BB0F
    case 0x6 => 0x1A6986D89469DF84
    case 0x7 => 0x11452DF261E203FD
    case 0x8 => 0x0CDAAB90BC0C605C
    case 0x9 => 0x07F600BA4987BC25
    case 0xA => 0x1A83FDC5571BD8AE
    case 0xB => 0x11AF56EFA29004D7
    case 0xC => 0x1AF6C04BB6A2DB3B
    case 0xD => 0x11DA6B6143290742
    case 0xE => 0x0CAF961E5DB563C9
    case _ => 0x07833D34A83EBFB0
  }

  function RowF(lo: bv8): bv64 {
    match lo
    case 0x0 => 0x0D0E5DAB3AE86E08
    case 0x1 => 0x0622F681CF63B271
    case 0x2 => 0x1B570BFED1FFD6FA
    case 0x3 => 0x107BA0D424740A83
    case 0x4 => 0x1B2236703046D56F
    case 0x5 => 0x100E9D5AC5CD0916
    case 0x6 => 0x0D7B6025DB516D9D
    case 0x7 => 0x0657CB0F2EDAB1E4
    case 0x8 => 0x1BC84D6DF334D245
    case 0x9 => 0x10E4E64706BF0E3C
    case 0xA => 0x0D911B3818236AB7
    case 0xB => 0x06BDB012EDA8B6CE
    case 0xC => 0x0DE426B6F99A6922
    case 0xD => 0x06C88D9C0C11B55B
    case 0xE => 0x1BBD70E3128DD1D0
    case _ => 0x1091DBC9E7060DA9
  }

  function Entry(hi: bv8, lo: bv8): bv64 {
    match hi
    case 0x0 => Row0(lo)
    case 0x1 => Row1(lo)
    case 0x2 => Row2(lo)
    case 0x3 => Row3(lo)
    case 0x4 => Row4(lo)
    case 0x5 => Row5(lo)
    case 0x6 => Row6(lo)
    case 0x7 => Row7(lo)
    case 0x8 => Row8(lo)
    case 0x9 => Row9(lo)
    case 0xA => RowA(lo)
    case 0xB => RowB(lo)
    case 0xC => RowC(lo)
    case 0xD => RowD(lo)
    case 0xE => RowE(lo)
    case _ => RowF(lo)
  }

  /** g_crc64_ertms_table[index]. */
  function Table(index: bv8): bv64 {
    Entry(index >> 4, index & 0xF)
  }

  // Every row holds eight register steps of its index. One lemma a row and one case an entry keep each proof small.

  lemma Row0Steps(lo: bv8)
    requires lo < 16
    ensures Row0(lo) == Step8(ERTMS_POLY, (lo as bv64) | 0x00)
  {
    match lo
    case 0x0 =>
    case 0x1 =>
    case 0x2 =>
    case 0x3 =>
    case 0x4 =>
    case 0x5 =>
    case 0x6 =>
    case 0x7 =>
    case 0x8 =>
    case 0x9 =>
    case 0xA =>
    case 0xB =>
    case 0xC =>
    case 0xD =>
    case 0xE =>
    case _ => assert lo == 0xF;
  }

  lemma Row1Steps(lo: bv8)
    requires lo < 16
    ensures Row1(lo) == Step8(ERTMS_POLY, (lo as bv64) | 0x10)
  {
    match lo
    case 0x0 =>
    case 0x1 =>
    case 0x2 =>
    case 0x3 =>
    case 0x4 =>
    case 0x5 =>
    case 0x6 =>
    case 0x7 =>
    case 0x8 =>
    case 0x9 =>
    case 0xA =>
    case 0xB =>
    case 0xC =>
    case 0xD =>
    case 0xE =>
    case _ => assert lo == 0xF;
  }

  lemma Row2Steps(lo: bv8)
    requires lo < 16
    ensures Row2(lo) == Step8(ERTMS_POLY, (lo as bv64) | 0x20)
  {
    match lo
    case 0x0 =>
    case 0x1 =>
    case 0x2 =>
    case 0x3 =>
    case 0x4 =>
    case 0x5 =>
    case 0x6 =>
    case 0x7 =>
    case 0x8 =>
    case 0x9 =>
    case 0xA =>
    case 0xB =>
    case 0xC =>
    case 0xD =>
    case 0xE =>
    case _ => assert lo == 0xF;
  }

  lemma Row3Steps(lo: bv8)
    requires lo < 16
    ensures Row3(lo) == Step8(ERTMS_POLY, (lo as bv64) | 0x30)
  {
    match lo
    case 0x0 =>
    case 0x1 =>
    case 0x2 =>
    case 0x3 =>
    case 0x4 =>
    case 0x5 =>
    case 0x6 =>
    case 0x7 =>
    case 0x8 =>
    case 0x9 =>
    case 0xA =>
    case 0xB =>
    case 0xC =>
    case 0xD =>
    case 0xE =>
    case _ => assert lo == 0xF;
  }

  lemma Row4Steps(lo: bv8)
    requires lo < 16
    ensures Row4(lo) == Step8(ERTMS_POLY, (lo as bv64) | 0x40)
  {
    match lo
    case 0x0 =>
    case 0x1 =>
    case 0x2 =>
    case 0x3 =>
    case 0x4 =>
    case 0x5 =>
    case 0x6 =>
    case 0x7 =>
    case 0x8 =>
    case 0x9 =>
    case 0xA =>
    case 0xB =>
    case 0xC =>
    case 0xD =>
    case 0xE =>
    case _ => assert lo == 0xF;
  }

  lemma Row5Steps(lo: bv8)
    requires lo < 16
    ensures Row5(lo) == Step8(ERTMS_POLY, (lo as bv64) | 0x50)
  {
    match lo
    case 0x0 =>
    case 0x1 =>
    case 0x2 =>
    case 0x3 =>
    case 0x4 =>
    case 0x5 =>
    case 0x6 =>
    case 0x7 =>
    case 0x8 =>
    case 0x9 =>
    case 0xA =>
    case 0xB =>
    case 0xC =>
    case 0xD =>
    case 0xE =>
    case _ => assert lo == 0xF;
  }

  lemma Row6Steps(lo: bv8)
    requires lo < 16
    ensures Row6(lo) == Step8(ERTMS_POLY, (lo as bv64) | 0x60)
  {
    match lo
    case 0x0 =>
    case 0x1 =>
    case 0x2 =>
    case 0x3 =>
    case 0x4 =>
    case 0x5 =>
    case 0x6 =>
    case 0x7 =>
    case 0x8 =>
    case 0x9 =>
    case 0xA =>
    case 0xB =>
    case 0xC =>
    case 0xD =>
    case 0xE =>
    case _ => assert lo == 0xF;
  }

  lemma Row7Steps(lo: bv8)
    requires lo < 16
    ensures Row7(lo) == Step8(ERTMS_POLY, (lo as bv64) | 0x70)
  {
    match lo
    case 0x0 =>
    case 0x1 =>
    case 0x2 =>
    case 0x3 =>
    case 0x4 =>
    case 0x5 =>
    case 0x6 =>
    case 0x7 =>
    case 0x8 =>
    case 0x9 =>
    case 0xA =>
    case 0xB =>
    case 0xC =>
    case 0xD =>
    case 0xE =>
    case _ => assert lo == 0xF;
  }

  lemma Row8Steps(lo: bv8)
    requires lo < 16
    ensures Row8(lo) == Step8(ERTMS_POLY, (lo as bv64) | 0x80)
  {
    match lo
    case 0x0 =>
    case 0x1 =>
    case 0x2 =>
    case 0x3 =>
    case 0x4 =>
    case 0x5 =>
    case 0x6 =>
    case 0x7 =>
    case 0x8 =>
    case 0x9 =>
    case 0xA =>
    case 0xB =>
    case 0xC =>
    case 0xD =>
    case 0xE =>
    case _ => assert lo == 0xF;
  }

  lemma Row9Steps(lo: bv8)
    requires lo < 16
    ensures Row9(lo) == Step8(ERTMS_POLY, (lo as bv64) | 0x90)
  {
    match lo
    case 0x0 =>
    case 0x1 =>
    case 0x2 =>
    case 0x3 =>
    case 0x4 =>
    case 0x5 =>
    case 0x6 =>
    case 0x7 =>
    case 0x8 =>
    case 0x9 =>
    case 0xA =>
    case 0xB =>
    case 0xC =>
    case 0xD =>
    case 0xE =>
    case _ => assert lo == 0xF;
  }

  lemma RowASteps(lo: bv8)
    requires lo < 16
    ensures RowA(lo) == Step8(ERTMS_POLY, (lo as bv64) | 0xA0)
  {
    match lo
    case 0x0 =>
    case 0x1 =>
    case 0x2 =>
    case 0x3 =>
    case 0x4 =>
    case 0x5 =>
    case 0x6 =>
    case 0x7 =>
    case 0x8 =>
    case 0x9 =>
    case 0xA =>
    case 0xB =>
    case 0xC =>
    case 0xD =>
    case 0xE =>
    case _ => assert lo == 0xF;
  }

  lemma RowBSteps(lo: bv8)
    requires lo < 16
    ensures RowB(lo) == Step8(ERTMS_POLY, (lo as bv64) | 0xB0)
  {
    match lo
    case 0x0 =>
    case 0x1 =>
    case 0x2 =>
    case 0x3 =>
    case 0x4 =>
    case 0x5 =>
    case 0x6 =>
    case 0x7 =>
    case 0x8 =>
    case 0x9 =>
    case 0xA =>
    case 0xB =>
    case 0xC =>
    case 0xD =>
    case 0xE =>
    case _ => assert lo == 0xF;
  }

  lemma RowCSteps(lo: bv8)
    requires lo < 16
    ensures RowC(lo) == Step8(ERTMS_POLY, (lo as bv64) | 0xC0)
  {
    match lo
    case 0x0 =>
    case 0x1 =>
    case 0x2 =>
    case 0x3 =>
    case 0x4 =>
    case 0x5 =>
    case 0x6 =>
    case 0x7 =>
    case 0x8 =>
    case 0x9 =>
    case 0xA =>
    case 0xB =>
    case 0xC =>
    case 0xD =>
    case 0xE =>
    case _ => assert lo == 0xF;
  }

  lemma RowDSteps(lo: bv8)
    requires lo < 16
    ensures RowD(lo) == Step8(ERTMS_POLY, (lo as bv64) | 0xD0)
  {
    match lo
    case 0x0 =>
    case 0x1 =>
    case 0x2 =>
    case 0x3 =>
    case 0x4 =>
    case 0x5 =>
    case 0x6 =>
    case 0x7 =>
    case 0x8 =>
    case 0x9 =>
    case 0xA =>
    case 0xB =>
    case 0xC =>
    case 0xD =>
    case 0xE =>
    case _ => assert lo == 0xF;
  }

  lemma RowESteps(lo: bv8)
    requires lo < 16
    ensures RowE(lo) == Step8(ERTMS_POLY, (lo as bv64) | 0xE0)
  {
    match lo
    case 0x0 =>
    case 0x1 =>
    case 0x2 =>
    case 0x3 =>
    case 0x4 =>
    case 0x5 =>
    case 0x6 =>
    case 0x7 =>
    case 0x8 =>
    case 0x9 =>
    case 0xA =>
    case 0xB =>
    case 0xC =>
    case 0xD =>
    case 0xE =>
    case _ => assert lo == 0xF;
  }

  lemma RowFSteps(lo: bv8)
    requires lo < 16
    ensures RowF(lo) == Step8(ERTMS_POLY, (lo as bv64) | 0xF0)
  {
    match lo
    case 0x0 =>
    case 0x1 =>
    case 0x2 =>
    case 0x3 =>
    case 0x4 =>
    case 0x5 =>
    case 0x6 =>
    case 0x7 =>
    case 0x8 =>
    case 0x9 =>
    case 0xA =>
    case 0xB =>
    case 0xC =>
    case 0xD =>
    case 0xE =>
    case _ => assert lo == 0xF;
  }

  lemma EntrySteps(hi: bv8, lo: bv8)
    requires hi < 16 && lo < 16
    ensures Entry(hi, lo) == Step8(ERTMS_POLY, (lo as bv64) | ((hi as bv64) << 4))
  {
    hide Step8, Row0, Row1, Row2, Row3, Row4, Row5, Row6, Row7, Row8, Row9, RowA, RowB, RowC, RowD, RowE, RowF;
    match hi
    case 0x0 => Row0Steps(lo);
    case 0x1 => Row1Steps(lo);
    case 0x2 => Row2Steps(lo);
    case 0x3 => Row3Steps(lo);
    case 0x4 => Row4Steps(lo);
    case 0x5 => Row5Steps(lo);
    case 0x6 => Row6Steps(lo);
    case 0x7 => Row7Steps(lo);
    case 0x8 => Row8Steps(lo);
    case 0x9 => Row9Steps(lo);
    case 0xA => RowASteps(lo);
    case 0xB => RowBSteps(lo);
    case 0xC => RowCSteps(lo);
    case 0xD => RowDSteps(lo);
    case 0xE => RowESteps(lo);
    case _ =>
      assert hi == 0xF;
      RowFSteps(lo);
  }

  /** The whole table is what the polynomial generates: entry i is the register after eight steps from i. */
  lemma TableIsGenerated(index: bv8)
    ensures Table(index) == Step8(ERTMS_POLY, index as bv64)
  {
    hide Step8, Entry;
    SplitIndex(index);
    EntrySteps(index >> 4, index & 0xF);
  }
}
