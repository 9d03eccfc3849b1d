/** The lookup table of the XZ polynomial. */
module XzTable {
  import opened Polynomials

  // The 256 entries, sixteen to a row.

  function Row0(lo: bv8): bv64 {
    match lo
    case 0x0 => 0x0000000000000000
    case 0x1 => 0x09A87409262A286D
    case 0x2 => 0x1350E8124C5450DA
    case 0x3 => 0x1AF89C1B6A7E78B7
    case 0x4 => 0x0EFFCC19ED95E633
    case 0x5 => 0x0757B810CBBFCE5E
    case 0x6 => 0x1DAF240BA1C1B6E9
    case 0x7 => 0x1407500287EB9E84
    case 0x8 => 0x1DFF9833DB2BCC66
    case 0x9 => 0x1457EC3AFD01E40B
    case 0xA => 0x0EAF7021977F9CBC
    case 0xB => 0x07070428B155B4D1
    case 0xC => 0x1300542A36BE2A55
    case 0xD => 0x1AA8202310940238
    case 0xE => 0x0050BC387AEA7A8F
    case _ => 0x09F8C8315CC052E2
  }

  function Row1(lo: bv8): bv64 {
    match lo
    case 0x0 => 0x13A12C5AC36ADF4B
    case 0x1 => 0x1A095853E540F726
    case 0x2 => 0x00F1C4488F3E8F91
    case 0x3 => 0x0959B041A914A7FC
    case 0x4 => 0x1D5EE0432EFF3978
    case 0x5 => 0x14F6944A08D51115
    case 0x6 => 0x0E0E085162AB69A2
    case 0x7 => 0x07A67C58448141CF
    case 0x8 => 0x0E5EB4691841132D
    case 0x9 => 0x07F6C0603E6B3B40
    case 0xA => 0x1D0E5C7B541543F7
    case 0xB => 0x14A62872723F6B9A
    case 0xC => 0x00A17870F5D4F51E
    case 0xD => 0x09090C79D3FEDD73
    case 0xE => 0x13F19062B980A5C4
    case _ => 0x1A59E46B9FAA8DA9
  }

  function Row2(lo: bv8): bv64 {
    match lo
    case 0x0 => 0x0F1C4488F3E8F911
    case 0x1 => 0x06B43081D5C2D17C
    case 0x2 => 0x1C4CAC9ABFBCA9CB
    case 0x3 => 0x15E4D893999681A6
    case 0x4 => 0x01E388911E7D1F22
    case 0x5 => 0x084BFC983857374F
    case 0x6 => 0x12B3608352294FF8
    case 0x7 => 0x1B1B148A74036795
    case 0x8 => 0x12E3DCBB28C33577
    case 0x9 => 0x1B4BA8B20EE91D1A
    case 0xA => 0x01B334A9649765AD
    case 0xB => 0x081B40A042BD4DC0
    case 0xC => 0x1C1C10A2C556D344
    case 0xD => 0x15B464ABE37CFB29
    case 0xE => 0x0F4CF8B08902839E
    case _ => 0x06E48CB9AF28ABF3
  }

  function Row3(lo: bv8): bv64 {
    match lo
    case 0x0 => 0x1CBD68D23082265A
    case 0x1 => 0x15151CDB16A80E37
    case 0x2 => 0x0FED80C07CD67680
    case 0x3 => 0x0645F4C95AFC5EED
    case 0x4 => 0x1242A4CBDD17C069
    case 0x5 => 0x1BEAD0C2FB3DE804
    case 0x6 => 0x01124CD9914390B3
    case 0x7 => 0x08BA38D0B769B8DE
    case 0x8 => 0x0142F0E1EBA9EA3C
    case 0x9 => 0x08EA84E8CD83C251
    case 0xA => 0x121218F3A7FDBAE6
    case 0xB => 0x1BBA6CFA81D7928B
    case 0xC => 0x0FBD3CF8063C0C0F
    case 0xD => 0x061548F120162462
    case 0xE => 0x1CEDD4EA4A685CD5
    case _ => 0x1545A0E36C4274B8
  }

  function Row4(lo: bv8): bv64 {
    match lo
    case 0x0 => 0x1E388911E7D1F222
    case 0x1 => 0x1790FD18C1FBDA4F
    case 0x2 => 0x0D686103AB85A2F8
    case 0x3 => 0x04C0150A8DAF8A95
    case 0x4 => 0x10C745080A441411
    case 0x5 => 0x196F31012C6E3C7C
    case 0x6 => 0x0397AD1A461044CB
    case 0x7 => 0x0A3FD913603A6CA6
    case 0x8 => 0x03C711223CFA3E44
    case 0x9 => 0x0A6F652B1AD01629
    case 0xA => 0x1097F93070AE6E9E
    case 0xB => 0x193F8D39568446F3
    case 0xC => 0x0D38DD3BD16FD877
    case 0xD => 0x0490A932F745F01A
    case 0xE => 0x1E6835299D3B88AD
    case _ => 0x17C04120BB11A0C0
  }

  function Row5(lo: bv8): bv64 {
    match lo
    case 0x0 => 0x0D99A54B24BB2D69
    case 0x1 => 0x0431D14202910504
    case 0x2 => 0x1EC94D5968EF7DB3
    case 0x3 => 0x176139504EC555DE
    case 0x4 => 0x03666952C92ECB5A
    case 0x5 => 0x0ACE1D5BEF04E337
    case 0x6 => 0x10368140857A9B80
    case 0x7 => 0x199EF549A350B3ED
    case 0x8 => 0x10663D78FF90E10F
    case 0x9 => 0x19CE4971D9BAC962
    case 0xA => 0x0336D56AB3C4B1D5
    case 0xB => 0x0A9EA16395EE99B8
    case 0xC => 0x1E99F1611205073C
    case 0xD => 0x17318568342F2F51
    case 0xE => 0x0DC919735E5157E6
    case _ => 0x04616D7A787B7F8B
  }

  function Row6(lo: bv8): bv64 {
    match lo
    case 0x0 => 0x1124CD9914390B33
    case 0x1 => 0x188CB9903213235E
    case 0x2 => 0x0274258B586D5BE9
    case 0x3 => 0x0BDC51827E477384
    case 0x4 => 0x1FDB0180F9ACED00
    case 0x5 => 0x16737589DF86C56D
    case 0x6 => 0x0C8BE992B5F8BDDA
    case 0x7 => 0x05239D9B93D295B7
    case 0x8 => 0x0CDB55AACF12C755
    case 0x9 => 0x057321A3E938EF38
    case 0xA => 0x1F8BBDB88346978F
    case 0xB => 0x1623C9B1A56CBFE2
    case 0xC => 0x022499B322872166
    case 0xD => 0x0B8CEDBA04AD090B
    case 0xE => 0x117471A16ED371BC
    case _ => 0x18DC05A848F959D1
  }

  function Row7(lo: bv8): bv64 {
    match lo
    case 0x0 => 0x0285E1C3D753D478
    case 0x1 => 0x0B2D95CAF179FC15
    case 0x2 => 0x11D509D19B0784A2
    case 0x3 => 0x187D7DD8BD2DACCF
    case 0x4 => 0x0C7A2DDA3AC6324B
    case 0x5 => 0x05D259D31CEC1A26
    case 0x6 => 0x1F2AC5C876926291
    case 0x7 => 0x1682B1C150B84AFC
    case 0x8 => 0x1F7A79F00C78181E
    case 0x9 => 0x16D20DF92A523073
    case 0xA => 0x0C2A91E2402C48C4
    case 0xB => 0x0582E5EB660660A9
    case 0xC => 0x1185B5E9E1EDFE2D
    case 0xD => 0x182DC1E0C7C7D640
    case 0xE => 0x02D55DFBADB9AEF7
    case _ => 0x0B7D29F28B93869A
  }

  function Row8(lo: bv8): bv64 {
    match lo
    case 0x0 => 0x142F0E1EBA9EA3C3
    case 0x1 => 0x1D877A179CB48BAE
    case 0x2 => 0x077FE60CF6CAF319
    case 0x3 => 0x0ED79205D0E0DB74
    case 0x4 => 0x1AD0C207570B45F0
    case 0x5 => 0x1378B60E71216D9D
    case 0x6 => 0x09802A151B5F152A
    case 0x7 => 0x00285E1C3D753D47
    case 0x8 => 0x09D0962D61B56FA5
    case 0x9 => 0x0078E224479F47C8
    case 0xA => 0x1A807E3F2DE13F7F
    case 0xB => 0x13280A360BCB1712
    case 0xC => 0x072F5A348C208996
    case 0xD => 0x0E872E3DAA0AA1FB
    case 0xE => 0x147FB226C074D94C
    case _ => 0x1DD7C62FE65EF121
  }

  function Row9(lo: bv8): bv64 {
    match lo
    case 0x0 => 0x078E224479F47C88
    case 0x1 => 0x0E26564D5FDE54E5
    case 0x2 => 0x14DECA5635A02C52
    case 0x3 => 0x1D76BE5F138A043F
    case 0x4 => 0x0971EE5D94619ABB
    case 0x5 => 0x00D99A54B24BB2D6
    case 0x6 => 0x1A21064FD835CA61
    case 0x7 => 0x13897246FE1FE20C
    case 0x8 => 0x1A71BA77A2DFB0EE
    case 0x9 => 0x13D9CE7E84F59883
    case 0xA => 0x09215265EE8BE034
    case 0xB => 0x0089266CC8A1C859
    case 0xC => 0x148E766E4F4A56DD
    case 0xD => 0x1D26026769607EB0
    case 0xE => 0x07DE9E7C031E0607
    case _ => 0x0E76EA7525342E6A
  }

  function RowA(lo: bv8): bv64 {
    match lo
    case 0x0 => 0x1B334A9649765AD2
    case 0x1 => 0x129B3E9F6F5C72BF
    case 0x2 => 0x0863A28405220A08
    case 0x3 => 0x01CBD68D23082265
    case 0x4 => 0x15CC868FA4E3BCE1
    case 0x5 => 0x1C64F28682C9948C
    case 0x6 => 0x069C6E9DE8B7EC3B
    case 0x7 => 0x0F341A94CE9DC456
    case 0x8 => 0x06CCD2A5925D96B4
    case 0x9 => 0x0F64A6ACB477BED9
    case 0xA => 0x159C3AB7DE09C66E
    case 0xB => 0x1C344EBEF823EE03
    case 0xC => 0x08331EBC7FC87087
    case 0xD => 0x019B6AB559E258EA
    case 0xE => 0x1B63F6AE339C205D
    case _ => 0x12CB82A715B60830
  }

  function RowB(lo: bv8): bv64 {
    match lo
    case 0x0 => 0x089266CC8A1C8599
    case 0x1 => 0x013A12C5AC36ADF4
    case 0x2 => 0x1BC28EDEC648D543
    case 0x3 => 0x126AFAD7E062FD2E
    case 0x4 => 0x066DAAD5678963AA
    case 0x5 => 0x0FC5DEDC41A34BC7
    case 0x6 => 0x153D42C72BDD3370
    case 0x7 => 0x1C9536CE0DF71B1D
    case 0x8 => 0x156DFEFF513749FF
    case 0x9 => 0x1CC58AF6771D6192
    case 0xA => 0x063D16ED1D631925
    case 0xB => 0x0F9562E43B493148
    case 0xC => 0x1B9232E6BCA2AFCC
    case 0xD => 0x123A46EF9A8887A1
    case 0xE => 0x08C2DAF4F0F6FF16
    case _ => 0x016AAEFDD6DCD77B
  }

  function RowC(lo: bv8): bv64 {
    match lo
    case 0x0 => 0x0A17870F5D4F51E1
    case 0x1 => 0x03BFF3067B65798C
    case 0x2 => 0x19476F1D111B013B
    case 0x3 => 0x10EF1B1437312956
    case 0x4 => 0x04E84B16B0DAB7D2
    case 0x5 => 0x0D403F1F96F09FBF
    case 0x6 => 0x17B8A304FC8EE708
    case 0x7 => 0x1E10D70DDAA4CF65
    case 0x8 => 0x17E81F3C86649D87
    case 0x9 => 0x1E406B35A04EB5EA
    case 0xA => 0x04B8F72ECA30CD5D
    case 0xB => 0x0D108327EC1AE530
    case 0xC => 0x1917D3256BF17BB4
    case 0xD => 0x10BFA72C4DDB53D9
    case 0xE => 0x0A473B3727A52B6E
    case _ => 0x03EF4F3E018F0303
  }

  function RowD(lo: bv8): bv64 {
    match lo
    case 0x0 => 0x19B6AB559E258EAA
    case 0x1 => 0x101EDF5CB80FA6C7
    case 0x2 => 0x0AE64347D271DE70
    case 0x3 => 0x034E374EF45BF61D
    case 0x4 => 0x1749674C73B06899
    case 0x5 => 0x1EE11345559A40F4
    case 0x6 => 0x04198F5E3FE43843
    case 0x7 => 0x0DB1FB5719CE102E
    case 0x8 => 0x04493366450E42CC
    case 0x9 => 0x0DE1476F63246AA1
    case 0xA => 0x1719DB74095A1216
    case 0xB => 0x1EB1AF7D2F703A7B
    case 0xC => 0x0AB6FF7FA89BA4FF
    case 0xD => 0x031E8B768EB18C92
    case 0xE => 0x19E6176DE4CFF425
    case _ => 0x104E6364C2E5DC48
  }

  function RowE(lo: bv8): bv64 {
    match lo
    case 0x0 => 0x050BC387AEA7A8F0
    case 0x1 => 0x0CA3B78E888D809D
    case 0x2 => 0x165B2B95E2F3F82A
    case 0x3 => 0x1FF35F9CC4D9D047
    case 0x4 => 0x0BF40F9E43324EC3
    case 0x5 => 0x025C7B97651866AE
    case 0x6 => 0x18A4E78C0F661E19
    case 0x7 => 0x110C9385294C3674
    case 0x8 => 0x18F45BB4758C6496
    case 0x9 => 0x115C2FBD53A64CFB
    case 0xA => 0x0BA4B3A639D8344C
    case 0xB => 0x020CC7AF1FF21C21
    case 0xC => 0x160B97AD981982A5
    case 0xD => 0x1FA3E3A4BE33AAC8
    case 0xE => 0x055B7FBFD44DD27F
    case _ => 0x0CF30BB6F267FA12
  }

  function RowF(lo: bv8): bv64 {
    match lo
    case 0x0 => 0x16AAEFDD6DCD77BB
    case 0x1 => 0x1F029BD44BE75FD6
    case 0x2 => 0x05FA07CF21992761
    case 0x3 => 0x0C5273C607B30F0C
    case 0x4 => 0x185523C480589188
    case 0x5 => 0x11FD57CDA672B9E5
    case 0x6 => 0x0B05CBD6CC0CC152
    case 0x7 => 0x02ADBFDFEA26E93F
    case 0x8 => 0x0B5577EEB6E6BBDD
    case 0x9 => 0x02FD03E790CC93B0
    case 0xA => 0x18059FFCFAB2EB07
    case 0xB => 0x11ADEBF5DC98C36A
    case 0xC => 0x05AABBF75B735DEE
    case 0xD => 0x0C02CFFE7D597583
    case 0xE => 0x16FA53E517270D34
    case _ => 0x1F5227EC310D2559
  }

  function Entry(hi: bv8, lo: bv8): bv64 {
    match hi
    case 0x0 => Row0(lo)
    case 0x1 => Row1(lo)
    case 0x2 => Row2(lo)
    case 0x3 => Row3(lo)
    case 0x4 => Row4(lo)
    case 0x5 => Row5(lo)
    case 0x6 => Row6(lo)
    case 0x7 => Row7(lo)
    case 0x8 => Row8(lo)
    case 0x9 => Row9(lo)
    case 0xA => RowA(lo)
    case 0xB => RowB(lo)
    case 0xC => RowC(lo)
    case 0xD => RowD(lo)
    case 0xE => RowE(lo)
    case _ => RowF(lo)
  }

  /** g_crc64_xz_table[index]. */
  function Table(index: bv8): bv64 {
    Entry(index >> 4, index & 0xF)
  }

  // Every row holds eight register steps of its index. One lemma a row and one case an entry keep each proof small.

  lemma Row0Steps(lo: bv8)
    requires lo < 16
    ensures Row0(lo) == Step8(XZ_POLY, (lo as bv64) | 0x00)
  {
    match lo
    case 0x0 =>
    case 0x1 =>
    case 0x2 =>
    case 0x3 =>
    case 0x4 =>
    case 0x5 =>
    case 0x6 =>
    case 0x7 =>
    case 0x8 =>
    case 0x9 =>
    case 0xA =>
    case 0xB =>
    case 0xC =>
    case 0xD =>
    case 0xE =>
    case _ => assert lo == 0xF;
  }

  lemma Row1Steps(lo: bv8)
    requires lo < 16
    ensures Row1(lo) == Step8(XZ_POLY, (lo as bv64) | 0x10)
  {
    match lo
    case 0x0 =>
    case 0x1 =>
    case 0x2 =>
    case 0x3 =>
    case 0x4 =>
    case 0x5 =>
    case 0x6 =>
    case 0x7 =>
    case 0x8 =>
    case 0x9 =>
    case 0xA =>
    case 0xB =>
    case 0xC =>
    case 0xD =>
    case 0xE =>
    case _ => assert lo == 0xF;
  }

  lemma Row2Steps(lo: bv8)
    requires lo < 16
    ensures Row2(lo) == Step8(XZ_POLY, (lo as bv64) | 0x20)
  {
    match lo
    case 0x0 =>
    case 0x1 =>
    case 0x2 =>
    case 0x3 =>
    case 0x4 =>
    case 0x5 =>
    case 0x6 =>
    case 0x7 =>
    case 0x8 =>
    case 0x9 =>
    case 0xA =>
    case 0xB =>
    case 0xC =>
    case 0xD =>
    case 0xE =>
    case _ => assert lo == 0xF;
  }

  lemma Row3Steps(lo: bv8)
    requires lo < 16
    ensures Row3(lo) == Step8(XZ_POLY, (lo as bv64) | 0x30)
  {
    match lo
    case 0x0 =>
    case 0x1 =>
    case 0x2 =>
    case 0x3 =>
    case 0x4 =>
    case 0x5 =>
    case 0x6 =>
    case 0x7 =>
    case 0x8 =>
    case 0x9 =>
    case 0xA =>
    case 0xB =>
    case 0xC =>
    case 0xD =>
    case 0xE =>
    case _ => assert lo == 0xF;
  }

  lemma Row4Steps(lo: bv8)
    requires lo < 16
    ensures Row4(lo) == Step8(XZ_POLY, (lo as bv64) | 0x40)
  {
    match lo
    case 0x0 =>
    case 0x1 =>
    case 0x2 =>
    case 0x3 =>
    case 0x4 =>
    case 0x5 =>
    case 0x6 =>
    case 0x7 =>
    case 0x8 =>
    case 0x9 =>
    case 0xA =>
    case 0xB =>
    case 0xC =>
    case 0xD =>
    case 0xE =>
    case _ => assert lo == 0xF;
  }

  lemma Row5Steps(lo: bv8)
    requires lo < 16
    ensures Row5(lo) == Step8(XZ_POLY, (lo as bv64) | 0x50)
  {
    match lo
    case 0x0 =>
    case 0x1 =>
    case 0x2 =>
    case 0x3 =>
    case 0x4 =>
    case 0x5 =>
    case 0x6 =>
    case 0x7 =>
    case 0x8 =>
    case 0x9 =>
    case 0xA =>
    case 0xB =>
    case 0xC =>
    case 0xD =>
    case 0xE =>
    case _ => assert lo == 0xF;
  }

  lemma Row6Steps(lo: bv8)
    requires lo < 16
    ensures Row6(lo) == Step8(XZ_POLY, (lo as bv64) | 0x60)
  {
    match lo
    case 0x0 =>
    case 0x1 =>
    case 0x2 =>
    case 0x3 =>
    case 0x4 =>
    case 0x5 =>
    case 0x6 =>
    case 0x7 =>
    case 0x8 =>
    case 0x9 =>
    case 0xA =>
    case 0xB =>
    case 0xC =>
    case 0xD =>
    case 0xE =>
    case _ => assert lo == 0xF;
  }

  lemma Row7Steps(lo: bv8)
    requires lo < 16
    ensures Row7(lo) == Step8(XZ_POLY, (lo as bv64) | 0x70)
  {
    match lo
    case 0x0 =>
    case 0x1 =>
    case 0x2 =>
    case 0x3 =>
    case 0x4 =>
    case 0x5 =>
    case 0x6 =>
    case 0x7 =>
    case 0x8 =>
    case 0x9 =>
    case 0xA =>
    case 0xB =>
    case 0xC =>
    case 0xD =>
    case 0xE =>
    case _ => assert lo == 0xF;
  }

  lemma Row8Steps(lo: bv8)
    requires lo < 16
    ensures Row8(lo) == Step8(XZ_POLY, (lo as bv64) | 0x80)
  {
    match lo
    case 0x0 =>
    case 0x1 =>
    case 0x2 =>
    case 0x3 =>
    case 0x4 =>
    case 0x5 =>
    case 0x6 =>
    case 0x7 =>
    case 0x8 =>
    case 0x9 =>
    case 0xA =>
    case 0xB =>
    case 0xC =>
    case 0xD =>
    case 0xE =>
    case _ => assert lo == 0xF;
  }

  lemma Row9Steps(lo: bv8)
    requires lo < 16
    ensures Row9(lo) == Step8(XZ_POLY, (lo as bv64) | 0x90)
  {
    match lo
    case 0x0 =>
    case 0x1 =>
    case 0x2 =>
    case 0x3 =>
    case 0x4 =>
    case 0x5 =>
    case 0x6 =>
    case 0x7 =>
    case 0x8 =>
    case 0x9 =>
    case 0xA =>
    case 0xB =>
    case 0xC =>
    case 0xD =>
    case 0xE =>
    case _ => assert lo == 0xF;
  }

  lemma RowASteps(lo: bv8)
    requires lo < 16
    ensures RowA(lo) == Step8(XZ_POLY, (lo as bv64) | 0xA0)
  {
    match lo
    case 0x0 =>
    case 0x1 =>
    case 0x2 =>
    case 0x3 =>
    case 0x4 =>
    case 0x5 =>
    case 0x6 =>
    case 0x7 =>
    case 0x8 =>
    case 0x9 =>
    case 0xA =>
    case 0xB =>
    case 0xC =>
    case 0xD =>
    case 0xE =>
    case _ => assert lo == 0xF;
  }

  lemma RowBSteps(lo: bv8)
    requires lo < 16
    ensures RowB(lo) == Step8(XZ_POLY, (lo as bv64) | 0xB0)
  {
    match lo
    case 0x0 =>
    case 0x1 =>
    case 0x2 =>
    case 0x3 =>
    case 0x4 =>
    case 0x5 =>
    case 0x6 =>
    case 0x7 =>
    case 0x8 =>
    case 0x9 =>
    case 0xA =>
    case 0xB =>
    case 0xC =>
    case 0xD =>
    case 0xE =>
    case _ => assert lo == 0xF;
  }

  lemma RowCSteps(lo: bv8)
    requires lo < 16
    ensures RowC(lo) == Step8(XZ_POLY, (lo as bv64) | 0xC0)
  {
    match lo
    case 0x0 =>
    case 0x1 =>
    case 0x2 =>
    case 0x3 =>
    case 0x4 =>
    case 0x5 =>
    case 0x6 =>
    case 0x7 =>
    case 0x8 =>
    case 0x9 =>
    case 0xA =>
    case 0xB =>
    case 0xC =>
    case 0xD =>
    case 0xE =>
    case _ => assert lo == 0xF;
  }

  lemma RowDSteps(lo: bv8)
    requires lo < 16
    ensures RowD(lo) == Step8(XZ_POLY, (lo as bv64) | 0xD0)
  {
    match lo
    case 0x0 =>
    case 0x1 =>
    case 0x2 =>
    case 0x3 =>
    case 0x4 =>
    case 0x5 =>
    case 0x6 =>
    case 0x7 =>
    case 0x8 =>
    case 0x9 =>
    case 0xA =>
    case 0xB =>
    case 0xC =>
    case 0xD =>
    case 0xE =>
    case _ => assert lo == 0xF;
  }

  lemma RowESteps(lo: bv8)
    requires lo < 16
    ensures RowE(lo) == Step8(XZ_POLY, (lo as bv64) | 0xE0)
  {
    match lo
    case 0x0 =>
    case 0x1 =>
    case 0x2 =>
    case 0x3 =>
    case 0x4 =>
    case 0x5 =>
    case 0x6 =>
    case 0x7 =>
    case 0x8 =>
    case 0x9 =>
    case 0xA =>
    case 0xB =>
    case 0xC =>
    case 0xD =>
    case 0xE =>
    case _ => assert lo == 0xF;
  }

  lemma RowFSteps(lo: bv8)
    requires lo < 16
    ensures RowF(lo) == Step8(XZ_POLY, (lo as bv64) | 0xF0)
  {
    match lo
    case 0x0 =>
    case 0x1 =>
    case 0x2 =>
    case 0x3 =>
    case 0x4 =>
    case 0x5 =>
    case 0x6 =>
    case 0x7 =>
    case 0x8 =>
    case 0x9 =>
    case 0xA =>
    case 0xB =>
    case 0xC =>
    case 0xD =>
    case 0xE =>
    case _ => assert lo == 0xF;
  }

  lemma EntrySteps(hi: bv8, lo: bv8)
    requires hi < 16 && lo < 16
    ensures Entry(hi, lo) == Step8(XZ_POLY, (lo as bv64) | ((hi as bv64) << 4))
  {
    hide Step8, Row0, Row1, Row2, Row3, Row4, Row5, Row6, Row7, Row8, Row9, RowA, RowB, RowC, RowD, RowE, RowF;
    match hi
    case 0x0 => Row0Steps(lo);
    case 0x1 => Row1Steps(lo);
    case 0x2 => Row2Steps(lo);
    case 0x3 => Row3Steps(lo);
    case 0x4 => Row4Steps(lo);
    case 0x5 => Row5Steps(lo);
    case 0x6 => Row6Steps(lo);
    case 0x7 => Row7Steps(lo);
    case 0x8 => Row8Steps(lo);
    case 0x9 => Row9Steps(lo);
    case 0xA => RowASteps(lo);
    case 0xB => RowBSteps(lo);
    case 0xC => RowCSteps(lo);
    case 0xD => RowDSteps(lo);
    case 0xE => RowESteps(lo);
    case _ =>
      assert hi == 0xF;
      RowFSteps(lo);
  }

  /** The whole table is what the polynomial generates: entry i is the register after eight steps from i. */
  lemma TableIsGenerated(index: bv8)
    ensures Table(index) == Step8(XZ_POLY, index as bv64)
  {
    hide Step8, Entry;
    SplitIndex(index);
    EntrySteps(index >> 4, index & 0xF);
  }
}
