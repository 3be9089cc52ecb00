/**
 * The parity test vectors of src/adsb/crc.rs, worked through the register
 * eight passes at a time.  A squitter is given by the words its hexadecimal
 * digits spell: "8D40621D58C382D690C8AC2863A7" has bits 1-32 = 0x8D40621D,
 * bits 33-64 = 0x58C382D6 and bits 65-88 = 0x90C8AC.
 */
module CrcVectors {
  import opened Bits
  import opened Crc

  /** crc112 of "8D40621D58C382D690C8AC2863A7" is 2646951. */
  lemma Crc112Vector1(m: seq<Nibble>)
    requires |m| >= 22
    requires Field(m, 1, 32) == 0x8D40_621D && Field(m, 33, 64) == 0x58C3_82D6 && Field(m, 65, 88) == 0x90C8AC
    ensures Crc112Value(m) == 2646951
  {
    WordOfField(m, 1, 32, 0x8D40_621D);
    WordOfField(m, 33, 64, 0x58C3_82D6);
    WordOfField(m, 65, 88, 0x90C8AC);
    Crc112Vector1Passes0();
    Crc112Vector1Passes8();
    Crc112Vector1Passes16();
    Crc112Vector1Passes24();
    Crc112Vector1Passes32();
    Crc112Vector1Passes40();
    Crc112Vector1Passes48();
    Crc112Vector1Passes56();
    Crc112Vector1Passes64();
    Crc112Vector1Passes72();
    Crc112Vector1Passes80();
  }

  lemma Crc112Vector1Passes0()
    ensures Run112(0x8D40_621D, 0x58C3_82D6, 0x90C8_AC00, 88) == Run112(0xB8D8_8E58, 0xC382_D690, 0xC8AC_0000, 80)
  {
  }

  lemma Crc112Vector1Passes8()
    ensures Run112(0xB8D8_8E58, 0xC382_D690, 0xC8AC_0000, 80) == Run112(0xDED9_9CC3, 0x82D6_90C8, 0xAC00_0000, 72)
  {
  }

  lemma Crc112Vector1Passes16()
    ensures Run112(0xDED9_9CC3, 0x82D6_90C8, 0xAC00_0000, 72) == Run112(0xDDAD_FA82, 0xD690_C8AC, 0x0000_0000, 64)
  {
  }

  lemma Crc112Vector1Passes24()
    ensures Run112(0xDDAD_FA82, 0xD690_C8AC, 0x0000_0000, 64) == Run112(0x5623_A9D6, 0x90C8_AC00, 0x0000_0000, 56)
  {
  }

  lemma Crc112Vector1Passes32()
    ensures Run112(0x5623_A9D6, 0x90C8_AC00, 0x0000_0000, 56) == Run112(0x20EE_4390, 0xC8AC_0000, 0x0000_0000, 48)
  {
  }

  lemma Crc112Vector1Passes40()
    ensures Run112(0x20EE_4390, 0xC8AC_0000, 0x0000_0000, 48) == Run112(0xEF82_20C8, 0xAC00_0000, 0x0000_0000, 40)
  {
  }

  lemma Crc112Vector1Passes48()
    ensures Run112(0xEF82_20C8, 0xAC00_0000, 0x0000_0000, 40) == Run112(0x78C4_90AC, 0x0000_0000, 0x0000_0000, 32)
  {
  }

  lemma Crc112Vector1Passes56()
    ensures Run112(0x78C4_90AC, 0x0000_0000, 0x0000_0000, 32) == Run112(0xC642_C800, 0x0000_0000, 0x0000_0000, 24)
  {
  }

  lemma Crc112Vector1Passes64()
    ensures Run112(0xC642_C800, 0x0000_0000, 0x0000_0000, 24) == Run112(0x4669_8D00, 0x0000_0000, 0x0000_0000, 16)
  {
  }

  lemma Crc112Vector1Passes72()
    ensures Run112(0x4669_8D00, 0x0000_0000, 0x0000_0000, 16) == Run112(0x6A2A_4D00, 0x0000_0000, 0x0000_0000, 8)
  {
  }

  lemma Crc112Vector1Passes80()
    ensures Run112(0x6A2A_4D00, 0x0000_0000, 0x0000_0000, 8) == 0x2863_A700
  {
  }

  /** crc112 of "A0001838300000000000007ADA59" is 747097. */
  lemma Crc112Vector2(m: seq<Nibble>)
    requires |m| >= 22
    requires Field(m, 1, 32) == 0xA000_1838 && Field(m, 33, 64) == 0x3000_0000 && Field(m, 65, 88) == 0x000000
    ensures Crc112Value(m) == 747097
  {
    WordOfField(m, 1, 32, 0xA000_1838);
    WordOfField(m, 33, 64, 0x3000_0000);
    WordOfField(m, 65, 88, 0x000000);
    Crc112Vector2Passes0();
    Crc112Vector2Passes8();
    Crc112Vector2Passes16();
    Crc112Vector2Passes24();
    Crc112Vector2Passes32();
    Crc112Vector2Passes40();
    Crc112Vector2Passes48();
    Crc112Vector2Passes56();
    Crc112Vector2Passes64();
    Crc112Vector2Passes72();
    Crc112Vector2Passes80();
  }

  lemma Crc112Vector2Passes0()
    ensures Run112(0xA000_1838, 0x3000_0000, 0x0000_0000, 88) == Run112(0x06DF_4830, 0x0000_0000, 0x0000_0000, 80)
  {
  }

  lemma Crc112Vector2Passes8()
    ensures Run112(0x06DF_4830, 0x0000_0000, 0x0000_0000, 80) == Run112(0xDF6C_1D00, 0x0000_0000, 0x0000_0000, 72)
  {
  }

  lemma Crc112Vector2Passes16()
    ensures Run112(0xDF6C_1D00, 0x0000_0000, 0x0000_0000, 72) == Run112(0x97D8_3000, 0x0000_0000, 0x0000_0000, 64)
  {
  }

  lemma Crc112Vector2Passes24()
    ensures Run112(0x97D8_3000, 0x0000_0000, 0x0000_0000, 64) == Run112(0x2006_3C00, 0x0000_0000, 0x0000_0000, 56)
  {
  }

  lemma Crc112Vector2Passes32()
    ensures Run112(0x2006_3C00, 0x0000_0000, 0x0000_0000, 56) == Run112(0x07FD_B000, 0x0000_0000, 0x0000_0000, 48)
  {
  }

  lemma Crc112Vector2Passes40()
    ensures Run112(0x07FD_B000, 0x0000_0000, 0x0000_0000, 48) == Run112(0x0260_2400, 0x0000_0000, 0x0000_0000, 40)
  {
  }

  lemma Crc112Vector2Passes48()
    ensures Run112(0x0260_2400, 0x0000_0000, 0x0000_0000, 40) == Run112(0x6038_1B00, 0x0000_0000, 0x0000_0000, 32)
  {
  }

  lemma Crc112Vector2Passes56()
    ensures Run112(0x6038_1B00, 0x0000_0000, 0x0000_0000, 32) == Run112(0x3A59_D000, 0x0000_0000, 0x0000_0000, 24)
  {
  }

  lemma Crc112Vector2Passes64()
    ensures Run112(0x3A59_D000, 0x0000_0000, 0x0000_0000, 24) == Run112(0x589D_1F00, 0x0000_0000, 0x0000_0000, 16)
  {
  }

  lemma Crc112Vector2Passes72()
    ensures Run112(0x589D_1F00, 0x0000_0000, 0x0000_0000, 16) == Run112(0x9E0C_D400, 0x0000_0000, 0x0000_0000, 8)
  {
  }

  lemma Crc112Vector2Passes80()
    ensures Run112(0x9E0C_D400, 0x0000_0000, 0x0000_0000, 8) == 0x0B66_5900
  {
  }

  /** crc56 of "8D40621D58C382D690C8AC2863A7" is 974891. */
  lemma Crc56Vector1(m: seq<Nibble>)
    requires |m| >= 8
    requires Field(m, 1, 32) == 0x8D40_621D
    ensures Crc56Value(m) == 974891
  {
    WordOfField(m, 1, 32, 0x8D40_621D);
    Crc56Vector1Passes0();
    Crc56Vector1Passes8();
    Crc56Vector1Passes16();
    Crc56Vector1Passes24();
  }

  lemma Crc56Vector1Passes0()
    ensures Run56(0x8D40_621D, 32) == Run56(0xB8D8_8E00, 24)
  {
  }

  lemma Crc56Vector1Passes8()
    ensures Run56(0xB8D8_8E00, 24) == Run56(0xDED9_C400, 16)
  {
  }

  lemma Crc56Vector1Passes16()
    ensures Run56(0xDED9_C400, 16) == Run56(0xDDF5_3900, 8)
  {
  }

  lemma Crc56Vector1Passes24()
    ensures Run56(0xDDF5_3900, 8) == 0x0EE0_2B00
  {
  }

  /** crc56 of "02E197B00179C3" is 4874557. */
  lemma Crc56Vector2(m: seq<Nibble>)
    requires |m| >= 8
    requires Field(m, 1, 32) == 0x02E1_97B0
    ensures Crc56Value(m) == 4874557
  {
    WordOfField(m, 1, 32, 0x02E1_97B0);
    Crc56Vector2Passes0();
    Crc56Vector2Passes8();
    Crc56Vector2Passes16();
    Crc56Vector2Passes24();
  }

  lemma Crc56Vector2Passes0()
    ensures Run56(0x02E1_97B0, 32) == Run56(0xE18B_AB00, 24)
  {
  }

  lemma Crc56Vector2Passes8()
    ensures Run56(0xE18B_AB00, 24) == Run56(0x711B_1900, 16)
  {
  }

  lemma Crc56Vector2Passes16()
    ensures Run56(0x711B_1900, 16) == Run56(0xE64F_0100, 8)
  {
  }

  lemma Crc56Vector2Passes24()
    ensures Run56(0xE64F_0100, 8) == 0x4A61_3D00
  {
  }

  /** crc112 of "A800161110010080E6000073D501" is 157953. */
  lemma Crc112Vector3(m: seq<Nibble>)
    requires |m| >= 22
    requires Field(m, 1, 32) == 0xA800_1611 && Field(m, 33, 64) == 0x1001_0080 && Field(m, 65, 88) == 0xE60000
    ensures Crc112Value(m) == 157953
  {
    WordOfField(m, 1, 32, 0xA800_1611);
    WordOfField(m, 33, 64, 0x1001_0080);
    WordOfField(m, 65, 88, 0xE60000);
    Crc112Vector3Passes0();
    Crc112Vector3Passes8();
    Crc112Vector3Passes16();
    Crc112Vector3Passes24();
    Crc112Vector3Passes32();
    Crc112Vector3Passes40();
    Crc112Vector3Passes48();
    Crc112Vector3Passes56();
    Crc112Vector3Passes64();
    Crc112Vector3Passes72();
    Crc112Vector3Passes80();
  }

  lemma Crc112Vector3Passes0()
    ensures Run112(0xA800_1611, 0x1001_0080, 0xE600_0000, 88) == Run112(0x06A1_0D10, 0x0100_80E6, 0x0000_0000, 80)
  {
  }

  lemma Crc112Vector3Passes8()
    ensures Run112(0x06A1_0D10, 0x0100_80E6, 0x0000_0000, 80) == Run112(0xA129_3D01, 0x0080_E600, 0x0000_0000, 72)
  {
  }

  lemma Crc112Vector3Passes16()
    ensures Run112(0xA129_3D01, 0x0080_E600, 0x0000_0000, 72) == Run112(0xD00E_7800, 0x80E6_0000, 0x0000_0000, 64)
  {
  }

  lemma Crc112Vector3Passes24()
    ensures Run112(0xD00E_7800, 0x80E6_0000, 0x0000_0000, 64) == Run112(0x0A1D_7880, 0xE600_0000, 0x0000_0000, 56)
  {
  }

  lemma Crc112Vector3Passes32()
    ensures Run112(0x0A1D_7880, 0xE600_0000, 0x0000_0000, 56) == Run112(0x1D14_F7E6, 0x0000_0000, 0x0000_0000, 48)
  {
  }

  lemma Crc112Vector3Passes40()
    ensures Run112(0x1D14_F7E6, 0x0000_0000, 0x0000_0000, 48) == Run112(0xEBAB_6D00, 0x0000_0000, 0x0000_0000, 40)
  {
  }

  lemma Crc112Vector3Passes48()
    ensures Run112(0xEBAB_6D00, 0x0000_0000, 0x0000_0000, 40) == Run112(0x51B1_6E00, 0x0000_0000, 0x0000_0000, 32)
  {
  }

  lemma Crc112Vector3Passes56()
    ensures Run112(0x51B1_6E00, 0x0000_0000, 0x0000_0000, 32) == Run112(0x4DF9_B100, 0x0000_0000, 0x0000_0000, 24)
  {
  }

  lemma Crc112Vector3Passes64()
    ensures Run112(0x4DF9_B100, 0x0000_0000, 0x0000_0000, 24) == Run112(0x058E_3300, 0x0000_0000, 0x0000_0000, 16)
  {
  }

  lemma Crc112Vector3Passes72()
    ensures Run112(0x058E_3300, 0x0000_0000, 0x0000_0000, 16) == Run112(0x71FF_3F00, 0x0000_0000, 0x0000_0000, 8)
  {
  }

  lemma Crc112Vector3Passes80()
    ensures Run112(0x71FF_3F00, 0x0000_0000, 0x0000_0000, 8) == 0x0269_0100
  {
  }

  /** crc112 of "A800120110010080F600001AFEDD" is 5367331. */
  lemma Crc112Vector4(m: seq<Nibble>)
    requires |m| >= 22
    requires Field(m, 1, 32) == 0xA800_1201 && Field(m, 33, 64) == 0x1001_0080 && Field(m, 65, 88) == 0xF60000
    ensures Crc112Value(m) == 5367331
  {
    WordOfField(m, 1, 32, 0xA800_1201);
    WordOfField(m, 33, 64, 0x1001_0080);
    WordOfField(m, 65, 88, 0xF60000);
    Crc112Vector4Passes0();
    Crc112Vector4Passes8();
    Crc112Vector4Passes16();
    Crc112Vector4Passes24();
    Crc112Vector4Passes32();
    Crc112Vector4Passes40();
    Crc112Vector4Passes48();
    Crc112Vector4Passes56();
    Crc112Vector4Passes64();
    Crc112Vector4Passes72();
    Crc112Vector4Passes80();
  }

  lemma Crc112Vector4Passes0()
    ensures Run112(0xA800_1201, 0x1001_0080, 0xF600_0000, 88) == Run112(0x06A5_1D10, 0x0100_80F6, 0x0000_0000, 80)
  {
  }

  lemma Crc112Vector4Passes8()
    ensures Run112(0x06A5_1D10, 0x0100_80F6, 0x0000_0000, 80) == Run112(0xA539_3D01, 0x0080_F600, 0x0000_0000, 72)
  {
  }

  lemma Crc112Vector4Passes16()
    ensures Run112(0xA539_3D01, 0x0080_F600, 0x0000_0000, 72) == Run112(0xC036_4E00, 0x80F6_0000, 0x0000_0000, 64)
  {
  }

  lemma Crc112Vector4Passes24()
    ensures Run112(0xC036_4E00, 0x80F6_0000, 0x0000_0000, 64) == Run112(0x32CB_A080, 0xF600_0000, 0x0000_0000, 56)
  {
  }

  lemma Crc112Vector4Passes32()
    ensures Run112(0x32CB_A080, 0xF600_0000, 0x0000_0000, 56) == Run112(0xCA9D_F3F6, 0x0000_0000, 0x0000_0000, 48)
  {
  }

  lemma Crc112Vector4Passes40()
    ensures Run112(0xCA9D_F3F6, 0x0000_0000, 0x0000_0000, 48) == Run112(0x991A_2100, 0x0000_0000, 0x0000_0000, 40)
  {
  }

  lemma Crc112Vector4Passes48()
    ensures Run112(0x991A_2100, 0x0000_0000, 0x0000_0000, 40) == Run112(0xE243_7D00, 0x0000_0000, 0x0000_0000, 32)
  {
  }

  lemma Crc112Vector4Passes56()
    ensures Run112(0xE243_7D00, 0x0000_0000, 0x0000_0000, 32) == Run112(0x4625_0B00, 0x0000_0000, 0x0000_0000, 24)
  {
  }

  lemma Crc112Vector4Passes64()
    ensures Run112(0x4625_0B00, 0x0000_0000, 0x0000_0000, 24) == Run112(0x26AC_4D00, 0x0000_0000, 0x0000_0000, 16)
  {
  }

  lemma Crc112Vector4Passes72()
    ensures Run112(0x26AC_4D00, 0x0000_0000, 0x0000_0000, 16) == Run112(0xADA8_9D00, 0x0000_0000, 0x0000_0000, 8)
  {
  }

  lemma Crc112Vector4Passes80()
    ensures Run112(0xADA8_9D00, 0x0000_0000, 0x0000_0000, 8) == 0x51E6_2300
  {
  }

  /** crc112 of "8D71BC009901DC93C0070788AE4B" is 8957515. */
  lemma Crc112Vector5(m: seq<Nibble>)
    requires |m| >= 22
    requires Field(m, 1, 32) == 0x8D71_BC00 && Field(m, 33, 64) == 0x9901_DC93 && Field(m, 65, 88) == 0xC00707
    ensures Crc112Value(m) == 8957515
  {
    WordOfField(m, 1, 32, 0x8D71_BC00);
    WordOfField(m, 33, 64, 0x9901_DC93);
    WordOfField(m, 65, 88, 0xC00707);
    Crc112Vector5Passes0();
    Crc112Vector5Passes8();
    Crc112Vector5Passes16();
    Crc112Vector5Passes24();
    Crc112Vector5Passes32();
    Crc112Vector5Passes40();
    Crc112Vector5Passes48();
    Crc112Vector5Passes56();
    Crc112Vector5Passes64();
    Crc112Vector5Passes72();
    Crc112Vector5Passes80();
  }

  lemma Crc112Vector5Passes0()
    ensures Run112(0x8D71_BC00, 0x9901_DC93, 0xC007_0700, 88) == Run112(0x8906_9399, 0x01DC_93C0, 0x0707_0000, 80)
  {
  }

  lemma Crc112Vector5Passes8()
    ensures Run112(0x8906_9399, 0x01DC_93C0, 0x0707_0000, 80) == Run112(0xFE11_3C01, 0xDC93_C007, 0x0700_0000, 72)
  {
  }

  lemma Crc112Vector5Passes16()
    ensures Run112(0xFE11_3C01, 0xDC93_C007, 0x0700_0000, 72) == Run112(0x14CC_88DC, 0x93C0_0707, 0x0000_0000, 64)
  {
  }

  lemma Crc112Vector5Passes24()
    ensures Run112(0x14CC_88DC, 0x93C0_0707, 0x0000_0000, 64) == Run112(0xCC50_3293, 0xC007_0700, 0x0000_0000, 56)
  {
  }

  lemma Crc112Vector5Passes32()
    ensures Run112(0xCC50_3293, 0xC007_0700, 0x0000_0000, 56) == Run112(0x54FF_69C0, 0x0707_0000, 0x0000_0000, 48)
  {
  }

  lemma Crc112Vector5Passes40()
    ensures Run112(0x54FF_69C0, 0x0707_0000, 0x0000_0000, 48) == Run112(0xFC32_4E07, 0x0700_0000, 0x0000_0000, 40)
  {
  }

  lemma Crc112Vector5Passes48()
    ensures Run112(0xFC32_4E07, 0x0700_0000, 0x0000_0000, 40) == Run112(0x37A2_9507, 0x0000_0000, 0x0000_0000, 32)
  {
  }

  lemma Crc112Vector5Passes56()
    ensures Run112(0x37A2_9507, 0x0000_0000, 0x0000_0000, 32) == Run112(0x5C64_4B00, 0x0000_0000, 0x0000_0000, 24)
  {
  }

  lemma Crc112Vector5Passes64()
    ensures Run112(0x5C64_4B00, 0x0000_0000, 0x0000_0000, 24) == Run112(0x6760_E200, 0x0000_0000, 0x0000_0000, 16)
  {
  }

  lemma Crc112Vector5Passes72()
    ensures Run112(0x6760_E200, 0x0000_0000, 0x0000_0000, 16) == Run112(0x9D70_F400, 0x0000_0000, 0x0000_0000, 8)
  {
  }

  lemma Crc112Vector5Passes80()
    ensures Run112(0x9D70_F400, 0x0000_0000, 0x0000_0000, 8) == 0x88AE_4B00
  {
  }

  /** crc112 of "8D71BC0060C386EC2FFDEEEBCE0C" is 15453708. */
  lemma Crc112Vector6(m: seq<Nibble>)
    requires |m| >= 22
    requires Field(m, 1, 32) == 0x8D71_BC00 && Field(m, 33, 64) == 0x60C3_86EC && Field(m, 65, 88) == 0x2FFDEE
    ensures Crc112Value(m) == 15453708
  {
    WordOfField(m, 1, 32, 0x8D71_BC00);
    WordOfField(m, 33, 64, 0x60C3_86EC);
    WordOfField(m, 65, 88, 0x2FFDEE);
    Crc112Vector6Passes0();
    Crc112Vector6Passes8();
    Crc112Vector6Passes16();
    Crc112Vector6Passes24();
    Crc112Vector6Passes32();
    Crc112Vector6Passes40();
    Crc112Vector6Passes48();
    Crc112Vector6Passes56();
    Crc112Vector6Passes64();
    Crc112Vector6Passes72();
    Crc112Vector6Passes80();
  }

  lemma Crc112Vector6Passes0()
    ensures Run112(0x8D71_BC00, 0x60C3_86EC, 0x2FFD_EE00, 88) == Run112(0x8906_9360, 0xC386_EC2F, 0xFDEE_0000, 80)
  {
  }

  lemma Crc112Vector6Passes8()
    ensures Run112(0x8906_9360, 0xC386_EC2F, 0xFDEE_0000, 80) == Run112(0xFE11_C5C3, 0x86EC_2FFD, 0xEE00_0000, 72)
  {
  }

  lemma Crc112Vector6Passes16()
    ensures Run112(0xFE11_C5C3, 0x86EC_2FFD, 0xEE00_0000, 72) == Run112(0x1435_4A86, 0xEC2F_FDEE, 0x0000_0000, 64)
  {
  }

  lemma Crc112Vector6Passes24()
    ensures Run112(0x1435_4A86, 0xEC2F_FDEE, 0x0000_0000, 64) == Run112(0x3592_68EC, 0x2FFD_EE00, 0x0000_0000, 56)
  {
  }

  lemma Crc112Vector6Passes32()
    ensures Run112(0x3592_68EC, 0x2FFD_EE00, 0x0000_0000, 56) == Run112(0x6C85_BB2F, 0xFDEE_0000, 0x0000_0000, 48)
  {
  }

  lemma Crc112Vector6Passes40()
    ensures Run112(0x6C85_BB2F, 0xFDEE_0000, 0x0000_0000, 48) == Run112(0x87B1_A5FD, 0xEE00_0000, 0x0000_0000, 40)
  {
  }

  lemma Crc112Vector6Passes48()
    ensures Run112(0x87B1_A5FD, 0xEE00_0000, 0x0000_0000, 40) == Run112(0x4973_19EE, 0x0000_0000, 0x0000_0000, 32)
  {
  }

  lemma Crc112Vector6Passes56()
    ensures Run112(0x4973_19EE, 0x0000_0000, 0x0000_0000, 32) == Run112(0x8F1E_EB00, 0x0000_0000, 0x0000_0000, 24)
  {
  }

  lemma Crc112Vector6Passes64()
    ensures Run112(0x8F1E_EB00, 0x0000_0000, 0x0000_0000, 24) == Run112(0xE64D_8800, 0x0000_0000, 0x0000_0000, 16)
  {
  }

  lemma Crc112Vector6Passes72()
    ensures Run112(0xE64D_8800, 0x0000_0000, 0x0000_0000, 16) == Run112(0x48E8_3D00, 0x0000_0000, 0x0000_0000, 8)
  {
  }

  lemma Crc112Vector6Passes80()
    ensures Run112(0x48E8_3D00, 0x0000_0000, 0x0000_0000, 8) == 0xEBCE_0C00
  {
  }

  /** crc112 of "8DA7F6429B053D0000000060D7AE" is 6346670. */
  lemma Crc112Vector7(m: seq<Nibble>)
    requires |m| >= 22
    requires Field(m, 1, 32) == 0x8DA7_F642 && Field(m, 33, 64) == 0x9B05_3D00 && Field(m, 65, 88) == 0x000000
    ensures Crc112Value(m) == 6346670
  {
    WordOfField(m, 1, 32, 0x8DA7_F642);
    WordOfField(m, 33, 64, 0x9B05_3D00);
    WordOfField(m, 65, 88, 0x000000);
    Crc112Vector7Passes0();
    Crc112Vector7Passes8();
    Crc112Vector7Passes16();
    Crc112Vector7Passes24();
    Crc112Vector7Passes32();
    Crc112Vector7Passes40();
    Crc112Vector7Passes48();
    Crc112Vector7Passes56();
    Crc112Vector7Passes64();
    Crc112Vector7Passes72();
    Crc112Vector7Passes80();
  }

  lemma Crc112Vector7Passes0()
    ensures Run112(0x8DA7_F642, 0x9B05_3D00, 0x0000_0000, 88) == Run112(0x5F4C_D19B, 0x053D_0000, 0x0000_0000, 80)
  {
  }

  lemma Crc112Vector7Passes8()
    ensures Run112(0x5F4C_D19B, 0x053D_0000, 0x0000_0000, 80) == Run112(0xB012_6B05, 0x3D00_0000, 0x0000_0000, 72)
  {
  }

  lemma Crc112Vector7Passes16()
    ensures Run112(0xB012_6B05, 0x3D00_0000, 0x0000_0000, 72) == Run112(0x144C_AD3D, 0x0000_0000, 0x0000_0000, 64)
  {
  }

  lemma Crc112Vector7Passes24()
    ensures Run112(0x144C_AD3D, 0x0000_0000, 0x0000_0000, 64) == Run112(0x4C75_D300, 0x0000_0000, 0x0000_0000, 56)
  {
  }

  lemma Crc112Vector7Passes32()
    ensures Run112(0x4C75_D300, 0x0000_0000, 0x0000_0000, 56) == Run112(0x7618_3A00, 0x0000_0000, 0x0000_0000, 48)
  {
  }

  lemma Crc112Vector7Passes40()
    ensures Run112(0x7618_3A00, 0x0000_0000, 0x0000_0000, 48) == Run112(0x1ABC_2500, 0x0000_0000, 0x0000_0000, 40)
  {
  }

  lemma Crc112Vector7Passes48()
    ensures Run112(0x1ABC_2500, 0x0000_0000, 0x0000_0000, 40) == Run112(0xBCA9_AF00, 0x0000_0000, 0x0000_0000, 32)
  {
  }

  lemma Crc112Vector7Passes56()
    ensures Run112(0xBCA9_AF00, 0x0000_0000, 0x0000_0000, 32) == Run112(0xAFC0_F200, 0x0000_0000, 0x0000_0000, 24)
  {
  }

  lemma Crc112Vector7Passes64()
    ensures Run112(0xAFC0_F200, 0x0000_0000, 0x0000_0000, 24) == Run112(0x3995_3800, 0x0000_0000, 0x0000_0000, 16)
  {
  }

  lemma Crc112Vector7Passes72()
    ensures Run112(0x3995_3800, 0x0000_0000, 0x0000_0000, 16) == Run112(0x6B9D_0D00, 0x0000_0000, 0x0000_0000, 8)
  {
  }

  lemma Crc112Vector7Passes80()
    ensures Run112(0x6B9D_0D00, 0x0000_0000, 0x0000_0000, 8) == 0x60D7_AE00
  {
  }

  /** crc112 of "8D4B18FE68BF033F523BF5BAAAEB" is 12233451. */
  lemma Crc112Vector8(m: seq<Nibble>)
    requires |m| >= 22
    requires Field(m, 1, 32) == 0x8D4B_18FE && Field(m, 33, 64) == 0x68BF_033F && Field(m, 65, 88) == 0x523BF5
    ensures Crc112Value(m) == 12233451
  {
    WordOfField(m, 1, 32, 0x8D4B_18FE);
    WordOfField(m, 33, 64, 0x68BF_033F);
    WordOfField(m, 65, 88, 0x523BF5);
    Crc112Vector8Passes0();
    Crc112Vector8Passes8();
    Crc112Vector8Passes16();
    Crc112Vector8Passes24();
    Crc112Vector8Passes32();
    Crc112Vector8Passes40();
    Crc112Vector8Passes48();
    Crc112Vector8Passes56();
    Crc112Vector8Passes64();
    Crc112Vector8Passes72();
    Crc112Vector8Passes80();
  }

  lemma Crc112Vector8Passes0()
    ensures Run112(0x8D4B_18FE, 0x68BF_033F, 0x523B_F500, 88) == Run112(0xB3A2_6D68, 0xBF03_3F52, 0x3BF5_0000, 80)
  {
  }

  lemma Crc112Vector8Passes8()
    ensures Run112(0xB3A2_6D68, 0xBF03_3F52, 0x3BF5_0000, 80) == Run112(0x5BA2_D2BF, 0x033F_523B, 0xF500_0000, 72)
  {
  }

  lemma Crc112Vector8Passes16()
    ensures Run112(0x5BA2_D2BF, 0x033F_523B, 0xF500_0000, 72) == Run112(0x5E29_7903, 0x3F52_3BF5, 0x0000_0000, 64)
  {
  }

  lemma Crc112Vector8Passes24()
    ensures Run112(0x5E29_7903, 0x3F52_3BF5, 0x0000_0000, 64) == Run112(0x2A4E_FA3F, 0x523B_F500, 0x0000_0000, 56)
  {
  }

  lemma Crc112Vector8Passes32()
    ensures Run112(0x2A4E_FA3F, 0x523B_F500, 0x0000_0000, 56) == Run112(0x4F57_F852, 0x3BF5_0000, 0x0000_0000, 48)
  {
  }

  lemma Crc112Vector8Passes40()
    ensures Run112(0x4F57_F852, 0x3BF5_0000, 0x0000_0000, 48) == Run112(0xABDB_7A3B, 0xF500_0000, 0x0000_0000, 40)
  {
  }

  lemma Crc112Vector8Passes48()
    ensures Run112(0xABDB_7A3B, 0xF500_0000, 0x0000_0000, 40) == Run112(0x2225_35F5, 0x0000_0000, 0x0000_0000, 32)
  {
  }

  lemma Crc112Vector8Passes56()
    ensures Run112(0x2225_35F5, 0x0000_0000, 0x0000_0000, 32) == Run112(0x24E8_5E00, 0x0000_0000, 0x0000_0000, 24)
  {
  }

  lemma Crc112Vector8Passes64()
    ensures Run112(0x24E8_5E00, 0x0000_0000, 0x0000_0000, 24) == Run112(0xE9A7_8600, 0x0000_0000, 0x0000_0000, 16)
  {
  }

  lemma Crc112Vector8Passes72()
    ensures Run112(0xE9A7_8600, 0x0000_0000, 0x0000_0000, 16) == Run112(0x5D46_7500, 0x0000_0000, 0x0000_0000, 8)
  {
  }

  lemma Crc112Vector8Passes80()
    ensures Run112(0x5D46_7500, 0x0000_0000, 0x0000_0000, 8) == 0xBAAA_EB00
  {
  }

  /** crc56 of "A0001838300000000000007ADA59" is 1050172. */
  lemma Crc56Vector3(m: seq<Nibble>)
    requires |m| >= 8
    requires Field(m, 1, 32) == 0xA000_1838
    ensures Crc56Value(m) == 1050172
  {
    WordOfField(m, 1, 32, 0xA000_1838);
    Crc56Vector3Passes0();
    Crc56Vector3Passes8();
    Crc56Vector3Passes16();
    Crc56Vector3Passes24();
  }

  lemma Crc56Vector3Passes0()
    ensures Run56(0xA000_1838, 32) == Run56(0x06DF_4800, 24)
  {
  }

  lemma Crc56Vector3Passes8()
    ensures Run56(0x06DF_4800, 24) == Run56(0xDF6C_2D00, 16)
  {
  }

  lemma Crc56Vector3Passes16()
    ensures Run56(0xDF6C_2D00, 16) == Run56(0x97E8_3000, 8)
  {
  }

  lemma Crc56Vector3Passes24()
    ensures Run56(0x97E8_3000, 8) == 0x1006_3C00
  {
  }

  /** crc56 of "A800161110010080E6000073D501" is 1711224. */
  lemma Crc56Vector4(m: seq<Nibble>)
    requires |m| >= 8
    requires Field(m, 1, 32) == 0xA800_1611
    ensures Crc56Value(m) == 1711224
  {
    WordOfField(m, 1, 32, 0xA800_1611);
    Crc56Vector4Passes0();
    Crc56Vector4Passes8();
    Crc56Vector4Passes16();
    Crc56Vector4Passes24();
  }

  lemma Crc56Vector4Passes0()
    ensures Run56(0xA800_1611, 32) == Run56(0x06A1_0D00, 24)
  {
  }

  lemma Crc56Vector4Passes8()
    ensures Run56(0x06A1_0D00, 24) == Run56(0xA129_2D00, 16)
  {
  }

  lemma Crc56Vector4Passes16()
    ensures Run56(0xA129_2D00, 16) == Run56(0xD01E_7900, 8)
  {
  }

  lemma Crc56Vector4Passes24()
    ensures Run56(0xD01E_7900, 8) == 0x1A1C_7800
  {
  }

  /** crc56 of "A800120110010080F600001AFEDD" is 2280096. */
  lemma Crc56Vector5(m: seq<Nibble>)
    requires |m| >= 8
    requires Field(m, 1, 32) == 0xA800_1201
    ensures Crc56Value(m) == 2280096
  {
    WordOfField(m, 1, 32, 0xA800_1201);
    Crc56Vector5Passes0();
    Crc56Vector5Passes8();
    Crc56Vector5Passes16();
    Crc56Vector5Passes24();
  }

  lemma Crc56Vector5Passes0()
    ensures Run56(0xA800_1201, 32) == Run56(0x06A5_1D00, 24)
  {
  }

  lemma Crc56Vector5Passes8()
    ensures Run56(0x06A5_1D00, 24) == Run56(0xA539_2D00, 16)
  {
  }

  lemma Crc56Vector5Passes16()
    ensures Run56(0xA539_2D00, 16) == Run56(0xC026_4F00, 8)
  {
  }

  lemma Crc56Vector5Passes24()
    ensures Run56(0xC026_4F00, 8) == 0x22CA_A000
  {
  }

  /** crc56 of "8D71BC009901DC93C0070788AE4B" is 5591534. */
  lemma Crc56Vector6(m: seq<Nibble>)
    requires |m| >= 8
    requires Field(m, 1, 32) == 0x8D71_BC00
    ensures Crc56Value(m) == 5591534
  {
    WordOfField(m, 1, 32, 0x8D71_BC00);
    Crc56Vector6Passes0();
    Crc56Vector6Passes8();
    Crc56Vector6Passes16();
    Crc56Vector6Passes24();
  }

  lemma Crc56Vector6Passes0()
    ensures Run56(0x8D71_BC00, 32) == Run56(0x8906_9300, 24)
  {
  }

  lemma Crc56Vector6Passes8()
    ensures Run56(0x8906_9300, 24) == Run56(0xFE11_A500, 16)
  {
  }

  lemma Crc56Vector6Passes16()
    ensures Run56(0xFE11_A500, 16) == Run56(0x1455_8900, 8)
  {
  }

  lemma Crc56Vector6Passes24()
    ensures Run56(0x1455_8900, 8) == 0x5551_EE00
  {
  }

  /** crc56 of "8D71BC0060C386EC2FFDEEEBCE0C" is 5591534. */
  lemma Crc56Vector7(m: seq<Nibble>)
    requires |m| >= 8
    requires Field(m, 1, 32) == 0x8D71_BC00
    ensures Crc56Value(m) == 5591534
  {
    WordOfField(m, 1, 32, 0x8D71_BC00);
    Crc56Vector7Passes0();
    Crc56Vector7Passes8();
    Crc56Vector7Passes16();
    Crc56Vector7Passes24();
  }

  lemma Crc56Vector7Passes0()
    ensures Run56(0x8D71_BC00, 32) == Run56(0x8906_9300, 24)
  {
  }

  lemma Crc56Vector7Passes8()
    ensures Run56(0x8906_9300, 24) == Run56(0xFE11_A500, 16)
  {
  }

  lemma Crc56Vector7Passes16()
    ensures Run56(0xFE11_A500, 16) == Run56(0x1455_8900, 8)
  {
  }

  lemma Crc56Vector7Passes24()
    ensures Run56(0x1455_8900, 8) == 0x5551_EE00
  {
  }

  /** crc56 of "8DA7F6429B053D0000000060D7AE" is 14119150. */
  lemma Crc56Vector8(m: seq<Nibble>)
    requires |m| >= 8
    requires Field(m, 1, 32) == 0x8DA7_F642
    ensures Crc56Value(m) == 14119150
  {
    WordOfField(m, 1, 32, 0x8DA7_F642);
    Crc56Vector8Passes0();
    Crc56Vector8Passes8();
    Crc56Vector8Passes16();
    Crc56Vector8Passes24();
  }

  lemma Crc56Vector8Passes0()
    ensures Run56(0x8DA7_F642, 32) == Run56(0x5F4C_D100, 24)
  {
  }

  lemma Crc56Vector8Passes8()
    ensures Run56(0x5F4C_D100, 24) == Run56(0xB012_F000, 16)
  {
  }

  lemma Crc56Vector8Passes16()
    ensures Run56(0xB012_F000, 16) == Run56(0x14D7_A800, 8)
  {
  }

  lemma Crc56Vector8Passes24()
    ensures Run56(0x14D7_A800, 8) == 0xD770_EE00
  {
  }

  /** crc56 of "8D4B18FE68BF033F523BF5BAAAEB" is 4387321. */
  lemma Crc56Vector9(m: seq<Nibble>)
    requires |m| >= 8
    requires Field(m, 1, 32) == 0x8D4B_18FE
    ensures Crc56Value(m) == 4387321
  {
    WordOfField(m, 1, 32, 0x8D4B_18FE);
    Crc56Vector9Passes0();
    Crc56Vector9Passes8();
    Crc56Vector9Passes16();
    Crc56Vector9Passes24();
  }

  lemma Crc56Vector9Passes0()
    ensures Run56(0x8D4B_18FE, 32) == Run56(0xB3A2_6D00, 24)
  {
  }

  lemma Crc56Vector9Passes8()
    ensures Run56(0xB3A2_6D00, 24) == Run56(0x5BA2_BA00, 16)
  {
  }

  lemma Crc56Vector9Passes16()
    ensures Run56(0x5BA2_BA00, 16) == Run56(0x5E41_C600, 8)
  {
  }

  lemma Crc56Vector9Passes24()
    ensures Run56(0x5E41_C600, 8) == 0x42F1_F900
  {
  }

  /** crc56 of "02E1983866E711" is 1530641. */
  lemma Crc56Vector10(m: seq<Nibble>)
    requires |m| >= 8
    requires Field(m, 1, 32) == 0x02E1_9838
    ensures Crc56Value(m) == 1530641
  {
    WordOfField(m, 1, 32, 0x02E1_9838);
    Crc56Vector10Passes0();
    Crc56Vector10Passes8();
    Crc56Vector10Passes16();
    Crc56Vector10Passes24();
  }

  lemma Crc56Vector10Passes0()
    ensures Run56(0x02E1_9838, 32) == Run56(0xE184_2300, 24)
  {
  }

  lemma Crc56Vector10Passes8()
    ensures Run56(0xE184_2300, 24) == Run56(0x7E93_1900, 16)
  {
  }

  lemma Crc56Vector10Passes16()
    ensures Run56(0x7E93_1900, 16) == Run56(0x91EF_4900, 8)
  {
  }

  lemma Crc56Vector10Passes24()
    ensures Run56(0x91EF_4900, 8) == 0x175B_1100
  {
  }
}
