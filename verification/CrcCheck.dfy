/** A known value of the reference CRC, which fixes its constants. */
module CrcCheck {
  import opened Bits
  import opened Crc

  lemma EightSteps(s0: bv32, s1: bv32, s2: bv32, s3: bv32, s4: bv32, s5: bv32, s6: bv32, s7: bv32, s8: bv32)
    requires Step(s0) == s1 && Step(s1) == s2 && Step(s2) == s3 && Step(s3) == s4
    requires Step(s4) == s5 && Step(s5) == s6 && Step(s6) == s7 && Step(s7) == s8
    ensures Steps(s0, 8) == s8
  {
    hide Step;
    FourSteps(s0, 4);
    FourSteps(s4, 0);
  }

  lemma AbsorbsTo(r: bv32, b: byte, s0: bv32, s8: bv32)
    requires Plus(r, b as bv32) == s0 && Steps(s0, 8) == s8
    ensures Absorb(r, b) == s8
  {
    hide Plus, Steps;
  }

  lemma RegisterOf(r: bv32, b: byte, rest: seq<byte>, next: bv32)
    requires Absorb(r, b) == next
    ensures Register(r, [b] + rest) == Register(next, rest)
  {
    hide Absorb;
    assert ([b] + rest)[1..] == rest;
  }

  lemma Digit1()
    ensures Absorb(0xFFFF_FFFF, 0x31) == 0x7C23_1048
  {
    EightSteps(0xFFFF_FFCE, 0x7FFF_FFE7, 0xD247_7CD3,
               0x849B_3D49, 0xAFF5_1D84, 0x57FA_8EC2,
               0x2BFD_4761, 0xF846_2090, 0x7C23_1048);
    AbsorbsTo(0xFFFF_FFFF, 0x31, 0xFFFF_FFCE, 0x7C23_1048);
  }

  lemma Digit2()
    ensures Absorb(0x7C23_1048, 0x32) == 0xB0AC_BB32
  {
    EightSteps(0x7C23_107A, 0x3E11_883D, 0xF2B0_473E,
               0x7958_239F, 0xD114_92EF, 0x8532_CA57,
               0xAF21_E60B, 0xBA28_7025, 0xB0AC_BB32);
    AbsorbsTo(0x7C23_1048, 0x32, 0x7C23_107A, 0xB0AC_BB32);
  }

  lemma Digit3()
    ensures Absorb(0xB0AC_BB32, 0x33) == 0x77B7_9C2D
  {
    EightSteps(0xB0AC_BB01, 0xB5EE_DEA0, 0x5AF7_6F50,
               0x2D7B_B7A8, 0x16BD_DBD4, 0x0B5E_EDEA,
               0x05AF_76F5, 0xEF6F_385A, 0x77B7_9C2D);
    AbsorbsTo(0xB0AC_BB32, 0x33, 0xB0AC_BB01, 0x77B7_9C2D);
  }

  lemma Digit4()
    ensures Absorb(0x77B7_9C2D, 0x34) == 0x641C_1F5C
  {
    EightSteps(0x77B7_9C19, 0xD663_4D2C, 0x6B31_A696,
               0x3598_D34B, 0xF774_EA85, 0x9602_F662,
               0x4B01_7B31, 0xC838_3EB8, 0x641C_1F5C);
    AbsorbsTo(0x77B7_9C2D, 0x34, 0x77B7_9C19, 0x641C_1F5C);
  }

  lemma Digit5()
    ensures Absorb(0x641C_1F5C, 0x35) == 0x340A_C5E3
  {
    EightSteps(0x641C_1F69, 0xDFB6_8C94, 0x6FDB_464A,
               0x37ED_A325, 0xF64E_52B2, 0x7B27_2959,
               0xD02B_178C, 0x6815_8BC6, 0x340A_C5E3);
    AbsorbsTo(0x641C_1F5C, 0x35, 0x641C_1F69, 0x340A_C5E3);
  }

  lemma Digit6()
    ensures Absorb(0x340A_C5E3, 0x36) == 0xF68D_2C9E
  {
    EightSteps(0x340A_C5D5, 0xF7BD_E1CA, 0x7BDE_F0E5,
               0xD057_FB52, 0x682B_FDA9, 0xD9AD_7DF4,
               0x6CD6_BEFA, 0x366B_5F7D, 0xF68D_2C9E);
    AbsorbsTo(0x340A_C5E3, 0x36, 0x340A_C5D5, 0xF68D_2C9E);
  }

  lemma Digit7()
    ensures Absorb(0xF68D_2C9E, 0x37) == 0xAFFC_9660
  {
    EightSteps(0xF68D_2CA9, 0x96FE_1574, 0x4B7F_0ABA,
               0x25BF_855D, 0xFF67_418E, 0x7FB3_A0C7,
               0xD261_5343, 0x8488_2A81, 0xAFFC_9660);
    AbsorbsTo(0xF68D_2C9E, 0x37, 0xF68D_2CA9, 0xAFFC_9660);
  }

  lemma Digit8()
    ensures Absorb(0xAFFC_9660, 0x38) == 0x651F_2550
  {
    EightSteps(0xAFFC_9658, 0x57FE_4B2C, 0x2BFF_2596,
               0x15FF_92CB, 0xE747_4A45, 0x9E1B_2602,
               0x4F0D_9301, 0xCA3E_4AA0, 0x651F_2550);
    AbsorbsTo(0xAFFC_9660, 0x38, 0xAFFC_9658, 0x651F_2550);
  }

  lemma Digit9()
    ensures Absorb(0x651F_2550, 0x39) == 0x340B_C6D9
  {
    EightSteps(0x651F_2569, 0xDF37_1194, 0x6F9B_88CA,
               0x37CD_C465, 0xF65E_6112, 0x7B2F_3089,
               0xD02F_1B64, 0x6817_8DB2, 0x340B_C6D9);
    AbsorbsTo(0x651F_2550, 0x39, 0x651F_2569, 0x340B_C6D9);
  }

  /** The check value of CRC-32: the checksum of the digits 1 to 9 in ASCII. */
  lemma CheckValue()
    ensures Checksum([0x31, 0x32, 0x33, 0x34, 0x35, 0x36, 0x37, 0x38, 0x39]) == 0xCBF4_3926
  {
    hide Absorb;
    Digit1();
    RegisterOf(0xFFFF_FFFF, 0x31, [0x32, 0x33, 0x34, 0x35, 0x36, 0x37, 0x38, 0x39], 0x7C23_1048);
    Digit2();
    RegisterOf(0x7C23_1048, 0x32, [0x33, 0x34, 0x35, 0x36, 0x37, 0x38, 0x39], 0xB0AC_BB32);
    Digit3();
    RegisterOf(0xB0AC_BB32, 0x33, [0x34, 0x35, 0x36, 0x37, 0x38, 0x39], 0x77B7_9C2D);
    Digit4();
    RegisterOf(0x77B7_9C2D, 0x34, [0x35, 0x36, 0x37, 0x38, 0x39], 0x641C_1F5C);
    Digit5();
    RegisterOf(0x641C_1F5C, 0x35, [0x36, 0x37, 0x38, 0x39], 0x340A_C5E3);
    Digit6();
    RegisterOf(0x340A_C5E3, 0x36, [0x37, 0x38, 0x39], 0xF68D_2C9E);
    Digit7();
    RegisterOf(0xF68D_2C9E, 0x37, [0x38, 0x39], 0xAFFC_9660);
    Digit8();
    RegisterOf(0xAFFC_9660, 0x38, [0x39], 0x651F_2550);
    Digit9();
    RegisterOf(0x651F_2550, 0x39, [], 0x340B_C6D9);
  }
}
