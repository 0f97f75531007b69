/** The round constants of PRINCE, as numbers and digit by digit. */
module PrinceConstants {
  import opened Bits
  import opened Hexadecimal

  const ROUND_CONSTS: seq<nat> := [
    0x0000000000000000,
    0x13198a2e03707344,
    0xa4093822299f31d0,
    0x082efa98ec4e6c89,
    0x452821e638d01377,
    0xbe5466cf34e90c6c,
    0x7ef84f78fd955cb1,
    0x85840851f1ac43aa,
    0xc882d32f25323c54,
    0x64a51195e0e3610d,
    0xd3b5a399ca0c2399,
    0xc0ac29b7c97c50dd
  ]

  function ConstState(r: nat): State
    requires r < 12
  {
    StateOf(ROUND_CONSTS[r])
  }

  lemma Const0()
    ensures ConstState(0) == Hex(H0, H0, H0, H0, H0, H0, H0, H0, H0, H0, H0, H0, H0, H0, H0, H0)
  {
    hide NibOf, QuadOf, StateOf;
    DigitsBack();
    QuadOfDigits(0, 0, 0, 0);
    StateOfQuads(0, 0, 0, 0);
  }

  lemma Const1()
    ensures ConstState(1) == Hex(H1, H3, H1, H9, H8, HA, H2, HE, H0, H3, H7, H0, H7, H3, H4, H4)
  {
    hide NibOf, QuadOf, StateOf;
    DigitsBack();
    QuadOfDigits(4, 4, 3, 7);
    QuadOfDigits(0, 7, 3, 0);
    QuadOfDigits(14, 2, 10, 8);
    QuadOfDigits(9, 1, 3, 1);
    StateOfQuads(0x7344, 0x0370, 0x8a2e, 0x1319);
  }

  lemma Const2()
    ensures ConstState(2) == Hex(HA, H4, H0, H9, H3, H8, H2, H2, H2, H9, H9, HF, H3, H1, HD, H0)
  {
    hide NibOf, QuadOf, StateOf;
    DigitsBack();
    QuadOfDigits(0, 13, 1, 3);
    QuadOfDigits(15, 9, 9, 2);
    QuadOfDigits(2, 2, 8, 3);
    QuadOfDigits(9, 0, 4, 10);
    StateOfQuads(0x31d0, 0x299f, 0x3822, 0xa409);
  }

  lemma Const3()
    ensures ConstState(3) == Hex(H0, H8, H2, HE, HF, HA, H9, H8, HE, HC, H4, HE, H6, HC, H8, H9)
  {
    hide NibOf, QuadOf, StateOf;
    DigitsBack();
    QuadOfDigits(9, 8, 12, 6);
    QuadOfDigits(14, 4, 12, 14);
    QuadOfDigits(8, 9, 10, 15);
    QuadOfDigits(14, 2, 8, 0);
    StateOfQuads(0x6c89, 0xec4e, 0xfa98, 0x082e);
  }

  lemma Const4()
    ensures ConstState(4) == Hex(H4, H5, H2, H8, H2, H1, HE, H6, H3, H8, HD, H0, H1, H3, H7, H7)
  {
    hide NibOf, QuadOf, StateOf;
    DigitsBack();
    QuadOfDigits(7, 7, 3, 1);
    QuadOfDigits(0, 13, 8, 3);
    QuadOfDigits(6, 14, 1, 2);
    QuadOfDigits(8, 2, 5, 4);
    StateOfQuads(0x1377, 0x38d0, 0x21e6, 0x4528);
  }

  lemma Const5()
    ensures ConstState(5) == Hex(HB, HE, H5, H4, H6, H6, HC, HF, H3, H4, HE, H9, H0, HC, H6, HC)
  {
    hide NibOf, QuadOf, StateOf;
    DigitsBack();
    QuadOfDigits(12, 6, 12, 0);
    QuadOfDigits(9, 14, 4, 3);
    QuadOfDigits(15, 12, 6, 6);
    QuadOfDigits(4, 5, 14, 11);
    StateOfQuads(0x0c6c, 0x34e9, 0x66cf, 0xbe54);
  }

  lemma Const6()
    ensures ConstState(6) == Hex(H7, HE, HF, H8, H4, HF, H7, H8, HF, HD, H9, H5, H5, HC, HB, H1)
  {
    hide NibOf, QuadOf, StateOf;
    DigitsBack();
    QuadOfDigits(1, 11, 12, 5);
    QuadOfDigits(5, 9, 13, 15);
    QuadOfDigits(8, 7, 15, 4);
    QuadOfDigits(8, 15, 14, 7);
    StateOfQuads(0x5cb1, 0xfd95, 0x4f78, 0x7ef8);
  }

  lemma Const7()
    ensures ConstState(7) == Hex(H8, H5, H8, H4, H0, H8, H5, H1, HF, H1, HA, HC, H4, H3, HA, HA)
  {
    hide NibOf, QuadOf, StateOf;
    DigitsBack();
    QuadOfDigits(10, 10, 3, 4);
    QuadOfDigits(12, 10, 1, 15);
    QuadOfDigits(1, 5, 8, 0);
    QuadOfDigits(4, 8, 5, 8);
    StateOfQuads(0x43aa, 0xf1ac, 0x0851, 0x8584);
  }

  lemma Const8()
    ensures ConstState(8) == Hex(HC, H8, H8, H2, HD, H3, H2, HF, H2, H5, H3, H2, H3, HC, H5, H4)
  {
    hide NibOf, QuadOf, StateOf;
    DigitsBack();
    QuadOfDigits(4, 5, 12, 3);
    QuadOfDigits(2, 3, 5, 2);
    QuadOfDigits(15, 2, 3, 13);
    QuadOfDigits(2, 8, 8, 12);
    StateOfQuads(0x3c54, 0x2532, 0xd32f, 0xc882);
  }

  lemma Const9()
    ensures ConstState(9) == Hex(H6, H4, HA, H5, H1, H1, H9, H5, HE, H0, HE, H3, H6, H1, H0, HD)
  {
    hide NibOf, QuadOf, StateOf;
    DigitsBack();
    QuadOfDigits(13, 0, 1, 6);
    QuadOfDigits(3, 14, 0, 14);
    QuadOfDigits(5, 9, 1, 1);
    QuadOfDigits(5, 10, 4, 6);
    StateOfQuads(0x610d, 0xe0e3, 0x1195, 0x64a5);
  }

  lemma Const10()
    ensures ConstState(10) == Hex(HD, H3, HB, H5, HA, H3, H9, H9, HC, HA, H0, HC, H2, H3, H9, H9)
  {
    hide NibOf, QuadOf, StateOf;
    DigitsBack();
    QuadOfDigits(9, 9, 3, 2);
    QuadOfDigits(12, 0, 10, 12);
    QuadOfDigits(9, 9, 3, 10);
    QuadOfDigits(5, 11, 3, 13);
    StateOfQuads(0x2399, 0xca0c, 0xa399, 0xd3b5);
  }

  lemma Const11()
    ensures ConstState(11) == Hex(HC, H0, HA, HC, H2, H9, HB, H7, HC, H9, H7, HC, H5, H0, HD, HD)
  {
    hide NibOf, QuadOf, StateOf;
    DigitsBack();
    QuadOfDigits(13, 13, 0, 5);
    QuadOfDigits(12, 7, 9, 12);
    QuadOfDigits(7, 11, 9, 2);
    QuadOfDigits(12, 10, 0, 12);
    StateOfQuads(0x50dd, 0xc97c, 0x29b7, 0xc0ac);
  }

  /** The sum of the constants r and 11 - r is the last constant. */
  lemma ConstsSymmetric(r: nat)
    requires r < 12
    ensures StateXor(ConstState(r), ConstState(11)) == ConstState(11 - r)
  {
    hide ConstState;
    Const11();
    if r == 0 || r == 11 { Const0(); } else if r == 1 || r == 10 { Const1(); Const10(); }
    else if r == 2 || r == 9 { Const2(); Const9(); } else if r == 3 || r == 8 { Const3(); Const8(); }
    else if r == 4 || r == 7 { Const4(); Const7(); } else { Const5(); Const6(); }
  }
}
