/**
 Linear algebra of the CRC register: the effect of a byte is the sum of eight columns of a table, and
 the columns at all distances lie on one orbit of the register.
 */
module CrcWindows {
  import opened Iteration
  import opened Crc32
  import opened CrcDetection

  // ---------------------------------------------------------------- bytes select columns

  function AddIf(a: bv32, b: bv8, mask: bv8, c: bv32): bv32 { if b & mask == 0 then a else a ^ c }

  /** a plus the columns whose bit is set in b. */
  function Mix(
    a: bv32, b: bv8, c0: bv32, c1: bv32, c2: bv32, c3: bv32, c4: bv32, c5: bv32, c6: bv32, c7: bv32): bv32
  {
    var a3 := AddIf(AddIf(AddIf(AddIf(a, b, 0x01, c0), b, 0x02, c1), b, 0x04, c2), b, 0x08, c3);
    AddIf(AddIf(AddIf(AddIf(a3, b, 0x10, c4), b, 0x20, c5), b, 0x40, c6), b, 0x80, c7)
  }

  /** a plus the register after the byte b, when c is the register after the byte 0x80. */
  function Add(a: bv32, b: bv8, c: bv32): bv32 {
    var c6 := ShiftBit(c);
    var c5 := ShiftBit(c6);
    var c4 := ShiftBit(c5);
    var c3 := ShiftBit(c4);
    var c2 := ShiftBit(c3);
    var c1 := ShiftBit(c2);
    Mix(a, b, ShiftBit(c1), c1, c2, c3, c4, c5, c6, c)
  }

  function Scale(b: bv8, c: bv32): bv32 { Add(0, b, c) }

  lemma ShiftAddIf(a: bv32, b: bv8, mask: bv8, c: bv32, n: nat)
    ensures Shift(AddIf(a, b, mask, c), n) == AddIf(Shift(a, n), b, mask, Shift(c, n))
  {
    ShiftLinear(a, c, n);
  }

  lemma ShiftMix(
    a: bv32, b: bv8, c0: bv32, c1: bv32, c2: bv32, c3: bv32, c4: bv32, c5: bv32, c6: bv32, c7: bv32, n: nat)
    ensures Shift(Mix(a, b, c0, c1, c2, c3, c4, c5, c6, c7), n)
         == Mix(Shift(a, n), b, Shift(c0, n), Shift(c1, n), Shift(c2, n), Shift(c3, n),
                Shift(c4, n), Shift(c5, n), Shift(c6, n), Shift(c7, n))
  {
    var a0 := AddIf(a, b, 0x01, c0);
    var a1 := AddIf(a0, b, 0x02, c1);
    var a2 := AddIf(a1, b, 0x04, c2);
    var a3 := AddIf(a2, b, 0x08, c3);
    var a4 := AddIf(a3, b, 0x10, c4);
    var a5 := AddIf(a4, b, 0x20, c5);
    ShiftAddIf(a, b, 0x01, c0, n);
    ShiftAddIf(a0, b, 0x02, c1, n);
    ShiftAddIf(a1, b, 0x04, c2, n);
    ShiftAddIf(a2, b, 0x08, c3, n);
    ShiftAddIf(a3, b, 0x10, c4, n);
    ShiftAddIf(a4, b, 0x20, c5, n);
    ShiftAddIf(a5, b, 0x40, c6, n);
    ShiftAddIf(AddIf(a5, b, 0x40, c6), b, 0x80, c7, n);
  }

  lemma ShiftCommutes(c: bv32, n: nat)
    ensures Shift(ShiftBit(c), n) == ShiftBit(Shift(c, n))
  {
    IterateAdd(ShiftBit, c, 1, n);
    assert Shift(c, 1) == ShiftBit(Shift(c, 0));
  }

  /** The register moves on by moving the column of 0x80 on. */
  lemma ShiftScale(b: bv8, c: bv32, n: nat)
    ensures Shift(Scale(b, c), n) == Scale(b, Shift(c, n))
  {
    var c6 := ShiftBit(c);
    var c5 := ShiftBit(c6);
    var c4 := ShiftBit(c5);
    var c3 := ShiftBit(c4);
    var c2 := ShiftBit(c3);
    var c1 := ShiftBit(c2);
    ShiftZero(n);
    ShiftMix(0, b, ShiftBit(c1), c1, c2, c3, c4, c5, c6, c, n);
    ShiftCommutes(c, n);
    ShiftCommutes(c6, n);
    ShiftCommutes(c5, n);
    ShiftCommutes(c4, n);
    ShiftCommutes(c3, n);
    ShiftCommutes(c2, n);
    ShiftCommutes(c1, n);
  }

  lemma AddIfXor(x: bv32, a: bv32, b: bv8, mask: bv8, c: bv32)
    ensures AddIf(Xor(x, a), b, mask, c) == Xor(x, AddIf(a, b, mask, c))
  {
    XorAssoc(x, a, c);
  }

  lemma MixXor(
    x: bv32, b: bv8, c0: bv32, c1: bv32, c2: bv32, c3: bv32, c4: bv32, c5: bv32, c6: bv32, c7: bv32)
    ensures Mix(x, b, c0, c1, c2, c3, c4, c5, c6, c7) == Xor(x, Mix(0, b, c0, c1, c2, c3, c4, c5, c6, c7))
  {
    var a0 := AddIf(0, b, 0x01, c0);
    var a1 := AddIf(a0, b, 0x02, c1);
    var a2 := AddIf(a1, b, 0x04, c2);
    var a3 := AddIf(a2, b, 0x08, c3);
    var a4 := AddIf(a3, b, 0x10, c4);
    var a5 := AddIf(a4, b, 0x20, c5);
    XorZero(x);
    AddIfXor(x, 0, b, 0x01, c0);
    AddIfXor(x, a0, b, 0x02, c1);
    AddIfXor(x, a1, b, 0x04, c2);
    AddIfXor(x, a2, b, 0x08, c3);
    AddIfXor(x, a3, b, 0x10, c4);
    AddIfXor(x, a4, b, 0x20, c5);
    AddIfXor(x, a5, b, 0x40, c6);
    AddIfXor(x, AddIf(a5, b, 0x40, c6), b, 0x80, c7);
  }

  // ---------------------------------------------------------------- one orbit

  /** Eight free register steps. */
  function Steps8(c: bv32): bv32 {
    ShiftBit(ShiftBit(ShiftBit(ShiftBit(ShiftBit(ShiftBit(ShiftBit(ShiftBit(c))))))))
  }

  lemma Steps8IsShift(c: bv32)
    ensures Shift(c, 8) == Steps8(c)
  {}

  /** The register 8 (k - 20) free steps after 0x80, for the distances that frames need. */
  function Power(k: nat): bv32 { Shift(0x12731959, 8 * k) }

  lemma Advance(k: nat, n: nat)
    ensures Shift(Power(k), 8 * n) == Power(k + n)
  {
    IterateAdd(ShiftBit, 0x12731959, 8 * k, 8 * n);
  }

  lemma Hop(k: nat, c: bv32)
    requires Power(k) == c
    ensures Power(k + 1) == Steps8(c)
  {
    Advance(k, 1);
    Steps8IsShift(Power(k));
  }

  lemma Orbit4()
    ensures Power(4) == 0x525983AA
  {
    Hop(0, 0x12731959);
    Hop(1, 0x12A59A49);
    Hop(2, 0x0F125CAE);
    Hop(3, 0x31619CB3);
  }

  lemma Orbit8()
    ensures Power(8) == 0x2FB98A7D
  {
    Orbit4();
    Hop(4, 0x525983AA);
    Hop(5, 0x36511375);
    Hop(6, 0x2059D4A0);
    Hop(7, 0xD6F6FA3C);
  }

  lemma Orbit12()
    ensures Power(10) == 0x97FC423C
    ensures Power(12) == 0xEB21CEBF
  {
    Orbit8();
    Hop(8, 0x2FB98A7D);
    Hop(9, 0x2E9BB40B);
    Hop(10, 0x97FC423C);
    Hop(11, 0x2FF880C5);
  }

  lemma Orbit16()
    ensures Power(16) == 0x6567CB95
  {
    Orbit12();
    Hop(12, 0xEB21CEBF);
    Hop(13, 0x5B358FD3);
    Hop(14, 0x1F81B6E1);
    Hop(15, 0xD7125358);
  }

  lemma Orbit20()
    ensures Power(17) == 0x80000000
    ensures Power(18) == 0x00800000
    ensures Power(19) == 0x00008000
    ensures Power(20) == 0x00000080
  {
    Orbit16();
    Hop(16, 0x6567CB95);
    Hop(17, 0x80000000);
    Hop(18, 0x00800000);
    Hop(19, 0x00008000);
  }

  lemma Orbit24()
    ensures Power(24) == 0xED59B63B
  {
    Orbit20();
    Hop(20, 0x00000080);
    Hop(21, 0xEDB88320);
    Hop(22, 0x3B83984B);
    Hop(23, 0xE1351B80);
  }

  lemma Orbit28()
    ensures Power(28) == 0x533B85DA
  {
    Orbit24();
    Hop(24, 0xED59B63B);
    Hop(25, 0xB1E6B092);
    Hop(26, 0x1EB014D8);
    Hop(27, 0x8816EAF2);
  }

  lemma Orbit32()
    ensures Power(29) == 0x6655004F
    ensures Power(30) == 0xE6050901
    ensures Power(31) == 0x77E1359F
    ensures Power(32) == 0x60C76FE0
  {
    Orbit28();
    Hop(28, 0x533B85DA);
    Hop(29, 0x6655004F);
    Hop(30, 0xE6050901);
    Hop(31, 0x77E1359F);
  }

  lemma Orbit36()
    ensures Power(35) == 0x4E87F0BB
    ensures Power(36) == 0x5CFDEDF4
  {
    Orbit32();
    Hop(32, 0x60C76FE0);
    Hop(33, 0xA06A2517);
    Hop(34, 0x8373EFE2);
    Hop(35, 0x4E87F0BB);
  }

  lemma Orbit39()
    ensures Power(37) == 0xBA8CCBE8
    ensures Power(38) == 0xAE6BE681
    ensures Power(39) == 0x9A11D850
  {
    Orbit36();
    Hop(36, 0x5CFDEDF4);
    Hop(37, 0xBA8CCBE8);
    Hop(38, 0xAE6BE681);
  }

  lemma Place0IsScale(b: bv8)
    ensures Place(b, 0) == Scale(b, 0x80)
  {}

  lemma Place1IsScale(b: bv8)
    ensures Place(b, 1) == Scale(b, 0x8000)
  {}

  lemma Place2IsScale(b: bv8)
    ensures Place(b, 2) == Scale(b, 0x800000)
  {}

  lemma Place3IsScale(b: bv8)
    ensures Place(b, 3) == Scale(b, 0x80000000)
  {}

  lemma PlaceIsScale(b: bv8, m: nat)
    requires m < 4
    ensures Place(b, m) == Scale(b, Power(20 - m))
  {
    Orbit20();
    match m
    case 0 => Place0IsScale(b);
    case 1 => Place1IsScale(b);
    case 2 => Place2IsScale(b);
    case 3 => Place3IsScale(b);
  }

  /** A byte at position m of the word, n bytes later. */
  lemma ShiftedPlace(b: bv8, m: nat, n: nat)
    requires m < 4
    ensures Shift(Place(b, m), 8 * n) == Scale(b, Power(20 - m + n))
  {
    PlaceIsScale(b, m);
    Advance(20 - m, n);
    ShiftScale(b, Power(20 - m), 8 * n);
  }

  /** The only word that is the byte y at position m after n bytes. */
  lemma UnshiftedPlace(x: bv32, y: bv8, m: nat, n: nat)
    requires m < 4 && n + m <= 20 && Shift(x, 8 * n) == Place(y, m)
    ensures x == Scale(y, Power(20 - m - n))
  {
    PlaceIsScale(y, m);
    Advance(20 - m - n, n);
    ShiftScale(y, Power(20 - m - n), 8 * n);
    ShiftInjective(x, Scale(y, Power(20 - m - n)), 8 * n);
  }

  // ---------------------------------------------------------------- systems with no solution but zero

  lemma Columns29(a: bv32, b: bv8)
    ensures Add(a, b, 0x6655004F)
         == Mix(a, b, 0x177B1443, 0x2EF62886, 0x5DEC510C, 0xBBD8A218,
                0xACC04271, 0x82F182A3, 0xDE920307, 0x6655004F)
  {}

  lemma Columns30(a: bv32, b: bv8)
    ensures Add(a, b, 0xE6050901)
         == Mix(a, b, 0xEFC26B3E, 0x04F5D03D, 0x09EBA07A, 0x13D740F4,
                0x27AE81E8, 0x4F5D03D0, 0x9EBA07A0, 0xE6050901)
  {}

  lemma Columns31(a: bv32, b: bv8)
    ensures Add(a, b, 0x77E1359F)
         == Mix(a, b, 0xC18EDFC0, 0x586CB9C1, 0xB0D97382, 0xBAC3E145,
                0xAEF6C4CB, 0x869C8FD7, 0xD64819EF, 0x77E1359F)
  {}

  lemma Columns32(a: bv32, b: bv8)
    ensures Add(a, b, 0x60C76FE0)
         == Mix(a, b, 0x9BA54C6F, 0xEC3B9E9F, 0x03063B7F, 0x060C76FE,
                0x0C18EDFC, 0x1831DBF8, 0x3063B7F0, 0x60C76FE0)
  {}

  lemma Columns37(a: bv32, b: bv8)
    ensures Add(a, b, 0xBA8CCBE8)
         == Mix(a, b, 0x87A6CB43, 0xD43C90C7, 0x730827CF, 0xE6104F9E,
                0x1751997D, 0x2EA332FA, 0x5D4665F4, 0xBA8CCBE8)
  {}

  lemma Columns38(a: bv32, b: bv8)
    ensures Add(a, b, 0xAE6BE681)
         == Mix(a, b, 0xEF52B6E1, 0x05D46B83, 0x0BA8D706, 0x1751AE0C,
                0x2EA35C18, 0x5D46B830, 0xBA8D7060, 0xAE6BE681)
  {}

  lemma Solve30(b0: bv8, b1: bv8)
    requires Mix(Mix(0, b0, 0xEFC26B3E, 0x04F5D03D, 0x09EBA07A, 0x13D740F4,
                     0x27AE81E8, 0x4F5D03D0, 0x9EBA07A0, 0xE6050901),
                 b1, 0x177B1443, 0x2EF62886, 0x5DEC510C, 0xBBD8A218,
                 0xACC04271, 0x82F182A3, 0xDE920307, 0x6655004F) < 0x10000
    ensures b0 == 0 && b1 == 0
  {}

  lemma TwoBytesReach30(b0: bv8, b1: bv8)
    requires Xor(Scale(b0, Power(30)), Scale(b1, Power(29))) < 0x10000
    ensures b0 == 0 && b1 == 0
  {
    Orbit32();
    Columns30(0, b0);
    Columns29(0, b1);
    MixXor(Scale(b0, 0xE6050901), b1, 0x177B1443, 0x2EF62886, 0x5DEC510C, 0xBBD8A218,
           0xACC04271, 0x82F182A3, 0xDE920307, 0x6655004F);
    Solve30(b0, b1);
  }

  lemma Solve32(b0: bv8, b1: bv8)
    requires Mix(Mix(0, b0, 0x9BA54C6F, 0xEC3B9E9F, 0x03063B7F, 0x060C76FE,
                     0x0C18EDFC, 0x1831DBF8, 0x3063B7F0, 0x60C76FE0),
                 b1, 0xC18EDFC0, 0x586CB9C1, 0xB0D97382, 0xBAC3E145,
                 0xAEF6C4CB, 0x869C8FD7, 0xD64819EF, 0x77E1359F) < 0x10000
    ensures b0 == 0 && b1 == 0
  {}

  lemma TwoBytesReach32(b0: bv8, b1: bv8)
    requires Xor(Scale(b0, Power(32)), Scale(b1, Power(31))) < 0x10000
    ensures b0 == 0 && b1 == 0
  {
    Orbit32();
    Columns32(0, b0);
    Columns31(0, b1);
    MixXor(Scale(b0, 0x60C76FE0), b1, 0xC18EDFC0, 0x586CB9C1, 0xB0D97382, 0xBAC3E145,
           0xAEF6C4CB, 0x869C8FD7, 0xD64819EF, 0x77E1359F);
    Solve32(b0, b1);
  }

  lemma Solve38(b0: bv8, b1: bv8)
    requires Mix(Mix(0, b0, 0xEF52B6E1, 0x05D46B83, 0x0BA8D706, 0x1751AE0C,
                     0x2EA35C18, 0x5D46B830, 0xBA8D7060, 0xAE6BE681),
                 b1, 0x87A6CB43, 0xD43C90C7, 0x730827CF, 0xE6104F9E,
                 0x1751997D, 0x2EA332FA, 0x5D4665F4, 0xBA8CCBE8) & 0xFFFF == 0
    ensures b0 == 0 && b1 == 0
  {}

  lemma TwoBytesReach38(b0: bv8, b1: bv8, d: bv32)
    requires d == Xor(Scale(b0, Power(38)), Scale(b1, Power(37))) && d & 0xFFFF == 0
    ensures b0 == 0 && b1 == 0
  {
    Orbit39();
    Columns38(0, b0);
    Columns37(0, b1);
    MixXor(Scale(b0, 0xAE6BE681), b1, 0x87A6CB43, 0xD43C90C7, 0x730827CF, 0xE6104F9E,
           0x1751997D, 0x2EA332FA, 0x5D4665F4, 0xBA8CCBE8);
    Solve38(b0, b1);
  }

  lemma OneByteReaches35(b: bv8)
    requires Scale(b, Power(35)) & 0xFF == 0
    ensures b == 0
  {
    Orbit36();
    assert Scale(b, 0x4E87F0BB) & 0xFF == 0;
  }

  lemma OneByteReaches0(b: bv8)
    requires Scale(b, Power(0)) < 0x1000000
    ensures b == 0
  {
    assert Scale(b, 0x12731959) < 0x1000000;
  }

  lemma OneByteReaches8(b: bv8)
    requires Scale(b, Power(8)) < 0x1000000
    ensures b == 0
  {
    Orbit8();
    assert Scale(b, 0x2FB98A7D) < 0x1000000;
  }

  lemma OneByteReaches10(b: bv8)
    requires Scale(b, Power(10)) < 0x1000000
    ensures b == 0
  {
    Orbit12();
    assert Scale(b, 0x97FC423C) < 0x1000000;
  }

  // ---------------------------------------------------------------- check value

  /** The ASCII digits 1 to 9. */
  const DIGITS: seq<bv8> := [0x31, 0x32, 0x33, 0x34, 0x35, 0x36, 0x37, 0x38, 0x39]

  lemma FeedNext(k: nat, c: bv32)
    requires k < 9 && FeedBytes(0xFFFFFFFF, DIGITS[..k]) == c
    ensures FeedBytes(0xFFFFFFFF, DIGITS[..k + 1]) == Steps8(Xor(c, Widen(DIGITS[k])))
  {
    assert DIGITS[..k + 1][..k] == DIGITS[..k] && DIGITS[..k + 1][k] == DIGITS[k];
    Steps8IsShift(Xor(c, Widen(DIGITS[k])));
  }

  lemma FirstThree()
    ensures FeedBytes(0xFFFFFFFF, DIGITS[..3]) == 0x77B79C2D
  {
    assert DIGITS[..0] == [];
    FeedNext(0, 0xFFFFFFFF);
    FeedNext(1, 0x7C231048);
    FeedNext(2, 0xB0ACBB32);
  }

  lemma FirstSix()
    ensures FeedBytes(0xFFFFFFFF, DIGITS[..6]) == 0xF68D2C9E
  {
    FirstThree();
    FeedNext(3, 0x77B79C2D);
    FeedNext(4, 0x641C1F5C);
    FeedNext(5, 0x340AC5E3);
  }

  /** The check value of CRC-32: the code of the nine digits is CBF43926. */
  lemma CheckValue()
    ensures BitSerialCrc(DIGITS) == 0xCBF43926
  {
    FirstSix();
    FeedNext(6, 0xF68D2C9E);
    FeedNext(7, 0xAFFC9660);
    FeedNext(8, 0x651F2550);
    assert DIGITS[..9] == DIGITS;
    CrcIsFeed(DIGITS);
  }
}
