/** The S-box in terms of the field, section 5.1.1 of FIPS 197: the multiplicative inverse in GF(2^8), followed
    by an affine transformation over GF(2). */
module AesSbox {
  import opened AesTables
  import opened AesField
  import opened AesRows

  /** a times bit k of b. */
  function BitTimes(a: bv8, b: bv8, k: bv8): bv8
    requires k < 8
  {
    a * ((b >> k) & 1)
  }

  /** Multiplication in the field, section 4.2: the sum of a times x^k for the bits k of b. */
  function Times(a: bv8, b: bv8): bv8 {
    var a1 := Xtime(a);
    var a2 := Xtime(a1);
    var a3 := Xtime(a2);
    var a4 := Xtime(a3);
    var a5 := Xtime(a4);
    var a6 := Xtime(a5);
    var a7 := Xtime(a6);
    BitTimes(a, b, 0) ^ BitTimes(a1, b, 1) ^ BitTimes(a2, b, 2) ^ BitTimes(a3, b, 3) ^
    BitTimes(a4, b, 4) ^ BitTimes(a5, b, 5) ^ BitTimes(a6, b, 6) ^ BitTimes(a7, b, 7)
  }

  lemma Times2(b: bv8) ensures Times(b, 2) == Xtime(b) {}
  lemma Times3(b: bv8) ensures Times(b, 3) == Mul3(b) {}
  lemma Times9(b: bv8) ensures Times(b, 9) == Mul9(b) {}
  lemma TimesB(b: bv8) ensures Times(b, 0xb) == MulB(b) {}
  lemma TimesD(b: bv8) ensures Times(b, 0xd) == MulD(b) {}
  lemma TimesE(b: bv8) ensures Times(b, 0xe) == MulE(b) {}

  /** The products in MixColumns and its inverse. */
  lemma TimesConstants(b: bv8)
    ensures Times(b, 2) == Xtime(b) && Times(b, 3) == Mul3(b)
    ensures Times(b, 9) == Mul9(b) && Times(b, 0xb) == MulB(b) && Times(b, 0xd) == MulD(b) && Times(b, 0xe) == MulE(b)
  {
    hide Times, Xtime, Mul3, Mul9, MulB, MulD, MulE;
    Times2(b);
    Times3(b);
    Times9(b);
    TimesB(b);
    TimesD(b);
    TimesE(b);
  }

  function RotateBits(b: bv8, k: bv8): bv8
    requires k <= 8
  {
    (b << k) ^ (b >> (8 - k))
  }

  /** Equation 5.1. */
  function Affine(b: bv8): bv8 {
    b ^ RotateBits(b, 1) ^ RotateBits(b, 2) ^ RotateBits(b, 3) ^ RotateBits(b, 4) ^ 0x63
  }

  // ---------- The inverses ----------

  function InverseRow(hi: bv8): ByteRow {
    PickBytes(hi,
      ByteRow(0x00, 0x01, 0x8d, 0xf6, 0xcb, 0x52, 0x7b, 0xd1,
              0xe8, 0x4f, 0x29, 0xc0, 0xb0, 0xe1, 0xe5, 0xc7),
      ByteRow(0x74, 0xb4, 0xaa, 0x4b, 0x99, 0x2b, 0x60, 0x5f,
              0x58, 0x3f, 0xfd, 0xcc, 0xff, 0x40, 0xee, 0xb2),
      ByteRow(0x3a, 0x6e, 0x5a, 0xf1, 0x55, 0x4d, 0xa8, 0xc9,
              0xc1, 0x0a, 0x98, 0x15, 0x30, 0x44, 0xa2, 0xc2),
      ByteRow(0x2c, 0x45, 0x92, 0x6c, 0xf3, 0x39, 0x66, 0x42,
              0xf2, 0x35, 0x20, 0x6f, 0x77, 0xbb, 0x59, 0x19),
      ByteRow(0x1d, 0xfe, 0x37, 0x67, 0x2d, 0x31, 0xf5, 0x69,
              0xa7, 0x64, 0xab, 0x13, 0x54, 0x25, 0xe9, 0x09),
      ByteRow(0xed, 0x5c, 0x05, 0xca, 0x4c, 0x24, 0x87, 0xbf,
              0x18, 0x3e, 0x22, 0xf0, 0x51, 0xec, 0x61, 0x17),
      ByteRow(0x16, 0x5e, 0xaf, 0xd3, 0x49, 0xa6, 0x36, 0x43,
              0xf4, 0x47, 0x91, 0xdf, 0x33, 0x93, 0x21, 0x3b),
      ByteRow(0x79, 0xb7, 0x97, 0x85, 0x10, 0xb5, 0xba, 0x3c,
              0xb6, 0x70, 0xd0, 0x06, 0xa1, 0xfa, 0x81, 0x82),
      ByteRow(0x83, 0x7e, 0x7f, 0x80, 0x96, 0x73, 0xbe, 0x56,
              0x9b, 0x9e, 0x95, 0xd9, 0xf7, 0x02, 0xb9, 0xa4),
      ByteRow(0xde, 0x6a, 0x32, 0x6d, 0xd8, 0x8a, 0x84, 0x72,
              0x2a, 0x14, 0x9f, 0x88, 0xf9, 0xdc, 0x89, 0x9a),
      ByteRow(0xfb, 0x7c, 0x2e, 0xc3, 0x8f, 0xb8, 0x65, 0x48,
              0x26, 0xc8, 0x12, 0x4a, 0xce, 0xe7, 0xd2, 0x62),
      ByteRow(0x0c, 0xe0, 0x1f, 0xef, 0x11, 0x75, 0x78, 0x71,
              0xa5, 0x8e, 0x76, 0x3d, 0xbd, 0xbc, 0x86, 0x57),
      ByteRow(0x0b, 0x28, 0x2f, 0xa3, 0xda, 0xd4, 0xe4, 0x0f,
              0xa9, 0x27, 0x53, 0x04, 0x1b, 0xfc, 0xac, 0xe6),
      ByteRow(0x7a, 0x07, 0xae, 0x63, 0xc5, 0xdb, 0xe2, 0xea,
              0x94, 0x8b, 0xc4, 0xd5, 0x9d, 0xf8, 0x90, 0x6b),
      ByteRow(0xb1, 0x0d, 0xd6, 0xeb, 0xc6, 0x0e, 0xcf, 0xad,
              0x08, 0x4e, 0xd7, 0xe3, 0x5d, 0x50, 0x1e, 0xb3),
      ByteRow(0x5b, 0x23, 0x38, 0x34, 0x68, 0x46, 0x03, 0x8c,
              0xdd, 0x9c, 0x7d, 0xa0, 0xcd, 0x1a, 0x41, 0x1c))
  }

  /** The inverse of x, and 0 for 0. */
  function Inverse(x: bv8): bv8 { ByteAt(InverseRow(x >> 4), x & 15) }

  function TimesRow(a: ByteRow, b: ByteRow): ByteRow {
    ByteRow(Times(a.e0, b.e0), Times(a.e1, b.e1), Times(a.e2, b.e2), Times(a.e3, b.e3),
            Times(a.e4, b.e4), Times(a.e5, b.e5), Times(a.e6, b.e6), Times(a.e7, b.e7),
            Times(a.e8, b.e8), Times(a.e9, b.e9), Times(a.eA, b.eA), Times(a.eB, b.eB),
            Times(a.eC, b.eC), Times(a.eD, b.eD), Times(a.eE, b.eE), Times(a.eF, b.eF))
  }

  function AffineRow(r: ByteRow): ByteRow {
    ByteRow(Affine(r.e0), Affine(r.e1), Affine(r.e2), Affine(r.e3),
            Affine(r.e4), Affine(r.e5), Affine(r.e6), Affine(r.e7),
            Affine(r.e8), Affine(r.e9), Affine(r.eA), Affine(r.eB),
            Affine(r.eC), Affine(r.eD), Affine(r.eE), Affine(r.eF))
  }

  lemma TimesRowAt(a: ByteRow, b: ByteRow, n: bv8)
    ensures ByteAt(TimesRow(a, b), n) == Times(ByteAt(a, n), ByteAt(b, n))
  {
    hide Times;
  }

  lemma AffineRowAt(r: ByteRow, n: bv8)
    ensures ByteAt(AffineRow(r), n) == Affine(ByteAt(r, n))
  {
    hide Affine;
  }

  /** Every product is 1 but that of 0. */
  function Ones(hi: bv8): ByteRow {
    ByteRow(if hi == 0 then 0 else 1, 1, 1, 1, 1, 1, 1, 1, 1, 1, 1, 1, 1, 1, 1, 1)
  }

  lemma OnesAt(x: bv8)
    ensures ByteAt(Ones(x >> 4), x & 15) == if x == 0 then 0 else 1
  {}

  lemma TimesFact0()
    ensures Times(0x00, 0x00) == 0 && Times(0x01, 0x01) == 1 && Times(0x02, 0x8d) == 1 && Times(0x03, 0xf6) == 1
    ensures Times(0x04, 0xcb) == 1 && Times(0x05, 0x52) == 1 && Times(0x06, 0x7b) == 1 && Times(0x07, 0xd1) == 1
    ensures Times(0x08, 0xe8) == 1 && Times(0x09, 0x4f) == 1 && Times(0x0a, 0x29) == 1 && Times(0x0b, 0xc0) == 1
    ensures Times(0x0c, 0xb0) == 1 && Times(0x0d, 0xe1) == 1 && Times(0x0e, 0xe5) == 1 && Times(0x0f, 0xc7) == 1
  {}

  lemma TimesFact1()
    ensures Times(0x10, 0x74) == 1 && Times(0x11, 0xb4) == 1 && Times(0x12, 0xaa) == 1 && Times(0x13, 0x4b) == 1
    ensures Times(0x14, 0x99) == 1 && Times(0x15, 0x2b) == 1 && Times(0x16, 0x60) == 1 && Times(0x17, 0x5f) == 1
    ensures Times(0x18, 0x58) == 1 && Times(0x19, 0x3f) == 1 && Times(0x1a, 0xfd) == 1 && Times(0x1b, 0xcc) == 1
    ensures Times(0x1c, 0xff) == 1 && Times(0x1d, 0x40) == 1 && Times(0x1e, 0xee) == 1 && Times(0x1f, 0xb2) == 1
  {}

  lemma TimesFact2()
    ensures Times(0x20, 0x3a) == 1 && Times(0x21, 0x6e) == 1 && Times(0x22, 0x5a) == 1 && Times(0x23, 0xf1) == 1
    ensures Times(0x24, 0x55) == 1 && Times(0x25, 0x4d) == 1 && Times(0x26, 0xa8) == 1 && Times(0x27, 0xc9) == 1
    ensures Times(0x28, 0xc1) == 1 && Times(0x29, 0x0a) == 1 && Times(0x2a, 0x98) == 1 && Times(0x2b, 0x15) == 1
    ensures Times(0x2c, 0x30) == 1 && Times(0x2d, 0x44) == 1 && Times(0x2e, 0xa2) == 1 && Times(0x2f, 0xc2) == 1
  {}

  lemma TimesFact3()
    ensures Times(0x30, 0x2c) == 1 && Times(0x31, 0x45) == 1 && Times(0x32, 0x92) == 1 && Times(0x33, 0x6c) == 1
    ensures Times(0x34, 0xf3) == 1 && Times(0x35, 0x39) == 1 && Times(0x36, 0x66) == 1 && Times(0x37, 0x42) == 1
    ensures Times(0x38, 0xf2) == 1 && Times(0x39, 0x35) == 1 && Times(0x3a, 0x20) == 1 && Times(0x3b, 0x6f) == 1
    ensures Times(0x3c, 0x77) == 1 && Times(0x3d, 0xbb) == 1 && Times(0x3e, 0x59) == 1 && Times(0x3f, 0x19) == 1
  {}

  lemma TimesFact4()
    ensures Times(0x40, 0x1d) == 1 && Times(0x41, 0xfe) == 1 && Times(0x42, 0x37) == 1 && Times(0x43, 0x67) == 1
    ensures Times(0x44, 0x2d) == 1 && Times(0x45, 0x31) == 1 && Times(0x46, 0xf5) == 1 && Times(0x47, 0x69) == 1
    ensures Times(0x48, 0xa7) == 1 && Times(0x49, 0x64) == 1 && Times(0x4a, 0xab) == 1 && Times(0x4b, 0x13) == 1
    ensures Times(0x4c, 0x54) == 1 && Times(0x4d, 0x25) == 1 && Times(0x4e, 0xe9) == 1 && Times(0x4f, 0x09) == 1
  {}

  lemma TimesFact5()
    ensures Times(0x50, 0xed) == 1 && Times(0x51, 0x5c) == 1 && Times(0x52, 0x05) == 1 && Times(0x53, 0xca) == 1
    ensures Times(0x54, 0x4c) == 1 && Times(0x55, 0x24) == 1 && Times(0x56, 0x87) == 1 && Times(0x57, 0xbf) == 1
    ensures Times(0x58, 0x18) == 1 && Times(0x59, 0x3e) == 1 && Times(0x5a, 0x22) == 1 && Times(0x5b, 0xf0) == 1
    ensures Times(0x5c, 0x51) == 1 && Times(0x5d, 0xec) == 1 && Times(0x5e, 0x61) == 1 && Times(0x5f, 0x17) == 1
  {}

  lemma TimesFact6()
    ensures Times(0x60, 0x16) == 1 && Times(0x61, 0x5e) == 1 && Times(0x62, 0xaf) == 1 && Times(0x63, 0xd3) == 1
    ensures Times(0x64, 0x49) == 1 && Times(0x65, 0xa6) == 1 && Times(0x66, 0x36) == 1 && Times(0x67, 0x43) == 1
    ensures Times(0x68, 0xf4) == 1 && Times(0x69, 0x47) == 1 && Times(0x6a, 0x91) == 1 && Times(0x6b, 0xdf) == 1
    ensures Times(0x6c, 0x33) == 1 && Times(0x6d, 0x93) == 1 && Times(0x6e, 0x21) == 1 && Times(0x6f, 0x3b) == 1
  {}

  lemma TimesFact7()
    ensures Times(0x70, 0x79) == 1 && Times(0x71, 0xb7) == 1 && Times(0x72, 0x97) == 1 && Times(0x73, 0x85) == 1
    ensures Times(0x74, 0x10) == 1 && Times(0x75, 0xb5) == 1 && Times(0x76, 0xba) == 1 && Times(0x77, 0x3c) == 1
    ensures Times(0x78, 0xb6) == 1 && Times(0x79, 0x70) == 1 && Times(0x7a, 0xd0) == 1 && Times(0x7b, 0x06) == 1
    ensures Times(0x7c, 0xa1) == 1 && Times(0x7d, 0xfa) == 1 && Times(0x7e, 0x81) == 1 && Times(0x7f, 0x82) == 1
  {}

  lemma TimesFact8()
    ensures Times(0x80, 0x83) == 1 && Times(0x81, 0x7e) == 1 && Times(0x82, 0x7f) == 1 && Times(0x83, 0x80) == 1
    ensures Times(0x84, 0x96) == 1 && Times(0x85, 0x73) == 1 && Times(0x86, 0xbe) == 1 && Times(0x87, 0x56) == 1
    ensures Times(0x88, 0x9b) == 1 && Times(0x89, 0x9e) == 1 && Times(0x8a, 0x95) == 1 && Times(0x8b, 0xd9) == 1
    ensures Times(0x8c, 0xf7) == 1 && Times(0x8d, 0x02) == 1 && Times(0x8e, 0xb9) == 1 && Times(0x8f, 0xa4) == 1
  {}

  lemma TimesFact9()
    ensures Times(0x90, 0xde) == 1 && Times(0x91, 0x6a) == 1 && Times(0x92, 0x32) == 1 && Times(0x93, 0x6d) == 1
    ensures Times(0x94, 0xd8) == 1 && Times(0x95, 0x8a) == 1 && Times(0x96, 0x84) == 1 && Times(0x97, 0x72) == 1
    ensures Times(0x98, 0x2a) == 1 && Times(0x99, 0x14) == 1 && Times(0x9a, 0x9f) == 1 && Times(0x9b, 0x88) == 1
    ensures Times(0x9c, 0xf9) == 1 && Times(0x9d, 0xdc) == 1 && Times(0x9e, 0x89) == 1 && Times(0x9f, 0x9a) == 1
  {}

  lemma TimesFactA()
    ensures Times(0xa0, 0xfb) == 1 && Times(0xa1, 0x7c) == 1 && Times(0xa2, 0x2e) == 1 && Times(0xa3, 0xc3) == 1
    ensures Times(0xa4, 0x8f) == 1 && Times(0xa5, 0xb8) == 1 && Times(0xa6, 0x65) == 1 && Times(0xa7, 0x48) == 1
    ensures Times(0xa8, 0x26) == 1 && Times(0xa9, 0xc8) == 1 && Times(0xaa, 0x12) == 1 && Times(0xab, 0x4a) == 1
    ensures Times(0xac, 0xce) == 1 && Times(0xad, 0xe7) == 1 && Times(0xae, 0xd2) == 1 && Times(0xaf, 0x62) == 1
  {}

  lemma TimesFactB()
    ensures Times(0xb0, 0x0c) == 1 && Times(0xb1, 0xe0) == 1 && Times(0xb2, 0x1f) == 1 && Times(0xb3, 0xef) == 1
    ensures Times(0xb4, 0x11) == 1 && Times(0xb5, 0x75) == 1 && Times(0xb6, 0x78) == 1 && Times(0xb7, 0x71) == 1
    ensures Times(0xb8, 0xa5) == 1 && Times(0xb9, 0x8e) == 1 && Times(0xba, 0x76) == 1 && Times(0xbb, 0x3d) == 1
    ensures Times(0xbc, 0xbd) == 1 && Times(0xbd, 0xbc) == 1 && Times(0xbe, 0x86) == 1 && Times(0xbf, 0x57) == 1
  {}

  lemma TimesFactC()
    ensures Times(0xc0, 0x0b) == 1 && Times(0xc1, 0x28) == 1 && Times(0xc2, 0x2f) == 1 && Times(0xc3, 0xa3) == 1
    ensures Times(0xc4, 0xda) == 1 && Times(0xc5, 0xd4) == 1 && Times(0xc6, 0xe4) == 1 && Times(0xc7, 0x0f) == 1
    ensures Times(0xc8, 0xa9) == 1 && Times(0xc9, 0x27) == 1 && Times(0xca, 0x53) == 1 && Times(0xcb, 0x04) == 1
    ensures Times(0xcc, 0x1b) == 1 && Times(0xcd, 0xfc) == 1 && Times(0xce, 0xac) == 1 && Times(0xcf, 0xe6) == 1
  {}

  lemma TimesFactD()
    ensures Times(0xd0, 0x7a) == 1 && Times(0xd1, 0x07) == 1 && Times(0xd2, 0xae) == 1 && Times(0xd3, 0x63) == 1
    ensures Times(0xd4, 0xc5) == 1 && Times(0xd5, 0xdb) == 1 && Times(0xd6, 0xe2) == 1 && Times(0xd7, 0xea) == 1
    ensures Times(0xd8, 0x94) == 1 && Times(0xd9, 0x8b) == 1 && Times(0xda, 0xc4) == 1 && Times(0xdb, 0xd5) == 1
    ensures Times(0xdc, 0x9d) == 1 && Times(0xdd, 0xf8) == 1 && Times(0xde, 0x90) == 1 && Times(0xdf, 0x6b) == 1
  {}

  lemma TimesFactE()
    ensures Times(0xe0, 0xb1) == 1 && Times(0xe1, 0x0d) == 1 && Times(0xe2, 0xd6) == 1 && Times(0xe3, 0xeb) == 1
    ensures Times(0xe4, 0xc6) == 1 && Times(0xe5, 0x0e) == 1 && Times(0xe6, 0xcf) == 1 && Times(0xe7, 0xad) == 1
    ensures Times(0xe8, 0x08) == 1 && Times(0xe9, 0x4e) == 1 && Times(0xea, 0xd7) == 1 && Times(0xeb, 0xe3) == 1
    ensures Times(0xec, 0x5d) == 1 && Times(0xed, 0x50) == 1 && Times(0xee, 0x1e) == 1 && Times(0xef, 0xb3) == 1
  {}

  lemma TimesFactF()
    ensures Times(0xf0, 0x5b) == 1 && Times(0xf1, 0x23) == 1 && Times(0xf2, 0x38) == 1 && Times(0xf3, 0x34) == 1
    ensures Times(0xf4, 0x68) == 1 && Times(0xf5, 0x46) == 1 && Times(0xf6, 0x03) == 1 && Times(0xf7, 0x8c) == 1
    ensures Times(0xf8, 0xdd) == 1 && Times(0xf9, 0x9c) == 1 && Times(0xfa, 0x7d) == 1 && Times(0xfb, 0xa0) == 1
    ensures Times(0xfc, 0xcd) == 1 && Times(0xfd, 0x1a) == 1 && Times(0xfe, 0x41) == 1 && Times(0xff, 0x1c) == 1
  {}

  lemma AffineFact0()
    ensures Affine(0x00) == 0x63 && Affine(0x01) == 0x7c && Affine(0x8d) == 0x77 && Affine(0xf6) == 0x7b
    ensures Affine(0xcb) == 0xf2 && Affine(0x52) == 0x6b && Affine(0x7b) == 0x6f && Affine(0xd1) == 0xc5
    ensures Affine(0xe8) == 0x30 && Affine(0x4f) == 0x01 && Affine(0x29) == 0x67 && Affine(0xc0) == 0x2b
    ensures Affine(0xb0) == 0xfe && Affine(0xe1) == 0xd7 && Affine(0xe5) == 0xab && Affine(0xc7) == 0x76
  {}

  lemma AffineFact1()
    ensures Affine(0x74) == 0xca && Affine(0xb4) == 0x82 && Affine(0xaa) == 0xc9 && Affine(0x4b) == 0x7d
    ensures Affine(0x99) == 0xfa && Affine(0x2b) == 0x59 && Affine(0x60) == 0x47 && Affine(0x5f) == 0xf0
    ensures Affine(0x58) == 0xad && Affine(0x3f) == 0xd4 && Affine(0xfd) == 0xa2 && Affine(0xcc) == 0xaf
    ensures Affine(0xff) == 0x9c && Affine(0x40) == 0xa4 && Affine(0xee) == 0x72 && Affine(0xb2) == 0xc0
  {}

  lemma AffineFact2()
    ensures Affine(0x3a) == 0xb7 && Affine(0x6e) == 0xfd && Affine(0x5a) == 0x93 && Affine(0xf1) == 0x26
    ensures Affine(0x55) == 0x36 && Affine(0x4d) == 0x3f && Affine(0xa8) == 0xf7 && Affine(0xc9) == 0xcc
    ensures Affine(0xc1) == 0x34 && Affine(0x0a) == 0xa5 && Affine(0x98) == 0xe5 && Affine(0x15) == 0xf1
    ensures Affine(0x30) == 0x71 && Affine(0x44) == 0xd8 && Affine(0xa2) == 0x31 && Affine(0xc2) == 0x15
  {}

  lemma AffineFact3()
    ensures Affine(0x2c) == 0x04 && Affine(0x45) == 0xc7 && Affine(0x92) == 0x23 && Affine(0x6c) == 0xc3
    ensures Affine(0xf3) == 0x18 && Affine(0x39) == 0x96 && Affine(0x66) == 0x05 && Affine(0x42) == 0x9a
    ensures Affine(0xf2) == 0x07 && Affine(0x35) == 0x12 && Affine(0x20) == 0x80 && Affine(0x6f) == 0xe2
    ensures Affine(0x77) == 0xeb && Affine(0xbb) == 0x27 && Affine(0x59) == 0xb2 && Affine(0x19) == 0x75
  {}

  lemma AffineFact4()
    ensures Affine(0x1d) == 0x09 && Affine(0xfe) == 0x83 && Affine(0x37) == 0x2c && Affine(0x67) == 0x1a
    ensures Affine(0x2d) == 0x1b && Affine(0x31) == 0x6e && Affine(0xf5) == 0x5a && Affine(0x69) == 0xa0
    ensures Affine(0xa7) == 0x52 && Affine(0x64) == 0x3b && Affine(0xab) == 0xd6 && Affine(0x13) == 0xb3
    ensures Affine(0x54) == 0x29 && Affine(0x25) == 0xe3 && Affine(0xe9) == 0x2f && Affine(0x09) == 0x84
  {}

  lemma AffineFact5()
    ensures Affine(0xed) == 0x53 && Affine(0x5c) == 0xd1 && Affine(0x05) == 0x00 && Affine(0xca) == 0xed
    ensures Affine(0x4c) == 0x20 && Affine(0x24) == 0xfc && Affine(0x87) == 0xb1 && Affine(0xbf) == 0x5b
    ensures Affine(0x18) == 0x6a && Affine(0x3e) == 0xcb && Affine(0x22) == 0xbe && Affine(0xf0) == 0x39
    ensures Affine(0x51) == 0x4a && Affine(0xec) == 0x4c && Affine(0x61) == 0x58 && Affine(0x17) == 0xcf
  {}

  lemma AffineFact6()
    ensures Affine(0x16) == 0xd0 && Affine(0x5e) == 0xef && Affine(0xaf) == 0xaa && Affine(0xd3) == 0xfb
    ensures Affine(0x49) == 0x43 && Affine(0xa6) == 0x4d && Affine(0x36) == 0x33 && Affine(0x43) == 0x85
    ensures Affine(0xf4) == 0x45 && Affine(0x47) == 0xf9 && Affine(0x91) == 0x02 && Affine(0xdf) == 0x7f
    ensures Affine(0x33) == 0x50 && Affine(0x93) == 0x3c && Affine(0x21) == 0x9f && Affine(0x3b) == 0xa8
  {}

  lemma AffineFact7()
    ensures Affine(0x79) == 0x51 && Affine(0xb7) == 0xa3 && Affine(0x97) == 0x40 && Affine(0x85) == 0x8f
    ensures Affine(0x10) == 0x92 && Affine(0xb5) == 0x9d && Affine(0xba) == 0x38 && Affine(0x3c) == 0xf5
    ensures Affine(0xb6) == 0xbc && Affine(0x70) == 0xb6 && Affine(0xd0) == 0xda && Affine(0x06) == 0x21
    ensures Affine(0xa1) == 0x10 && Affine(0xfa) == 0xff && Affine(0x81) == 0xf3 && Affine(0x82) == 0xd2
  {}

  lemma AffineFact8()
    ensures Affine(0x83) == 0xcd && Affine(0x7e) == 0x0c && Affine(0x7f) == 0x13 && Affine(0x80) == 0xec
    ensures Affine(0x96) == 0x5f && Affine(0x73) == 0x97 && Affine(0xbe) == 0x44 && Affine(0x56) == 0x17
    ensures Affine(0x9b) == 0xc4 && Affine(0x9e) == 0xa7 && Affine(0x95) == 0x7e && Affine(0xd9) == 0x3d
    ensures Affine(0xf7) == 0x64 && Affine(0x02) == 0x5d && Affine(0xb9) == 0x19 && Affine(0xa4) == 0x73
  {}

  lemma AffineFact9()
    ensures Affine(0xde) == 0x60 && Affine(0x6a) == 0x81 && Affine(0x32) == 0x4f && Affine(0x6d) == 0xdc
    ensures Affine(0xd8) == 0x22 && Affine(0x8a) == 0x2a && Affine(0x84) == 0x90 && Affine(0x72) == 0x88
    ensures Affine(0x2a) == 0x46 && Affine(0x14) == 0xee && Affine(0x9f) == 0xb8 && Affine(0x88) == 0x14
    ensures Affine(0xf9) == 0xde && Affine(0xdc) == 0x5e && Affine(0x89) == 0x0b && Affine(0x9a) == 0xdb
  {}

  lemma AffineFactA()
    ensures Affine(0xfb) == 0xe0 && Affine(0x7c) == 0x32 && Affine(0x2e) == 0x3a && Affine(0xc3) == 0x0a
    ensures Affine(0x8f) == 0x49 && Affine(0xb8) == 0x06 && Affine(0x65) == 0x24 && Affine(0x48) == 0x5c
    ensures Affine(0x26) == 0xc2 && Affine(0xc8) == 0xd3 && Affine(0x12) == 0xac && Affine(0x4a) == 0x62
    ensures Affine(0xce) == 0x91 && Affine(0xe7) == 0x95 && Affine(0xd2) == 0xe4 && Affine(0x62) == 0x79
  {}

  lemma AffineFactB()
    ensures Affine(0x0c) == 0xe7 && Affine(0xe0) == 0xc8 && Affine(0x1f) == 0x37 && Affine(0xef) == 0x6d
    ensures Affine(0x11) == 0x8d && Affine(0x75) == 0xd5 && Affine(0x78) == 0x4e && Affine(0x71) == 0xa9
    ensures Affine(0xa5) == 0x6c && Affine(0x8e) == 0x56 && Affine(0x76) == 0xf4 && Affine(0x3d) == 0xea
    ensures Affine(0xbd) == 0x65 && Affine(0xbc) == 0x7a && Affine(0x86) == 0xae && Affine(0x57) == 0x08
  {}

  lemma AffineFactC()
    ensures Affine(0x0b) == 0xba && Affine(0x28) == 0x78 && Affine(0x2f) == 0x25 && Affine(0xa3) == 0x2e
    ensures Affine(0xda) == 0x1c && Affine(0xd4) == 0xa6 && Affine(0xe4) == 0xb4 && Affine(0x0f) == 0xc6
    ensures Affine(0xa9) == 0xe8 && Affine(0x27) == 0xdd && Affine(0x53) == 0x74 && Affine(0x04) == 0x1f
    ensures Affine(0x1b) == 0x4b && Affine(0xfc) == 0xbd && Affine(0xac) == 0x8b && Affine(0xe6) == 0x8a
  {}

  lemma AffineFactD()
    ensures Affine(0x7a) == 0x70 && Affine(0x07) == 0x3e && Affine(0xae) == 0xb5 && Affine(0x63) == 0x66
    ensures Affine(0xc5) == 0x48 && Affine(0xdb) == 0x03 && Affine(0xe2) == 0xf6 && Affine(0xea) == 0x0e
    ensures Affine(0x94) == 0x61 && Affine(0x8b) == 0x35 && Affine(0xc4) == 0x57 && Affine(0xd5) == 0xb9
    ensures Affine(0x9d) == 0x86 && Affine(0xf8) == 0xc1 && Affine(0x90) == 0x1d && Affine(0x6b) == 0x9e
  {}

  lemma AffineFactE()
    ensures Affine(0xb1) == 0xe1 && Affine(0x0d) == 0xf8 && Affine(0xd6) == 0x98 && Affine(0xeb) == 0x11
    ensures Affine(0xc6) == 0x69 && Affine(0x0e) == 0xd9 && Affine(0xcf) == 0x8e && Affine(0xad) == 0x94
    ensures Affine(0x08) == 0x9b && Affine(0x4e) == 0x1e && Affine(0xd7) == 0x87 && Affine(0xe3) == 0xe9
    ensures Affine(0x5d) == 0xce && Affine(0x50) == 0x55 && Affine(0x1e) == 0x28 && Affine(0xb3) == 0xdf
  {}

  lemma AffineFactF()
    ensures Affine(0x5b) == 0x8c && Affine(0x23) == 0xa1 && Affine(0x38) == 0x89 && Affine(0x34) == 0x0d
    ensures Affine(0x68) == 0xbf && Affine(0x46) == 0xe6 && Affine(0x03) == 0x42 && Affine(0x8c) == 0x68
    ensures Affine(0xdd) == 0x41 && Affine(0x9c) == 0x99 && Affine(0x7d) == 0x2d && Affine(0xa0) == 0x0f
    ensures Affine(0xcd) == 0xb0 && Affine(0x1a) == 0x54 && Affine(0x41) == 0xbb && Affine(0x1c) == 0x16
  {}

  lemma TimesIs0() ensures TimesRow(Indices(0), InverseRow(0)) == Ones(0) { hide Times; TimesFact0(); }
  lemma TimesIs1() ensures TimesRow(Indices(1), InverseRow(1)) == Ones(1) { hide Times; TimesFact1(); }
  lemma TimesIs2() ensures TimesRow(Indices(2), InverseRow(2)) == Ones(2) { hide Times; TimesFact2(); }
  lemma TimesIs3() ensures TimesRow(Indices(3), InverseRow(3)) == Ones(3) { hide Times; TimesFact3(); }
  lemma TimesIs4() ensures TimesRow(Indices(4), InverseRow(4)) == Ones(4) { hide Times; TimesFact4(); }
  lemma TimesIs5() ensures TimesRow(Indices(5), InverseRow(5)) == Ones(5) { hide Times; TimesFact5(); }
  lemma TimesIs6() ensures TimesRow(Indices(6), InverseRow(6)) == Ones(6) { hide Times; TimesFact6(); }
  lemma TimesIs7() ensures TimesRow(Indices(7), InverseRow(7)) == Ones(7) { hide Times; TimesFact7(); }
  lemma TimesIs8() ensures TimesRow(Indices(8), InverseRow(8)) == Ones(8) { hide Times; TimesFact8(); }
  lemma TimesIs9() ensures TimesRow(Indices(9), InverseRow(9)) == Ones(9) { hide Times; TimesFact9(); }
  lemma TimesIsA() ensures TimesRow(Indices(10), InverseRow(10)) == Ones(10) { hide Times; TimesFactA(); }
  lemma TimesIsB() ensures TimesRow(Indices(11), InverseRow(11)) == Ones(11) { hide Times; TimesFactB(); }
  lemma TimesIsC() ensures TimesRow(Indices(12), InverseRow(12)) == Ones(12) { hide Times; TimesFactC(); }
  lemma TimesIsD() ensures TimesRow(Indices(13), InverseRow(13)) == Ones(13) { hide Times; TimesFactD(); }
  lemma TimesIsE() ensures TimesRow(Indices(14), InverseRow(14)) == Ones(14) { hide Times; TimesFactE(); }
  lemma TimesIsF() ensures TimesRow(Indices(15), InverseRow(15)) == Ones(15) { hide Times; TimesFactF(); }

  lemma AffineIs0() ensures AffineRow(InverseRow(0)) == SRow(0) { hide Affine; AffineFact0(); }
  lemma AffineIs1() ensures AffineRow(InverseRow(1)) == SRow(1) { hide Affine; AffineFact1(); }
  lemma AffineIs2() ensures AffineRow(InverseRow(2)) == SRow(2) { hide Affine; AffineFact2(); }
  lemma AffineIs3() ensures AffineRow(InverseRow(3)) == SRow(3) { hide Affine; AffineFact3(); }
  lemma AffineIs4() ensures AffineRow(InverseRow(4)) == SRow(4) { hide Affine; AffineFact4(); }
  lemma AffineIs5() ensures AffineRow(InverseRow(5)) == SRow(5) { hide Affine; AffineFact5(); }
  lemma AffineIs6() ensures AffineRow(InverseRow(6)) == SRow(6) { hide Affine; AffineFact6(); }
  lemma AffineIs7() ensures AffineRow(InverseRow(7)) == SRow(7) { hide Affine; AffineFact7(); }
  lemma AffineIs8() ensures AffineRow(InverseRow(8)) == SRow(8) { hide Affine; AffineFact8(); }
  lemma AffineIs9() ensures AffineRow(InverseRow(9)) == SRow(9) { hide Affine; AffineFact9(); }
  lemma AffineIsA() ensures AffineRow(InverseRow(10)) == SRow(10) { hide Affine; AffineFactA(); }
  lemma AffineIsB() ensures AffineRow(InverseRow(11)) == SRow(11) { hide Affine; AffineFactB(); }
  lemma AffineIsC() ensures AffineRow(InverseRow(12)) == SRow(12) { hide Affine; AffineFactC(); }
  lemma AffineIsD() ensures AffineRow(InverseRow(13)) == SRow(13) { hide Affine; AffineFactD(); }
  lemma AffineIsE() ensures AffineRow(InverseRow(14)) == SRow(14) { hide Affine; AffineFactE(); }
  lemma AffineIsF() ensures AffineRow(InverseRow(15)) == SRow(15) { hide Affine; AffineFactF(); }

  lemma TimesRows(hi: bv8)
    requires hi < 16
    ensures TimesRow(Indices(hi), InverseRow(hi)) == Ones(hi)
  {
    hide TimesRow, Indices, InverseRow, Ones;
    if hi == 0 {
      TimesIs0();
    } else if hi == 1 {
      TimesIs1();
    } else if hi == 2 {
      TimesIs2();
    } else if hi == 3 {
      TimesIs3();
    } else if hi == 4 {
      TimesIs4();
    } else if hi == 5 {
      TimesIs5();
    } else if hi == 6 {
      TimesIs6();
    } else if hi == 7 {
      TimesIs7();
    } else if hi == 8 {
      TimesIs8();
    } else if hi == 9 {
      TimesIs9();
    } else if hi == 10 {
      TimesIsA();
    } else if hi == 11 {
      TimesIsB();
    } else if hi == 12 {
      TimesIsC();
    } else if hi == 13 {
      TimesIsD();
    } else if hi == 14 {
      TimesIsE();
    } else {
      TimesIsF();
    }
  }

  lemma AffineRows(hi: bv8)
    requires hi < 16
    ensures AffineRow(InverseRow(hi)) == SRow(hi)
  {
    hide AffineRow, InverseRow, SRow;
    if hi == 0 {
      AffineIs0();
    } else if hi == 1 {
      AffineIs1();
    } else if hi == 2 {
      AffineIs2();
    } else if hi == 3 {
      AffineIs3();
    } else if hi == 4 {
      AffineIs4();
    } else if hi == 5 {
      AffineIs5();
    } else if hi == 6 {
      AffineIs6();
    } else if hi == 7 {
      AffineIs7();
    } else if hi == 8 {
      AffineIs8();
    } else if hi == 9 {
      AffineIs9();
    } else if hi == 10 {
      AffineIsA();
    } else if hi == 11 {
      AffineIsB();
    } else if hi == 12 {
      AffineIsC();
    } else if hi == 13 {
      AffineIsD();
    } else if hi == 14 {
      AffineIsE();
    } else {
      AffineIsF();
    }
  }

  /** The S-box is the affine transformation of the inverse in the field. */
  lemma SboxIsAffineOfInverse(x: bv8)
    ensures S(x) == Affine(Inverse(x))
    ensures if x == 0 then Inverse(x) == 0 else Times(x, Inverse(x)) == 1
  {
    hide Times, Affine, TimesRow, AffineRow, InverseRow, Indices, SRow, Ones, ByteAt;
    var hi := x >> 4;
    assert hi < 16;
    TimesRows(hi);
    AffineRows(hi);
    TimesRowAt(Indices(hi), InverseRow(hi), x & 15);
    AffineRowAt(InverseRow(hi), x & 15);
    IndexAt(x);
    OnesAt(x);
    if x == 0 {
      InverseOfZero();
    }
  }

  lemma InverseOfZero()
    ensures Inverse(0) == 0
  {}
}
