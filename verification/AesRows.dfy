/** What the lookup tables of vmm/aes.c hold, row by row: products of S-box values, as the comment above them
    says, and that Td4 inverts Te4. */
module AesRows {
  import opened AesTables
  import opened AesField

  // ---------- From entries to rows to tables ----------

  function Enc(s: bv8): bv32 { Word(Xtime(s), s, s, Mul3(s)) }

  function Dec(s: bv8): bv32 { Word(MulE(s), Mul9(s), MulD(s), MulB(s)) }

  function RotateByte(w: bv32): bv32 { (w >> 8) ^ (w << 24) }

  function EncRow(r: ByteRow): WordRow {
    WordRow(Enc(r.e0), Enc(r.e1), Enc(r.e2), Enc(r.e3),
            Enc(r.e4), Enc(r.e5), Enc(r.e6), Enc(r.e7),
            Enc(r.e8), Enc(r.e9), Enc(r.eA), Enc(r.eB),
            Enc(r.eC), Enc(r.eD), Enc(r.eE), Enc(r.eF))
  }

  function DecRow(r: ByteRow): WordRow {
    WordRow(Dec(r.e0), Dec(r.e1), Dec(r.e2), Dec(r.e3),
            Dec(r.e4), Dec(r.e5), Dec(r.e6), Dec(r.e7),
            Dec(r.e8), Dec(r.e9), Dec(r.eA), Dec(r.eB),
            Dec(r.eC), Dec(r.eD), Dec(r.eE), Dec(r.eF))
  }

  function RotateRow(r: WordRow): WordRow {
    WordRow(RotateByte(r.e0), RotateByte(r.e1), RotateByte(r.e2), RotateByte(r.e3),
            RotateByte(r.e4), RotateByte(r.e5), RotateByte(r.e6), RotateByte(r.e7),
            RotateByte(r.e8), RotateByte(r.e9), RotateByte(r.eA), RotateByte(r.eB),
            RotateByte(r.eC), RotateByte(r.eD), RotateByte(r.eE), RotateByte(r.eF))
  }

  lemma EncRowAt(r: ByteRow, n: bv8)
    ensures WordAt(EncRow(r), n) == Enc(ByteAt(r, n))
  {
    hide Enc;
  }

  lemma DecRowAt(r: ByteRow, n: bv8)
    ensures WordAt(DecRow(r), n) == Dec(ByteAt(r, n))
  {
    hide Dec;
  }

  lemma RotateRowAt(r: WordRow, n: bv8)
    ensures WordAt(RotateRow(r), n) == RotateByte(WordAt(r, n))
  {
    hide RotateByte;
  }

  // ---------- The first table of each cipher ----------

  lemma Te0Fact0()
    ensures Enc(0x63) == 0xc66363a5 && Enc(0x7c) == 0xf87c7c84 && Enc(0x77) == 0xee777799 && Enc(0x7b) == 0xf67b7b8d
    ensures Enc(0xf2) == 0xfff2f20d && Enc(0x6b) == 0xd66b6bbd && Enc(0x6f) == 0xde6f6fb1 && Enc(0xc5) == 0x91c5c554
    ensures Enc(0x30) == 0x60303050 && Enc(0x01) == 0x02010103 && Enc(0x67) == 0xce6767a9 && Enc(0x2b) == 0x562b2b7d
    ensures Enc(0xfe) == 0xe7fefe19 && Enc(0xd7) == 0xb5d7d762 && Enc(0xab) == 0x4dababe6 && Enc(0x76) == 0xec76769a
  {}

  lemma Te0Fact1()
    ensures Enc(0xca) == 0x8fcaca45 && Enc(0x82) == 0x1f82829d && Enc(0xc9) == 0x89c9c940 && Enc(0x7d) == 0xfa7d7d87
    ensures Enc(0xfa) == 0xeffafa15 && Enc(0x59) == 0xb25959eb && Enc(0x47) == 0x8e4747c9 && Enc(0xf0) == 0xfbf0f00b
    ensures Enc(0xad) == 0x41adadec && Enc(0xd4) == 0xb3d4d467 && Enc(0xa2) == 0x5fa2a2fd && Enc(0xaf) == 0x45afafea
    ensures Enc(0x9c) == 0x239c9cbf && Enc(0xa4) == 0x53a4a4f7 && Enc(0x72) == 0xe4727296 && Enc(0xc0) == 0x9bc0c05b
  {}

  lemma Te0Fact2()
    ensures Enc(0xb7) == 0x75b7b7c2 && Enc(0xfd) == 0xe1fdfd1c && Enc(0x93) == 0x3d9393ae && Enc(0x26) == 0x4c26266a
    ensures Enc(0x36) == 0x6c36365a && Enc(0x3f) == 0x7e3f3f41 && Enc(0xf7) == 0xf5f7f702 && Enc(0xcc) == 0x83cccc4f
    ensures Enc(0x34) == 0x6834345c && Enc(0xa5) == 0x51a5a5f4 && Enc(0xe5) == 0xd1e5e534 && Enc(0xf1) == 0xf9f1f108
    ensures Enc(0x71) == 0xe2717193 && Enc(0xd8) == 0xabd8d873 && Enc(0x31) == 0x62313153 && Enc(0x15) == 0x2a15153f
  {}

  lemma Te0Fact3()
    ensures Enc(0x04) == 0x0804040c && Enc(0xc7) == 0x95c7c752 && Enc(0x23) == 0x46232365 && Enc(0xc3) == 0x9dc3c35e
    ensures Enc(0x18) == 0x30181828 && Enc(0x96) == 0x379696a1 && Enc(0x05) == 0x0a05050f && Enc(0x9a) == 0x2f9a9ab5
    ensures Enc(0x07) == 0x0e070709 && Enc(0x12) == 0x24121236 && Enc(0x80) == 0x1b80809b && Enc(0xe2) == 0xdfe2e23d
    ensures Enc(0xeb) == 0xcdebeb26 && Enc(0x27) == 0x4e272769 && Enc(0xb2) == 0x7fb2b2cd && Enc(0x75) == 0xea75759f
  {}

  lemma Te0Fact4()
    ensures Enc(0x09) == 0x1209091b && Enc(0x83) == 0x1d83839e && Enc(0x2c) == 0x582c2c74 && Enc(0x1a) == 0x341a1a2e
    ensures Enc(0x1b) == 0x361b1b2d && Enc(0x6e) == 0xdc6e6eb2 && Enc(0x5a) == 0xb45a5aee && Enc(0xa0) == 0x5ba0a0fb
    ensures Enc(0x52) == 0xa45252f6 && Enc(0x3b) == 0x763b3b4d && Enc(0xd6) == 0xb7d6d661 && Enc(0xb3) == 0x7db3b3ce
    ensures Enc(0x29) == 0x5229297b && Enc(0xe3) == 0xdde3e33e && Enc(0x2f) == 0x5e2f2f71 && Enc(0x84) == 0x13848497
  {}

  lemma Te0Fact5()
    ensures Enc(0x53) == 0xa65353f5 && Enc(0xd1) == 0xb9d1d168 && Enc(0x00) == 0x00000000 && Enc(0xed) == 0xc1eded2c
    ensures Enc(0x20) == 0x40202060 && Enc(0xfc) == 0xe3fcfc1f && Enc(0xb1) == 0x79b1b1c8 && Enc(0x5b) == 0xb65b5bed
    ensures Enc(0x6a) == 0xd46a6abe && Enc(0xcb) == 0x8dcbcb46 && Enc(0xbe) == 0x67bebed9 && Enc(0x39) == 0x7239394b
    ensures Enc(0x4a) == 0x944a4ade && Enc(0x4c) == 0x984c4cd4 && Enc(0x58) == 0xb05858e8 && Enc(0xcf) == 0x85cfcf4a
  {}

  lemma Te0Fact6()
    ensures Enc(0xd0) == 0xbbd0d06b && Enc(0xef) == 0xc5efef2a && Enc(0xaa) == 0x4faaaae5 && Enc(0xfb) == 0xedfbfb16
    ensures Enc(0x43) == 0x864343c5 && Enc(0x4d) == 0x9a4d4dd7 && Enc(0x33) == 0x66333355 && Enc(0x85) == 0x11858594
    ensures Enc(0x45) == 0x8a4545cf && Enc(0xf9) == 0xe9f9f910 && Enc(0x02) == 0x04020206 && Enc(0x7f) == 0xfe7f7f81
    ensures Enc(0x50) == 0xa05050f0 && Enc(0x3c) == 0x783c3c44 && Enc(0x9f) == 0x259f9fba && Enc(0xa8) == 0x4ba8a8e3
  {}

  lemma Te0Fact7()
    ensures Enc(0x51) == 0xa25151f3 && Enc(0xa3) == 0x5da3a3fe && Enc(0x40) == 0x804040c0 && Enc(0x8f) == 0x058f8f8a
    ensures Enc(0x92) == 0x3f9292ad && Enc(0x9d) == 0x219d9dbc && Enc(0x38) == 0x70383848 && Enc(0xf5) == 0xf1f5f504
    ensures Enc(0xbc) == 0x63bcbcdf && Enc(0xb6) == 0x77b6b6c1 && Enc(0xda) == 0xafdada75 && Enc(0x21) == 0x42212163
    ensures Enc(0x10) == 0x20101030 && Enc(0xff) == 0xe5ffff1a && Enc(0xf3) == 0xfdf3f30e && Enc(0xd2) == 0xbfd2d26d
  {}

  lemma Te0Fact8()
    ensures Enc(0xcd) == 0x81cdcd4c && Enc(0x0c) == 0x180c0c14 && Enc(0x13) == 0x26131335 && Enc(0xec) == 0xc3ecec2f
    ensures Enc(0x5f) == 0xbe5f5fe1 && Enc(0x97) == 0x359797a2 && Enc(0x44) == 0x884444cc && Enc(0x17) == 0x2e171739
    ensures Enc(0xc4) == 0x93c4c457 && Enc(0xa7) == 0x55a7a7f2 && Enc(0x7e) == 0xfc7e7e82 && Enc(0x3d) == 0x7a3d3d47
    ensures Enc(0x64) == 0xc86464ac && Enc(0x5d) == 0xba5d5de7 && Enc(0x19) == 0x3219192b && Enc(0x73) == 0xe6737395
  {}

  lemma Te0Fact9()
    ensures Enc(0x60) == 0xc06060a0 && Enc(0x81) == 0x19818198 && Enc(0x4f) == 0x9e4f4fd1 && Enc(0xdc) == 0xa3dcdc7f
    ensures Enc(0x22) == 0x44222266 && Enc(0x2a) == 0x542a2a7e && Enc(0x90) == 0x3b9090ab && Enc(0x88) == 0x0b888883
    ensures Enc(0x46) == 0x8c4646ca && Enc(0xee) == 0xc7eeee29 && Enc(0xb8) == 0x6bb8b8d3 && Enc(0x14) == 0x2814143c
    ensures Enc(0xde) == 0xa7dede79 && Enc(0x5e) == 0xbc5e5ee2 && Enc(0x0b) == 0x160b0b1d && Enc(0xdb) == 0xaddbdb76
  {}

  lemma Te0FactA()
    ensures Enc(0xe0) == 0xdbe0e03b && Enc(0x32) == 0x64323256 && Enc(0x3a) == 0x743a3a4e && Enc(0x0a) == 0x140a0a1e
    ensures Enc(0x49) == 0x924949db && Enc(0x06) == 0x0c06060a && Enc(0x24) == 0x4824246c && Enc(0x5c) == 0xb85c5ce4
    ensures Enc(0xc2) == 0x9fc2c25d && Enc(0xd3) == 0xbdd3d36e && Enc(0xac) == 0x43acacef && Enc(0x62) == 0xc46262a6
    ensures Enc(0x91) == 0x399191a8 && Enc(0x95) == 0x319595a4 && Enc(0xe4) == 0xd3e4e437 && Enc(0x79) == 0xf279798b
  {}

  lemma Te0FactB()
    ensures Enc(0xe7) == 0xd5e7e732 && Enc(0xc8) == 0x8bc8c843 && Enc(0x37) == 0x6e373759 && Enc(0x6d) == 0xda6d6db7
    ensures Enc(0x8d) == 0x018d8d8c && Enc(0xd5) == 0xb1d5d564 && Enc(0x4e) == 0x9c4e4ed2 && Enc(0xa9) == 0x49a9a9e0
    ensures Enc(0x6c) == 0xd86c6cb4 && Enc(0x56) == 0xac5656fa && Enc(0xf4) == 0xf3f4f407 && Enc(0xea) == 0xcfeaea25
    ensures Enc(0x65) == 0xca6565af && Enc(0x7a) == 0xf47a7a8e && Enc(0xae) == 0x47aeaee9 && Enc(0x08) == 0x10080818
  {}

  lemma Te0FactC()
    ensures Enc(0xba) == 0x6fbabad5 && Enc(0x78) == 0xf0787888 && Enc(0x25) == 0x4a25256f && Enc(0x2e) == 0x5c2e2e72
    ensures Enc(0x1c) == 0x381c1c24 && Enc(0xa6) == 0x57a6a6f1 && Enc(0xb4) == 0x73b4b4c7 && Enc(0xc6) == 0x97c6c651
    ensures Enc(0xe8) == 0xcbe8e823 && Enc(0xdd) == 0xa1dddd7c && Enc(0x74) == 0xe874749c && Enc(0x1f) == 0x3e1f1f21
    ensures Enc(0x4b) == 0x964b4bdd && Enc(0xbd) == 0x61bdbddc && Enc(0x8b) == 0x0d8b8b86 && Enc(0x8a) == 0x0f8a8a85
  {}

  lemma Te0FactD()
    ensures Enc(0x70) == 0xe0707090 && Enc(0x3e) == 0x7c3e3e42 && Enc(0xb5) == 0x71b5b5c4 && Enc(0x66) == 0xcc6666aa
    ensures Enc(0x48) == 0x904848d8 && Enc(0x03) == 0x06030305 && Enc(0xf6) == 0xf7f6f601 && Enc(0x0e) == 0x1c0e0e12
    ensures Enc(0x61) == 0xc26161a3 && Enc(0x35) == 0x6a35355f && Enc(0x57) == 0xae5757f9 && Enc(0xb9) == 0x69b9b9d0
    ensures Enc(0x86) == 0x17868691 && Enc(0xc1) == 0x99c1c158 && Enc(0x1d) == 0x3a1d1d27 && Enc(0x9e) == 0x279e9eb9
  {}

  lemma Te0FactE()
    ensures Enc(0xe1) == 0xd9e1e138 && Enc(0xf8) == 0xebf8f813 && Enc(0x98) == 0x2b9898b3 && Enc(0x11) == 0x22111133
    ensures Enc(0x69) == 0xd26969bb && Enc(0xd9) == 0xa9d9d970 && Enc(0x8e) == 0x078e8e89 && Enc(0x94) == 0x339494a7
    ensures Enc(0x9b) == 0x2d9b9bb6 && Enc(0x1e) == 0x3c1e1e22 && Enc(0x87) == 0x15878792 && Enc(0xe9) == 0xc9e9e920
    ensures Enc(0xce) == 0x87cece49 && Enc(0x55) == 0xaa5555ff && Enc(0x28) == 0x50282878 && Enc(0xdf) == 0xa5dfdf7a
  {}

  lemma Te0FactF()
    ensures Enc(0x8c) == 0x038c8c8f && Enc(0xa1) == 0x59a1a1f8 && Enc(0x89) == 0x09898980 && Enc(0x0d) == 0x1a0d0d17
    ensures Enc(0xbf) == 0x65bfbfda && Enc(0xe6) == 0xd7e6e631 && Enc(0x42) == 0x844242c6 && Enc(0x68) == 0xd06868b8
    ensures Enc(0x41) == 0x824141c3 && Enc(0x99) == 0x299999b0 && Enc(0x2d) == 0x5a2d2d77 && Enc(0x0f) == 0x1e0f0f11
    ensures Enc(0xb0) == 0x7bb0b0cb && Enc(0x54) == 0xa85454fc && Enc(0xbb) == 0x6dbbbbd6 && Enc(0x16) == 0x2c16163a
  {}

  lemma Te0Is0() ensures Te0Row(0) == EncRow(SRow(0)) { hide Enc; Te0Fact0(); }
  lemma Te0Is1() ensures Te0Row(1) == EncRow(SRow(1)) { hide Enc; Te0Fact1(); }
  lemma Te0Is2() ensures Te0Row(2) == EncRow(SRow(2)) { hide Enc; Te0Fact2(); }
  lemma Te0Is3() ensures Te0Row(3) == EncRow(SRow(3)) { hide Enc; Te0Fact3(); }
  lemma Te0Is4() ensures Te0Row(4) == EncRow(SRow(4)) { hide Enc; Te0Fact4(); }
  lemma Te0Is5() ensures Te0Row(5) == EncRow(SRow(5)) { hide Enc; Te0Fact5(); }
  lemma Te0Is6() ensures Te0Row(6) == EncRow(SRow(6)) { hide Enc; Te0Fact6(); }
  lemma Te0Is7() ensures Te0Row(7) == EncRow(SRow(7)) { hide Enc; Te0Fact7(); }
  lemma Te0Is8() ensures Te0Row(8) == EncRow(SRow(8)) { hide Enc; Te0Fact8(); }
  lemma Te0Is9() ensures Te0Row(9) == EncRow(SRow(9)) { hide Enc; Te0Fact9(); }
  lemma Te0IsA() ensures Te0Row(10) == EncRow(SRow(10)) { hide Enc; Te0FactA(); }
  lemma Te0IsB() ensures Te0Row(11) == EncRow(SRow(11)) { hide Enc; Te0FactB(); }
  lemma Te0IsC() ensures Te0Row(12) == EncRow(SRow(12)) { hide Enc; Te0FactC(); }
  lemma Te0IsD() ensures Te0Row(13) == EncRow(SRow(13)) { hide Enc; Te0FactD(); }
  lemma Te0IsE() ensures Te0Row(14) == EncRow(SRow(14)) { hide Enc; Te0FactE(); }
  lemma Te0IsF() ensures Te0Row(15) == EncRow(SRow(15)) { hide Enc; Te0FactF(); }

  lemma Te0Rows(h: bv8)
    requires h < 16
    ensures Te0Row(h) == EncRow(SRow(h))
  {
    hide Te0Row, EncRow, SRow;
    if h == 0 {
      Te0Is0();
    } else if h == 1 {
      Te0Is1();
    } else if h == 2 {
      Te0Is2();
    } else if h == 3 {
      Te0Is3();
    } else if h == 4 {
      Te0Is4();
    } else if h == 5 {
      Te0Is5();
    } else if h == 6 {
      Te0Is6();
    } else if h == 7 {
      Te0Is7();
    } else if h == 8 {
      Te0Is8();
    } else if h == 9 {
      Te0Is9();
    } else if h == 10 {
      Te0IsA();
    } else if h == 11 {
      Te0IsB();
    } else if h == 12 {
      Te0IsC();
    } else if h == 13 {
      Te0IsD();
    } else if h == 14 {
      Te0IsE();
    } else {
      Te0IsF();
    }
  }

  lemma Td0Fact0()
    ensures Dec(0x52) == 0x51f4a750 && Dec(0x09) == 0x7e416553 && Dec(0x6a) == 0x1a17a4c3 && Dec(0xd5) == 0x3a275e96
    ensures Dec(0x30) == 0x3bab6bcb && Dec(0x36) == 0x1f9d45f1 && Dec(0xa5) == 0xacfa58ab && Dec(0x38) == 0x4be30393
    ensures Dec(0xbf) == 0x2030fa55 && Dec(0x40) == 0xad766df6 && Dec(0xa3) == 0x88cc7691 && Dec(0x9e) == 0xf5024c25
    ensures Dec(0x81) == 0x4fe5d7fc && Dec(0xf3) == 0xc52acbd7 && Dec(0xd7) == 0x26354480 && Dec(0xfb) == 0xb562a38f
  {}

  lemma Td0Fact1()
    ensures Dec(0x7c) == 0xdeb15a49 && Dec(0xe3) == 0x25ba1b67 && Dec(0x39) == 0x45ea0e98 && Dec(0x82) == 0x5dfec0e1
    ensures Dec(0x9b) == 0xc32f7502 && Dec(0x2f) == 0x814cf012 && Dec(0xff) == 0x8d4697a3 && Dec(0x87) == 0x6bd3f9c6
    ensures Dec(0x34) == 0x038f5fe7 && Dec(0x8e) == 0x15929c95 && Dec(0x43) == 0xbf6d7aeb && Dec(0x44) == 0x955259da
    ensures Dec(0xc4) == 0xd4be832d && Dec(0xde) == 0x587421d3 && Dec(0xe9) == 0x49e06929 && Dec(0xcb) == 0x8ec9c844
  {}

  lemma Td0Fact2()
    ensures Dec(0x54) == 0x75c2896a && Dec(0x7b) == 0xf48e7978 && Dec(0x94) == 0x99583e6b && Dec(0x32) == 0x27b971dd
    ensures Dec(0xa6) == 0xbee14fb6 && Dec(0xc2) == 0xf088ad17 && Dec(0x23) == 0xc920ac66 && Dec(0x3d) == 0x7dce3ab4
    ensures Dec(0xee) == 0x63df4a18 && Dec(0x4c) == 0xe51a3182 && Dec(0x95) == 0x97513360 && Dec(0x0b) == 0x62537f45
    ensures Dec(0x42) == 0xb16477e0 && Dec(0xfa) == 0xbb6bae84 && Dec(0xc3) == 0xfe81a01c && Dec(0x4e) == 0xf9082b94
  {}

  lemma Td0Fact3()
    ensures Dec(0x08) == 0x70486858 && Dec(0x2e) == 0x8f45fd19 && Dec(0xa1) == 0x94de6c87 && Dec(0x66) == 0x527bf8b7
    ensures Dec(0x28) == 0xab73d323 && Dec(0xd9) == 0x724b02e2 && Dec(0x24) == 0xe31f8f57 && Dec(0xb2) == 0x6655ab2a
    ensures Dec(0x76) == 0xb2eb2807 && Dec(0x5b) == 0x2fb5c203 && Dec(0xa2) == 0x86c57b9a && Dec(0x49) == 0xd33708a5
    ensures Dec(0x6d) == 0x302887f2 && Dec(0x8b) == 0x23bfa5b2 && Dec(0xd1) == 0x02036aba && Dec(0x25) == 0xed16825c
  {}

  lemma Td0Fact4()
    ensures Dec(0x72) == 0x8acf1c2b && Dec(0xf8) == 0xa779b492 && Dec(0xf6) == 0xf307f2f0 && Dec(0x64) == 0x4e69e2a1
    ensures Dec(0x86) == 0x65daf4cd && Dec(0x68) == 0x0605bed5 && Dec(0x98) == 0xd134621f && Dec(0x16) == 0xc4a6fe8a
    ensures Dec(0xd4) == 0x342e539d && Dec(0xa4) == 0xa2f355a0 && Dec(0x5c) == 0x058ae132 && Dec(0xcc) == 0xa4f6eb75
    ensures Dec(0x5d) == 0x0b83ec39 && Dec(0x65) == 0x4060efaa && Dec(0xb6) == 0x5e719f06 && Dec(0x92) == 0xbd6e1051
  {}

  lemma Td0Fact5()
    ensures Dec(0x6c) == 0x3e218af9 && Dec(0x70) == 0x96dd063d && Dec(0x48) == 0xdd3e05ae && Dec(0x50) == 0x4de6bd46
    ensures Dec(0xfd) == 0x91548db5 && Dec(0xed) == 0x71c45d05 && Dec(0xb9) == 0x0406d46f && Dec(0xda) == 0x605015ff
    ensures Dec(0x5e) == 0x1998fb24 && Dec(0x15) == 0xd6bde997 && Dec(0x46) == 0x894043cc && Dec(0x57) == 0x67d99e77
    ensures Dec(0xa7) == 0xb0e842bd && Dec(0x8d) == 0x07898b88 && Dec(0x9d) == 0xe7195b38 && Dec(0x84) == 0x79c8eedb
  {}

  lemma Td0Fact6()
    ensures Dec(0x90) == 0xa17c0a47 && Dec(0xd8) == 0x7c420fe9 && Dec(0xab) == 0xf8841ec9 && Dec(0x00) == 0x00000000
    ensures Dec(0x8c) == 0x09808683 && Dec(0xbc) == 0x322bed48 && Dec(0xd3) == 0x1e1170ac && Dec(0x0a) == 0x6c5a724e
    ensures Dec(0xf7) == 0xfd0efffb && Dec(0xe4) == 0x0f853856 && Dec(0x58) == 0x3daed51e && Dec(0x05) == 0x362d3927
    ensures Dec(0xb8) == 0x0a0fd964 && Dec(0xb3) == 0x685ca621 && Dec(0x45) == 0x9b5b54d1 && Dec(0x06) == 0x24362e3a
  {}

  lemma Td0Fact7()
    ensures Dec(0xd0) == 0x0c0a67b1 && Dec(0x2c) == 0x9357e70f && Dec(0x1e) == 0xb4ee96d2 && Dec(0x8f) == 0x1b9b919e
    ensures Dec(0xca) == 0x80c0c54f && Dec(0x3f) == 0x61dc20a2 && Dec(0x0f) == 0x5a774b69 && Dec(0x02) == 0x1c121a16
    ensures Dec(0xc1) == 0xe293ba0a && Dec(0xaf) == 0xc0a02ae5 && Dec(0xbd) == 0x3c22e043 && Dec(0x03) == 0x121b171d
    ensures Dec(0x01) == 0x0e090d0b && Dec(0x13) == 0xf28bc7ad && Dec(0x8a) == 0x2db6a8b9 && Dec(0x6b) == 0x141ea9c8
  {}

  lemma Td0Fact8()
    ensures Dec(0x3a) == 0x57f11985 && Dec(0x91) == 0xaf75074c && Dec(0x11) == 0xee99ddbb && Dec(0x41) == 0xa37f60fd
    ensures Dec(0x4f) == 0xf701269f && Dec(0x67) == 0x5c72f5bc && Dec(0xdc) == 0x44663bc5 && Dec(0xea) == 0x5bfb7e34
    ensures Dec(0x97) == 0x8b432976 && Dec(0xf2) == 0xcb23c6dc && Dec(0xcf) == 0xb6edfc68 && Dec(0xce) == 0xb8e4f163
    ensures Dec(0xf0) == 0xd731dcca && Dec(0xb4) == 0x42638510 && Dec(0xe6) == 0x13972240 && Dec(0x73) == 0x84c61120
  {}

  lemma Td0Fact9()
    ensures Dec(0x96) == 0x854a247d && Dec(0xac) == 0xd2bb3df8 && Dec(0x74) == 0xaef93211 && Dec(0x22) == 0xc729a16d
    ensures Dec(0xe7) == 0x1d9e2f4b && Dec(0xad) == 0xdcb230f3 && Dec(0x35) == 0x0d8652ec && Dec(0x85) == 0x77c1e3d0
    ensures Dec(0xe2) == 0x2bb3166c && Dec(0xf9) == 0xa970b999 && Dec(0x37) == 0x119448fa && Dec(0xe8) == 0x47e96422
    ensures Dec(0x1c) == 0xa8fc8cc4 && Dec(0x75) == 0xa0f03f1a && Dec(0xdf) == 0x567d2cd8 && Dec(0x6e) == 0x223390ef
  {}

  lemma Td0FactA()
    ensures Dec(0x47) == 0x87494ec7 && Dec(0xf1) == 0xd938d1c1 && Dec(0x1a) == 0x8ccaa2fe && Dec(0x71) == 0x98d40b36
    ensures Dec(0x1d) == 0xa6f581cf && Dec(0x29) == 0xa57ade28 && Dec(0xc5) == 0xdab78e26 && Dec(0x89) == 0x3fadbfa4
    ensures Dec(0x6f) == 0x2c3a9de4 && Dec(0xb7) == 0x5078920d && Dec(0x62) == 0x6a5fcc9b && Dec(0x0e) == 0x547e4662
    ensures Dec(0xaa) == 0xf68d13c2 && Dec(0x18) == 0x90d8b8e8 && Dec(0xbe) == 0x2e39f75e && Dec(0x1b) == 0x82c3aff5
  {}

  lemma Td0FactB()
    ensures Dec(0xfc) == 0x9f5d80be && Dec(0x56) == 0x69d0937c && Dec(0x3e) == 0x6fd52da9 && Dec(0x4b) == 0xcf2512b3
    ensures Dec(0xc6) == 0xc8ac993b && Dec(0xd2) == 0x10187da7 && Dec(0x79) == 0xe89c636e && Dec(0x20) == 0xdb3bbb7b
    ensures Dec(0x9a) == 0xcd267809 && Dec(0xdb) == 0x6e5918f4 && Dec(0xc0) == 0xec9ab701 && Dec(0xfe) == 0x834f9aa8
    ensures Dec(0x78) == 0xe6956e65 && Dec(0xcd) == 0xaaffe67e && Dec(0x5a) == 0x21bccf08 && Dec(0xf4) == 0xef15e8e6
  {}

  lemma Td0FactC()
    ensures Dec(0x1f) == 0xbae79bd9 && Dec(0xdd) == 0x4a6f36ce && Dec(0xa8) == 0xea9f09d4 && Dec(0x33) == 0x29b07cd6
    ensures Dec(0x88) == 0x31a4b2af && Dec(0x07) == 0x2a3f2331 && Dec(0xc7) == 0xc6a59430 && Dec(0x31) == 0x35a266c0
    ensures Dec(0xb1) == 0x744ebc37 && Dec(0x12) == 0xfc82caa6 && Dec(0x10) == 0xe090d0b0 && Dec(0x59) == 0x33a7d815
    ensures Dec(0x27) == 0xf104984a && Dec(0x80) == 0x41ecdaf7 && Dec(0xec) == 0x7fcd500e && Dec(0x5f) == 0x1791f62f
  {}

  lemma Td0FactD()
    ensures Dec(0x60) == 0x764dd68d && Dec(0x51) == 0x43efb04d && Dec(0x7f) == 0xccaa4d54 && Dec(0xa9) == 0xe49604df
    ensures Dec(0x19) == 0x9ed1b5e3 && Dec(0xb5) == 0x4c6a881b && Dec(0x4a) == 0xc12c1fb8 && Dec(0x0d) == 0x4665517f
    ensures Dec(0x2d) == 0x9d5eea04 && Dec(0xe5) == 0x018c355d && Dec(0x7a) == 0xfa877473 && Dec(0x9f) == 0xfb0b412e
    ensures Dec(0x93) == 0xb3671d5a && Dec(0xc9) == 0x92dbd252 && Dec(0x9c) == 0xe9105633 && Dec(0xef) == 0x6dd64713
  {}

  lemma Td0FactE()
    ensures Dec(0xa0) == 0x9ad7618c && Dec(0xe0) == 0x37a10c7a && Dec(0x3b) == 0x59f8148e && Dec(0x4d) == 0xeb133c89
    ensures Dec(0xae) == 0xcea927ee && Dec(0x2a) == 0xb761c935 && Dec(0xf5) == 0xe11ce5ed && Dec(0xb0) == 0x7a47b13c
    ensures Dec(0xc8) == 0x9cd2df59 && Dec(0xeb) == 0x55f2733f && Dec(0xbb) == 0x1814ce79 && Dec(0x3c) == 0x73c737bf
    ensures Dec(0x83) == 0x53f7cdea && Dec(0x53) == 0x5ffdaa5b && Dec(0x99) == 0xdf3d6f14 && Dec(0x61) == 0x7844db86
  {}

  lemma Td0FactF()
    ensures Dec(0x17) == 0xcaaff381 && Dec(0x2b) == 0xb968c43e && Dec(0x04) == 0x3824342c && Dec(0x7e) == 0xc2a3405f
    ensures Dec(0xba) == 0x161dc372 && Dec(0x77) == 0xbce2250c && Dec(0xd6) == 0x283c498b && Dec(0x26) == 0xff0d9541
    ensures Dec(0xe1) == 0x39a80171 && Dec(0x69) == 0x080cb3de && Dec(0x14) == 0xd8b4e49c && Dec(0x63) == 0x6456c190
    ensures Dec(0x55) == 0x7bcb8461 && Dec(0x21) == 0xd532b670 && Dec(0x0c) == 0x486c5c74 && Dec(0x7d) == 0xd0b85742
  {}

  lemma Td0Is0() ensures Td0Row(0) == DecRow(SiRow(0)) { hide Dec; Td0Fact0(); }
  lemma Td0Is1() ensures Td0Row(1) == DecRow(SiRow(1)) { hide Dec; Td0Fact1(); }
  lemma Td0Is2() ensures Td0Row(2) == DecRow(SiRow(2)) { hide Dec; Td0Fact2(); }
  lemma Td0Is3() ensures Td0Row(3) == DecRow(SiRow(3)) { hide Dec; Td0Fact3(); }
  lemma Td0Is4() ensures Td0Row(4) == DecRow(SiRow(4)) { hide Dec; Td0Fact4(); }
  lemma Td0Is5() ensures Td0Row(5) == DecRow(SiRow(5)) { hide Dec; Td0Fact5(); }
  lemma Td0Is6() ensures Td0Row(6) == DecRow(SiRow(6)) { hide Dec; Td0Fact6(); }
  lemma Td0Is7() ensures Td0Row(7) == DecRow(SiRow(7)) { hide Dec; Td0Fact7(); }
  lemma Td0Is8() ensures Td0Row(8) == DecRow(SiRow(8)) { hide Dec; Td0Fact8(); }
  lemma Td0Is9() ensures Td0Row(9) == DecRow(SiRow(9)) { hide Dec; Td0Fact9(); }
  lemma Td0IsA() ensures Td0Row(10) == DecRow(SiRow(10)) { hide Dec; Td0FactA(); }
  lemma Td0IsB() ensures Td0Row(11) == DecRow(SiRow(11)) { hide Dec; Td0FactB(); }
  lemma Td0IsC() ensures Td0Row(12) == DecRow(SiRow(12)) { hide Dec; Td0FactC(); }
  lemma Td0IsD() ensures Td0Row(13) == DecRow(SiRow(13)) { hide Dec; Td0FactD(); }
  lemma Td0IsE() ensures Td0Row(14) == DecRow(SiRow(14)) { hide Dec; Td0FactE(); }
  lemma Td0IsF() ensures Td0Row(15) == DecRow(SiRow(15)) { hide Dec; Td0FactF(); }

  lemma Td0Rows(h: bv8)
    requires h < 16
    ensures Td0Row(h) == DecRow(SiRow(h))
  {
    hide Td0Row, DecRow, SiRow;
    if h == 0 {
      Td0Is0();
    } else if h == 1 {
      Td0Is1();
    } else if h == 2 {
      Td0Is2();
    } else if h == 3 {
      Td0Is3();
    } else if h == 4 {
      Td0Is4();
    } else if h == 5 {
      Td0Is5();
    } else if h == 6 {
      Td0Is6();
    } else if h == 7 {
      Td0Is7();
    } else if h == 8 {
      Td0Is8();
    } else if h == 9 {
      Td0Is9();
    } else if h == 10 {
      Td0IsA();
    } else if h == 11 {
      Td0IsB();
    } else if h == 12 {
      Td0IsC();
    } else if h == 13 {
      Td0IsD();
    } else if h == 14 {
      Td0IsE();
    } else {
      Td0IsF();
    }
  }

  // ---------- The other tables are rotations ----------

  lemma Te1Is0()
    ensures Te1Row(0) == RotateRow(Te0Row(0))
    ensures Te1Row(1) == RotateRow(Te0Row(1))
    ensures Te1Row(2) == RotateRow(Te0Row(2))
    ensures Te1Row(3) == RotateRow(Te0Row(3))
  {}

  lemma Te1Is1()
    ensures Te1Row(4) == RotateRow(Te0Row(4))
    ensures Te1Row(5) == RotateRow(Te0Row(5))
    ensures Te1Row(6) == RotateRow(Te0Row(6))
    ensures Te1Row(7) == RotateRow(Te0Row(7))
  {}

  lemma Te1Is2()
    ensures Te1Row(8) == RotateRow(Te0Row(8))
    ensures Te1Row(9) == RotateRow(Te0Row(9))
    ensures Te1Row(10) == RotateRow(Te0Row(10))
    ensures Te1Row(11) == RotateRow(Te0Row(11))
  {}

  lemma Te1Is3()
    ensures Te1Row(12) == RotateRow(Te0Row(12))
    ensures Te1Row(13) == RotateRow(Te0Row(13))
    ensures Te1Row(14) == RotateRow(Te0Row(14))
    ensures Te1Row(15) == RotateRow(Te0Row(15))
  {}

  lemma Te1Rotates(x: bv8)
    ensures Te1(x) == RotateByte(Te0(x))
  {
    hide Te1Row, Te0Row, RotateRow, RotateByte, WordAt;
    var h := x >> 4;
    assert h < 16;
    if h < 4 { Te1Is0(); } else if h < 8 { Te1Is1(); } else if h < 12 { Te1Is2(); } else { Te1Is3(); }
    RotateRowAt(Te0Row(h), x & 15);
  }

  lemma Te2Is0()
    ensures Te2Row(0) == RotateRow(Te1Row(0))
    ensures Te2Row(1) == RotateRow(Te1Row(1))
    ensures Te2Row(2) == RotateRow(Te1Row(2))
    ensures Te2Row(3) == RotateRow(Te1Row(3))
  {}

  lemma Te2Is1()
    ensures Te2Row(4) == RotateRow(Te1Row(4))
    ensures Te2Row(5) == RotateRow(Te1Row(5))
    ensures Te2Row(6) == RotateRow(Te1Row(6))
    ensures Te2Row(7) == RotateRow(Te1Row(7))
  {}

  lemma Te2Is2()
    ensures Te2Row(8) == RotateRow(Te1Row(8))
    ensures Te2Row(9) == RotateRow(Te1Row(9))
    ensures Te2Row(10) == RotateRow(Te1Row(10))
    ensures Te2Row(11) == RotateRow(Te1Row(11))
  {}

  lemma Te2Is3()
    ensures Te2Row(12) == RotateRow(Te1Row(12))
    ensures Te2Row(13) == RotateRow(Te1Row(13))
    ensures Te2Row(14) == RotateRow(Te1Row(14))
    ensures Te2Row(15) == RotateRow(Te1Row(15))
  {}

  lemma Te2Rotates(x: bv8)
    ensures Te2(x) == RotateByte(Te1(x))
  {
    hide Te2Row, Te1Row, RotateRow, RotateByte, WordAt;
    var h := x >> 4;
    assert h < 16;
    if h < 4 { Te2Is0(); } else if h < 8 { Te2Is1(); } else if h < 12 { Te2Is2(); } else { Te2Is3(); }
    RotateRowAt(Te1Row(h), x & 15);
  }

  lemma Te3Is0()
    ensures Te3Row(0) == RotateRow(Te2Row(0))
    ensures Te3Row(1) == RotateRow(Te2Row(1))
    ensures Te3Row(2) == RotateRow(Te2Row(2))
    ensures Te3Row(3) == RotateRow(Te2Row(3))
  {}

  lemma Te3Is1()
    ensures Te3Row(4) == RotateRow(Te2Row(4))
    ensures Te3Row(5) == RotateRow(Te2Row(5))
    ensures Te3Row(6) == RotateRow(Te2Row(6))
    ensures Te3Row(7) == RotateRow(Te2Row(7))
  {}

  lemma Te3Is2()
    ensures Te3Row(8) == RotateRow(Te2Row(8))
    ensures Te3Row(9) == RotateRow(Te2Row(9))
    ensures Te3Row(10) == RotateRow(Te2Row(10))
    ensures Te3Row(11) == RotateRow(Te2Row(11))
  {}

  lemma Te3Is3()
    ensures Te3Row(12) == RotateRow(Te2Row(12))
    ensures Te3Row(13) == RotateRow(Te2Row(13))
    ensures Te3Row(14) == RotateRow(Te2Row(14))
    ensures Te3Row(15) == RotateRow(Te2Row(15))
  {}

  lemma Te3Rotates(x: bv8)
    ensures Te3(x) == RotateByte(Te2(x))
  {
    hide Te3Row, Te2Row, RotateRow, RotateByte, WordAt;
    var h := x >> 4;
    assert h < 16;
    if h < 4 { Te3Is0(); } else if h < 8 { Te3Is1(); } else if h < 12 { Te3Is2(); } else { Te3Is3(); }
    RotateRowAt(Te2Row(h), x & 15);
  }

  lemma Td1Is0()
    ensures Td1Row(0) == RotateRow(Td0Row(0))
    ensures Td1Row(1) == RotateRow(Td0Row(1))
    ensures Td1Row(2) == RotateRow(Td0Row(2))
    ensures Td1Row(3) == RotateRow(Td0Row(3))
  {}

  lemma Td1Is1()
    ensures Td1Row(4) == RotateRow(Td0Row(4))
    ensures Td1Row(5) == RotateRow(Td0Row(5))
    ensures Td1Row(6) == RotateRow(Td0Row(6))
    ensures Td1Row(7) == RotateRow(Td0Row(7))
  {}

  lemma Td1Is2()
    ensures Td1Row(8) == RotateRow(Td0Row(8))
    ensures Td1Row(9) == RotateRow(Td0Row(9))
    ensures Td1Row(10) == RotateRow(Td0Row(10))
    ensures Td1Row(11) == RotateRow(Td0Row(11))
  {}

  lemma Td1Is3()
    ensures Td1Row(12) == RotateRow(Td0Row(12))
    ensures Td1Row(13) == RotateRow(Td0Row(13))
    ensures Td1Row(14) == RotateRow(Td0Row(14))
    ensures Td1Row(15) == RotateRow(Td0Row(15))
  {}

  lemma Td1Rotates(x: bv8)
    ensures Td1(x) == RotateByte(Td0(x))
  {
    hide Td1Row, Td0Row, RotateRow, RotateByte, WordAt;
    var h := x >> 4;
    assert h < 16;
    if h < 4 { Td1Is0(); } else if h < 8 { Td1Is1(); } else if h < 12 { Td1Is2(); } else { Td1Is3(); }
    RotateRowAt(Td0Row(h), x & 15);
  }

  lemma Td2Is0()
    ensures Td2Row(0) == RotateRow(Td1Row(0))
    ensures Td2Row(1) == RotateRow(Td1Row(1))
    ensures Td2Row(2) == RotateRow(Td1Row(2))
    ensures Td2Row(3) == RotateRow(Td1Row(3))
  {}

  lemma Td2Is1()
    ensures Td2Row(4) == RotateRow(Td1Row(4))
    ensures Td2Row(5) == RotateRow(Td1Row(5))
    ensures Td2Row(6) == RotateRow(Td1Row(6))
    ensures Td2Row(7) == RotateRow(Td1Row(7))
  {}

  lemma Td2Is2()
    ensures Td2Row(8) == RotateRow(Td1Row(8))
    ensures Td2Row(9) == RotateRow(Td1Row(9))
    ensures Td2Row(10) == RotateRow(Td1Row(10))
    ensures Td2Row(11) == RotateRow(Td1Row(11))
  {}

  lemma Td2Is3()
    ensures Td2Row(12) == RotateRow(Td1Row(12))
    ensures Td2Row(13) == RotateRow(Td1Row(13))
    ensures Td2Row(14) == RotateRow(Td1Row(14))
    ensures Td2Row(15) == RotateRow(Td1Row(15))
  {}

  lemma Td2Rotates(x: bv8)
    ensures Td2(x) == RotateByte(Td1(x))
  {
    hide Td2Row, Td1Row, RotateRow, RotateByte, WordAt;
    var h := x >> 4;
    assert h < 16;
    if h < 4 { Td2Is0(); } else if h < 8 { Td2Is1(); } else if h < 12 { Td2Is2(); } else { Td2Is3(); }
    RotateRowAt(Td1Row(h), x & 15);
  }

  lemma Td3Is0()
    ensures Td3Row(0) == RotateRow(Td2Row(0))
    ensures Td3Row(1) == RotateRow(Td2Row(1))
    ensures Td3Row(2) == RotateRow(Td2Row(2))
    ensures Td3Row(3) == RotateRow(Td2Row(3))
  {}

  lemma Td3Is1()
    ensures Td3Row(4) == RotateRow(Td2Row(4))
    ensures Td3Row(5) == RotateRow(Td2Row(5))
    ensures Td3Row(6) == RotateRow(Td2Row(6))
    ensures Td3Row(7) == RotateRow(Td2Row(7))
  {}

  lemma Td3Is2()
    ensures Td3Row(8) == RotateRow(Td2Row(8))
    ensures Td3Row(9) == RotateRow(Td2Row(9))
    ensures Td3Row(10) == RotateRow(Td2Row(10))
    ensures Td3Row(11) == RotateRow(Td2Row(11))
  {}

  lemma Td3Is3()
    ensures Td3Row(12) == RotateRow(Td2Row(12))
    ensures Td3Row(13) == RotateRow(Td2Row(13))
    ensures Td3Row(14) == RotateRow(Td2Row(14))
    ensures Td3Row(15) == RotateRow(Td2Row(15))
  {}

  lemma Td3Rotates(x: bv8)
    ensures Td3(x) == RotateByte(Td2(x))
  {
    hide Td3Row, Td2Row, RotateRow, RotateByte, WordAt;
    var h := x >> 4;
    assert h < 16;
    if h < 4 { Td3Is0(); } else if h < 8 { Td3Is1(); } else if h < 12 { Td3Is2(); } else { Td3Is3(); }
    RotateRowAt(Td2Row(h), x & 15);
  }

  // ---------- The inverse S-box ----------

  function SiRowOf(r: ByteRow): ByteRow {
    ByteRow(Si(r.e0), Si(r.e1), Si(r.e2), Si(r.e3), Si(r.e4), Si(r.e5), Si(r.e6), Si(r.e7),
            Si(r.e8), Si(r.e9), Si(r.eA), Si(r.eB), Si(r.eC), Si(r.eD), Si(r.eE), Si(r.eF))
  }

  /** The sixteen indices with high nibble `h`. */
  function Indices(h: bv8): ByteRow {
    ByteRow((h << 4) | 0, (h << 4) | 1, (h << 4) | 2, (h << 4) | 3, (h << 4) | 4, (h << 4) | 5,
            (h << 4) | 6, (h << 4) | 7, (h << 4) | 8, (h << 4) | 9, (h << 4) | 10, (h << 4) | 11,
            (h << 4) | 12, (h << 4) | 13, (h << 4) | 14, (h << 4) | 15)
  }

  lemma SiRowAt(r: ByteRow, n: bv8)
    ensures ByteAt(SiRowOf(r), n) == Si(ByteAt(r, n))
  {
    hide Si;
  }

  lemma IndexAt(x: bv8)
    ensures ByteAt(Indices(x >> 4), x & 15) == x
  {
    var h, n := x >> 4, x & 15;
    assert x == (h << 4) | n;
    assert n < 16;
  }

  lemma SiFact0()
    ensures Si(0x63) == 0x00 && Si(0x7c) == 0x01 && Si(0x77) == 0x02 && Si(0x7b) == 0x03 && Si(0xf2) == 0x04
    ensures Si(0x6b) == 0x05 && Si(0x6f) == 0x06 && Si(0xc5) == 0x07 && Si(0x30) == 0x08 && Si(0x01) == 0x09
    ensures Si(0x67) == 0x0a && Si(0x2b) == 0x0b && Si(0xfe) == 0x0c && Si(0xd7) == 0x0d && Si(0xab) == 0x0e
    ensures Si(0x76) == 0x0f
  {}

  lemma SiFact1()
    ensures Si(0xca) == 0x10 && Si(0x82) == 0x11 && Si(0xc9) == 0x12 && Si(0x7d) == 0x13 && Si(0xfa) == 0x14
    ensures Si(0x59) == 0x15 && Si(0x47) == 0x16 && Si(0xf0) == 0x17 && Si(0xad) == 0x18 && Si(0xd4) == 0x19
    ensures Si(0xa2) == 0x1a && Si(0xaf) == 0x1b && Si(0x9c) == 0x1c && Si(0xa4) == 0x1d && Si(0x72) == 0x1e
    ensures Si(0xc0) == 0x1f
  {}

  lemma SiFact2()
    ensures Si(0xb7) == 0x20 && Si(0xfd) == 0x21 && Si(0x93) == 0x22 && Si(0x26) == 0x23 && Si(0x36) == 0x24
    ensures Si(0x3f) == 0x25 && Si(0xf7) == 0x26 && Si(0xcc) == 0x27 && Si(0x34) == 0x28 && Si(0xa5) == 0x29
    ensures Si(0xe5) == 0x2a && Si(0xf1) == 0x2b && Si(0x71) == 0x2c && Si(0xd8) == 0x2d && Si(0x31) == 0x2e
    ensures Si(0x15) == 0x2f
  {}

  lemma SiFact3()
    ensures Si(0x04) == 0x30 && Si(0xc7) == 0x31 && Si(0x23) == 0x32 && Si(0xc3) == 0x33 && Si(0x18) == 0x34
    ensures Si(0x96) == 0x35 && Si(0x05) == 0x36 && Si(0x9a) == 0x37 && Si(0x07) == 0x38 && Si(0x12) == 0x39
    ensures Si(0x80) == 0x3a && Si(0xe2) == 0x3b && Si(0xeb) == 0x3c && Si(0x27) == 0x3d && Si(0xb2) == 0x3e
    ensures Si(0x75) == 0x3f
  {}

  lemma SiFact4()
    ensures Si(0x09) == 0x40 && Si(0x83) == 0x41 && Si(0x2c) == 0x42 && Si(0x1a) == 0x43 && Si(0x1b) == 0x44
    ensures Si(0x6e) == 0x45 && Si(0x5a) == 0x46 && Si(0xa0) == 0x47 && Si(0x52) == 0x48 && Si(0x3b) == 0x49
    ensures Si(0xd6) == 0x4a && Si(0xb3) == 0x4b && Si(0x29) == 0x4c && Si(0xe3) == 0x4d && Si(0x2f) == 0x4e
    ensures Si(0x84) == 0x4f
  {}

  lemma SiFact5()
    ensures Si(0x53) == 0x50 && Si(0xd1) == 0x51 && Si(0x00) == 0x52 && Si(0xed) == 0x53 && Si(0x20) == 0x54
    ensures Si(0xfc) == 0x55 && Si(0xb1) == 0x56 && Si(0x5b) == 0x57 && Si(0x6a) == 0x58 && Si(0xcb) == 0x59
    ensures Si(0xbe) == 0x5a && Si(0x39) == 0x5b && Si(0x4a) == 0x5c && Si(0x4c) == 0x5d && Si(0x58) == 0x5e
    ensures Si(0xcf) == 0x5f
  {}

  lemma SiFact6()
    ensures Si(0xd0) == 0x60 && Si(0xef) == 0x61 && Si(0xaa) == 0x62 && Si(0xfb) == 0x63 && Si(0x43) == 0x64
    ensures Si(0x4d) == 0x65 && Si(0x33) == 0x66 && Si(0x85) == 0x67 && Si(0x45) == 0x68 && Si(0xf9) == 0x69
    ensures Si(0x02) == 0x6a && Si(0x7f) == 0x6b && Si(0x50) == 0x6c && Si(0x3c) == 0x6d && Si(0x9f) == 0x6e
    ensures Si(0xa8) == 0x6f
  {}

  lemma SiFact7()
    ensures Si(0x51) == 0x70 && Si(0xa3) == 0x71 && Si(0x40) == 0x72 && Si(0x8f) == 0x73 && Si(0x92) == 0x74
    ensures Si(0x9d) == 0x75 && Si(0x38) == 0x76 && Si(0xf5) == 0x77 && Si(0xbc) == 0x78 && Si(0xb6) == 0x79
    ensures Si(0xda) == 0x7a && Si(0x21) == 0x7b && Si(0x10) == 0x7c && Si(0xff) == 0x7d && Si(0xf3) == 0x7e
    ensures Si(0xd2) == 0x7f
  {}

  lemma SiFact8()
    ensures Si(0xcd) == 0x80 && Si(0x0c) == 0x81 && Si(0x13) == 0x82 && Si(0xec) == 0x83 && Si(0x5f) == 0x84
    ensures Si(0x97) == 0x85 && Si(0x44) == 0x86 && Si(0x17) == 0x87 && Si(0xc4) == 0x88 && Si(0xa7) == 0x89
    ensures Si(0x7e) == 0x8a && Si(0x3d) == 0x8b && Si(0x64) == 0x8c && Si(0x5d) == 0x8d && Si(0x19) == 0x8e
    ensures Si(0x73) == 0x8f
  {}

  lemma SiFact9()
    ensures Si(0x60) == 0x90 && Si(0x81) == 0x91 && Si(0x4f) == 0x92 && Si(0xdc) == 0x93 && Si(0x22) == 0x94
    ensures Si(0x2a) == 0x95 && Si(0x90) == 0x96 && Si(0x88) == 0x97 && Si(0x46) == 0x98 && Si(0xee) == 0x99
    ensures Si(0xb8) == 0x9a && Si(0x14) == 0x9b && Si(0xde) == 0x9c && Si(0x5e) == 0x9d && Si(0x0b) == 0x9e
    ensures Si(0xdb) == 0x9f
  {}

  lemma SiFactA()
    ensures Si(0xe0) == 0xa0 && Si(0x32) == 0xa1 && Si(0x3a) == 0xa2 && Si(0x0a) == 0xa3 && Si(0x49) == 0xa4
    ensures Si(0x06) == 0xa5 && Si(0x24) == 0xa6 && Si(0x5c) == 0xa7 && Si(0xc2) == 0xa8 && Si(0xd3) == 0xa9
    ensures Si(0xac) == 0xaa && Si(0x62) == 0xab && Si(0x91) == 0xac && Si(0x95) == 0xad && Si(0xe4) == 0xae
    ensures Si(0x79) == 0xaf
  {}

  lemma SiFactB()
    ensures Si(0xe7) == 0xb0 && Si(0xc8) == 0xb1 && Si(0x37) == 0xb2 && Si(0x6d) == 0xb3 && Si(0x8d) == 0xb4
    ensures Si(0xd5) == 0xb5 && Si(0x4e) == 0xb6 && Si(0xa9) == 0xb7 && Si(0x6c) == 0xb8 && Si(0x56) == 0xb9
    ensures Si(0xf4) == 0xba && Si(0xea) == 0xbb && Si(0x65) == 0xbc && Si(0x7a) == 0xbd && Si(0xae) == 0xbe
    ensures Si(0x08) == 0xbf
  {}

  lemma SiFactC()
    ensures Si(0xba) == 0xc0 && Si(0x78) == 0xc1 && Si(0x25) == 0xc2 && Si(0x2e) == 0xc3 && Si(0x1c) == 0xc4
    ensures Si(0xa6) == 0xc5 && Si(0xb4) == 0xc6 && Si(0xc6) == 0xc7 && Si(0xe8) == 0xc8 && Si(0xdd) == 0xc9
    ensures Si(0x74) == 0xca && Si(0x1f) == 0xcb && Si(0x4b) == 0xcc && Si(0xbd) == 0xcd && Si(0x8b) == 0xce
    ensures Si(0x8a) == 0xcf
  {}

  lemma SiFactD()
    ensures Si(0x70) == 0xd0 && Si(0x3e) == 0xd1 && Si(0xb5) == 0xd2 && Si(0x66) == 0xd3 && Si(0x48) == 0xd4
    ensures Si(0x03) == 0xd5 && Si(0xf6) == 0xd6 && Si(0x0e) == 0xd7 && Si(0x61) == 0xd8 && Si(0x35) == 0xd9
    ensures Si(0x57) == 0xda && Si(0xb9) == 0xdb && Si(0x86) == 0xdc && Si(0xc1) == 0xdd && Si(0x1d) == 0xde
    ensures Si(0x9e) == 0xdf
  {}

  lemma SiFactE()
    ensures Si(0xe1) == 0xe0 && Si(0xf8) == 0xe1 && Si(0x98) == 0xe2 && Si(0x11) == 0xe3 && Si(0x69) == 0xe4
    ensures Si(0xd9) == 0xe5 && Si(0x8e) == 0xe6 && Si(0x94) == 0xe7 && Si(0x9b) == 0xe8 && Si(0x1e) == 0xe9
    ensures Si(0x87) == 0xea && Si(0xe9) == 0xeb && Si(0xce) == 0xec && Si(0x55) == 0xed && Si(0x28) == 0xee
    ensures Si(0xdf) == 0xef
  {}

  lemma SiFactF()
    ensures Si(0x8c) == 0xf0 && Si(0xa1) == 0xf1 && Si(0x89) == 0xf2 && Si(0x0d) == 0xf3 && Si(0xbf) == 0xf4
    ensures Si(0xe6) == 0xf5 && Si(0x42) == 0xf6 && Si(0x68) == 0xf7 && Si(0x41) == 0xf8 && Si(0x99) == 0xf9
    ensures Si(0x2d) == 0xfa && Si(0x0f) == 0xfb && Si(0xb0) == 0xfc && Si(0x54) == 0xfd && Si(0xbb) == 0xfe
    ensures Si(0x16) == 0xff
  {}

  lemma SiIs0() ensures SiRowOf(SRow(0)) == Indices(0) { hide Si; SiFact0(); }
  lemma SiIs1() ensures SiRowOf(SRow(1)) == Indices(1) { hide Si; SiFact1(); }
  lemma SiIs2() ensures SiRowOf(SRow(2)) == Indices(2) { hide Si; SiFact2(); }
  lemma SiIs3() ensures SiRowOf(SRow(3)) == Indices(3) { hide Si; SiFact3(); }
  lemma SiIs4() ensures SiRowOf(SRow(4)) == Indices(4) { hide Si; SiFact4(); }
  lemma SiIs5() ensures SiRowOf(SRow(5)) == Indices(5) { hide Si; SiFact5(); }
  lemma SiIs6() ensures SiRowOf(SRow(6)) == Indices(6) { hide Si; SiFact6(); }
  lemma SiIs7() ensures SiRowOf(SRow(7)) == Indices(7) { hide Si; SiFact7(); }
  lemma SiIs8() ensures SiRowOf(SRow(8)) == Indices(8) { hide Si; SiFact8(); }
  lemma SiIs9() ensures SiRowOf(SRow(9)) == Indices(9) { hide Si; SiFact9(); }
  lemma SiIsA() ensures SiRowOf(SRow(10)) == Indices(10) { hide Si; SiFactA(); }
  lemma SiIsB() ensures SiRowOf(SRow(11)) == Indices(11) { hide Si; SiFactB(); }
  lemma SiIsC() ensures SiRowOf(SRow(12)) == Indices(12) { hide Si; SiFactC(); }
  lemma SiIsD() ensures SiRowOf(SRow(13)) == Indices(13) { hide Si; SiFactD(); }
  lemma SiIsE() ensures SiRowOf(SRow(14)) == Indices(14) { hide Si; SiFactE(); }
  lemma SiIsF() ensures SiRowOf(SRow(15)) == Indices(15) { hide Si; SiFactF(); }

  lemma SiRows(h: bv8)
    requires h < 16
    ensures SiRowOf(SRow(h)) == Indices(h)
  {
    hide SiRowOf, SRow, Indices;
    if h == 0 {
      SiIs0();
    } else if h == 1 {
      SiIs1();
    } else if h == 2 {
      SiIs2();
    } else if h == 3 {
      SiIs3();
    } else if h == 4 {
      SiIs4();
    } else if h == 5 {
      SiIs5();
    } else if h == 6 {
      SiIs6();
    } else if h == 7 {
      SiIs7();
    } else if h == 8 {
      SiIs8();
    } else if h == 9 {
      SiIs9();
    } else if h == 10 {
      SiIsA();
    } else if h == 11 {
      SiIsB();
    } else if h == 12 {
      SiIsC();
    } else if h == 13 {
      SiIsD();
    } else if h == 14 {
      SiIsE();
    } else {
      SiIsF();
    }
  }

  /** Td4 inverts Te4 at every byte. */
  lemma SiS(x: bv8)
    ensures Si(S(x)) == x
  {
    hide Si, SiRowOf, SRow, Indices, ByteAt;
    var h := x >> 4;
    assert h < 16;
    SiRows(h);
    SiRowAt(SRow(h), x & 15);
    IndexAt(x);
  }

  // ---------- The tables ----------

  lemma Te0Holds(x: bv8)
    ensures Te0(x) == Enc(S(x))
  {
    hide Te0Row, SRow, EncRow, Enc, WordAt, ByteAt;
    assert x >> 4 < 16;
    Te0Rows(x >> 4);
    EncRowAt(SRow(x >> 4), x & 15);
  }

  lemma Td0Holds(x: bv8)
    ensures Td0(x) == Dec(Si(x))
  {
    hide Td0Row, SiRow, DecRow, Dec, WordAt, ByteAt;
    assert x >> 4 < 16;
    Td0Rows(x >> 4);
    DecRowAt(SiRow(x >> 4), x & 15);
  }

  lemma RotateWord(b0: bv8, b1: bv8, b2: bv8, b3: bv8)
    ensures RotateByte(Word(b0, b1, b2, b3)) == Word(b3, b0, b1, b2)
  {}

  /** The encryption tables are the columns of MixColumns applied to S. */
  lemma EncryptionTables(x: bv8)
    ensures var s := S(x);
      && Te0(x) == Word(Xtime(s), s, s, Mul3(s))
      && Te1(x) == Word(Mul3(s), Xtime(s), s, s)
      && Te2(x) == Word(s, Mul3(s), Xtime(s), s)
      && Te3(x) == Word(s, s, Mul3(s), Xtime(s))
  {
    hide S, Te0, Te1, Te2, Te3, Xtime, Mul3, Word, RotateByte;
    var s := S(x);
    assert Te0(x) == Word(Xtime(s), s, s, Mul3(s)) by { Te0Holds(x); }
    Te1Rotates(x);
    Te2Rotates(x);
    Te3Rotates(x);
    RotateWord(Xtime(s), s, s, Mul3(s));
    RotateWord(Mul3(s), Xtime(s), s, s);
    RotateWord(s, Mul3(s), Xtime(s), s);
  }

  /** The decryption tables are the columns of InvMixColumns applied to Si. */
  lemma DecryptionTables(x: bv8)
    ensures var s := Si(x);
      && Td0(x) == Word(MulE(s), Mul9(s), MulD(s), MulB(s))
      && Td1(x) == Word(MulB(s), MulE(s), Mul9(s), MulD(s))
      && Td2(x) == Word(MulD(s), MulB(s), MulE(s), Mul9(s))
      && Td3(x) == Word(Mul9(s), MulD(s), MulB(s), MulE(s))
  {
    hide Si, Td0, Td1, Td2, Td3, Mul9, MulB, MulD, MulE, Word, RotateByte;
    var s := Si(x);
    assert Td0(x) == Word(MulE(s), Mul9(s), MulD(s), MulB(s)) by { Td0Holds(x); }
    Td1Rotates(x);
    Td2Rotates(x);
    Td3Rotates(x);
    RotateWord(MulE(s), Mul9(s), MulD(s), MulB(s));
    RotateWord(MulB(s), MulE(s), Mul9(s), MulD(s));
    RotateWord(MulD(s), MulB(s), MulE(s), Mul9(s));
  }

  lemma XorOfWords(a: bv32, b: bv32, c: bv32, d: bv32,
                   a0: bv8, a1: bv8, a2: bv8, a3: bv8, b0: bv8, b1: bv8, b2: bv8, b3: bv8,
                   c0: bv8, c1: bv8, c2: bv8, c3: bv8, d0: bv8, d1: bv8, d2: bv8, d3: bv8)
    requires a == Word(a0, a1, a2, a3) && b == Word(b0, b1, b2, b3)
    requires c == Word(c0, c1, c2, c3) && d == Word(d0, d1, d2, d3)
    ensures a ^ b ^ c ^ d
         == Word(Sum(a0, b0, c0, d0), Sum(a1, b1, c1, d1), Sum(a2, b2, c2, d2), Sum(a3, b3, c3, d3))
  {}

  /** One column of an encryption round by table lookup is SubBytes followed by MixColumns. */
  lemma TeColumn(x0: bv8, x1: bv8, x2: bv8, x3: bv8)
    ensures Te0(x0) ^ Te1(x1) ^ Te2(x2) ^ Te3(x3) == MixColumn(Word(S(x0), S(x1), S(x2), S(x3)))
  {
    hide S, Te0, Te1, Te2, Te3, Xtime, Mul3, Word, Byte0, Byte1, Byte2, Byte3, Sum;
    var a, b, c, d := S(x0), S(x1), S(x2), S(x3);
    EncryptionTables(x0);
    EncryptionTables(x1);
    EncryptionTables(x2);
    EncryptionTables(x3);
    XorOfWords(Te0(x0), Te1(x1), Te2(x2), Te3(x3),
               Xtime(a), a, a, Mul3(a), Mul3(b), Xtime(b), b, b, c, Mul3(c), Xtime(c), c, d, d, Mul3(d), Xtime(d));
    BytesOfWord(a, b, c, d);
    Rotated(Xtime(b), Mul3(c), d, a);
    Rotated(Xtime(c), Mul3(d), a, b);
    Rotated(b, Xtime(c), Mul3(d), a);
    Rotated(Mul3(a), b, c, Xtime(d));
  }

  /** One column of a decryption round by table lookup is InvSubBytes followed by InvMixColumns. */
  lemma TdColumn(x0: bv8, x1: bv8, x2: bv8, x3: bv8)
    ensures Td0(x0) ^ Td1(x1) ^ Td2(x2) ^ Td3(x3) == InvMixColumn(Word(Si(x0), Si(x1), Si(x2), Si(x3)))
  {
    hide Si, Td0, Td1, Td2, Td3, Mul9, MulB, MulD, MulE, Word, Byte0, Byte1, Byte2, Byte3, Sum;
    var a, b, c, d := Si(x0), Si(x1), Si(x2), Si(x3);
    DecryptionTables(x0);
    DecryptionTables(x1);
    DecryptionTables(x2);
    DecryptionTables(x3);
    XorOfWords(Td0(x0), Td1(x1), Td2(x2), Td3(x3),
               MulE(a), Mul9(a), MulD(a), MulB(a), MulB(b), MulE(b), Mul9(b), MulD(b),
               MulD(c), MulB(c), MulE(c), Mul9(c), Mul9(d), MulD(d), MulB(d), MulE(d));
    BytesOfWord(a, b, c, d);
    Rotated(MulE(b), MulB(c), MulD(d), Mul9(a));
    Rotated(MulE(c), MulB(d), MulD(a), Mul9(b));
    Rotated(Mul9(b), MulE(c), MulB(d), MulD(a));
    Rotated(MulB(a), MulD(b), Mul9(c), MulE(d));
  }
}
