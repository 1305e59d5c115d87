/** The examples of appendices A and B of FIPS 197: the 128-bit key 2b7e1516 28aed2a6 abf71588 09cf4f3c, its
    schedule, the encryption of 3243f6a8 885a308d 313198a2 e0370734 under it, and the start of the schedules of
    the 192-bit and the 256-bit key. */
module AesExample {
  import opened AesTables
  import opened AesField
  import opened Fips197
  import opened Aes

  function ExampleKey(): seq<bv32> { [0x2b7e1516, 0x28aed2a6, 0xabf71588, 0x09cf4f3c] }

  // ---------- The schedule ----------

  lemma Start1() ensures Xor(0x2b7e1516, Xor(SubWord(RotWord(0x09cf4f3c)), Word(0x01, 0, 0, 0))) == 0xa0fafe17 {}
  lemma Start2() ensures Xor(0xa0fafe17, Xor(SubWord(RotWord(0x2a6c7605)), Word(0x02, 0, 0, 0))) == 0xf2c295f2 {}
  lemma Start3() ensures Xor(0xf2c295f2, Xor(SubWord(RotWord(0x7359f67f)), Word(0x04, 0, 0, 0))) == 0x3d80477d {}
  lemma Start4() ensures Xor(0x3d80477d, Xor(SubWord(RotWord(0x6d7a883b)), Word(0x08, 0, 0, 0))) == 0xef44a541 {}
  lemma Start5() ensures Xor(0xef44a541, Xor(SubWord(RotWord(0xdb0bad00)), Word(0x10, 0, 0, 0))) == 0xd4d1c6f8 {}
  lemma Start6() ensures Xor(0xd4d1c6f8, Xor(SubWord(RotWord(0x11f915bc)), Word(0x20, 0, 0, 0))) == 0x6d88a37a {}
  lemma Start7() ensures Xor(0x6d88a37a, Xor(SubWord(RotWord(0xca0093fd)), Word(0x40, 0, 0, 0))) == 0x4e54f70e {}
  lemma Start8() ensures Xor(0x4e54f70e, Xor(SubWord(RotWord(0x4ea6dc4f)), Word(0x80, 0, 0, 0))) == 0xead27321 {}
  lemma Start9() ensures Xor(0xead27321, Xor(SubWord(RotWord(0x7f8d292f)), Word(0x1b, 0, 0, 0))) == 0xac7766f3 {}
  lemma Start10() ensures Xor(0xac7766f3, Xor(SubWord(RotWord(0x575c006e)), Word(0x36, 0, 0, 0))) == 0xd014f9a8 {}

  /** One stretch of four words after another. */
  lemma Stretch(m: nat, a: bv32, b: bv32, c: bv32, d: bv32, rc: bv8)
    requires KeyWord(ExampleKey(), 4 * m) == a && KeyWord(ExampleKey(), 4 * m + 1) == b
    requires KeyWord(ExampleKey(), 4 * m + 2) == c && KeyWord(ExampleKey(), 4 * m + 3) == d
    requires RconByte(m + 1) == rc
    ensures var e := Xor(a, Xor(SubWord(RotWord(d)), Word(rc, 0, 0, 0)));
      && KeyWord(ExampleKey(), 4 * m + 4) == e
      && KeyWord(ExampleKey(), 4 * m + 5) == Xor(b, e)
      && KeyWord(ExampleKey(), 4 * m + 6) == Xor(c, Xor(b, e))
      && KeyWord(ExampleKey(), 4 * m + 7) == Xor(d, Xor(c, Xor(b, e)))
  {
    hide KeyWord, SubWord, RotWord, Xor, Word, RconByte;
    KeyStretch(ExampleKey(), m, 0, 4 * m + 4);
    KeyStretch(ExampleKey(), m, 1, 4 * m + 5);
    KeyStretch(ExampleKey(), m, 2, 4 * m + 6);
    KeyStretch(ExampleKey(), m, 3, 4 * m + 7);
  }

  lemma Constants()
    ensures RconByte(1) == 0x01 && RconByte(2) == 0x02 && RconByte(3) == 0x04 && RconByte(4) == 0x08
    ensures RconByte(5) == 0x10 && RconByte(6) == 0x20 && RconByte(7) == 0x40 && RconByte(8) == 0x80
    ensures RconByte(9) == 0x1b && RconByte(10) == 0x36
  {
    assert RconByte(2) == 0x02;
    assert RconByte(4) == 0x08;
    assert RconByte(6) == 0x20;
    assert RconByte(8) == 0x80;
  }

  /** The schedule of the example is the one of appendix A.1. */
  ghost predicate WordsAt(r: nat, k: State) {
    && KeyWord(ExampleKey(), 4 * r) == k.c0 && KeyWord(ExampleKey(), 4 * r + 1) == k.c1
    && KeyWord(ExampleKey(), 4 * r + 2) == k.c2 && KeyWord(ExampleKey(), 4 * r + 3) == k.c3
  }

  lemma Words0() ensures WordsAt(0, State(0x2b7e1516, 0x28aed2a6, 0xabf71588, 0x09cf4f3c)) {}

  lemma Words1()
    ensures WordsAt(1, State(0xa0fafe17, 0x88542cb1, 0x23a33939, 0x2a6c7605))
  {
    hide KeyWord, SubWord, RotWord, Word, RconByte;
    Words0();
    Constants();
    Start1();
    Stretch(0, 0x2b7e1516, 0x28aed2a6, 0xabf71588, 0x09cf4f3c, 0x01);
  }

  lemma Words2()
    ensures WordsAt(2, State(0xf2c295f2, 0x7a96b943, 0x5935807a, 0x7359f67f))
  {
    hide KeyWord, SubWord, RotWord, Word, RconByte;
    Words1();
    Constants();
    Start2();
    Stretch(1, 0xa0fafe17, 0x88542cb1, 0x23a33939, 0x2a6c7605, 0x02);
  }

  lemma Words3()
    ensures WordsAt(3, State(0x3d80477d, 0x4716fe3e, 0x1e237e44, 0x6d7a883b))
  {
    hide KeyWord, SubWord, RotWord, Word, RconByte;
    Words2();
    Constants();
    Start3();
    Stretch(2, 0xf2c295f2, 0x7a96b943, 0x5935807a, 0x7359f67f, 0x04);
  }

  lemma Words4()
    ensures WordsAt(4, State(0xef44a541, 0xa8525b7f, 0xb671253b, 0xdb0bad00))
  {
    hide KeyWord, SubWord, RotWord, Word, RconByte;
    Words3();
    Constants();
    Start4();
    Stretch(3, 0x3d80477d, 0x4716fe3e, 0x1e237e44, 0x6d7a883b, 0x08);
  }

  lemma Words5()
    ensures WordsAt(5, State(0xd4d1c6f8, 0x7c839d87, 0xcaf2b8bc, 0x11f915bc))
  {
    hide KeyWord, SubWord, RotWord, Word, RconByte;
    Words4();
    Constants();
    Start5();
    Stretch(4, 0xef44a541, 0xa8525b7f, 0xb671253b, 0xdb0bad00, 0x10);
  }

  lemma Words6()
    ensures WordsAt(6, State(0x6d88a37a, 0x110b3efd, 0xdbf98641, 0xca0093fd))
  {
    hide KeyWord, SubWord, RotWord, Word, RconByte;
    Words5();
    Constants();
    Start6();
    Stretch(5, 0xd4d1c6f8, 0x7c839d87, 0xcaf2b8bc, 0x11f915bc, 0x20);
  }

  lemma Words7()
    ensures WordsAt(7, State(0x4e54f70e, 0x5f5fc9f3, 0x84a64fb2, 0x4ea6dc4f))
  {
    hide KeyWord, SubWord, RotWord, Word, RconByte;
    Words6();
    Constants();
    Start7();
    Stretch(6, 0x6d88a37a, 0x110b3efd, 0xdbf98641, 0xca0093fd, 0x40);
  }

  lemma Words8()
    ensures WordsAt(8, State(0xead27321, 0xb58dbad2, 0x312bf560, 0x7f8d292f))
  {
    hide KeyWord, SubWord, RotWord, Word, RconByte;
    Words7();
    Constants();
    Start8();
    Stretch(7, 0x4e54f70e, 0x5f5fc9f3, 0x84a64fb2, 0x4ea6dc4f, 0x80);
  }

  lemma Words9()
    ensures WordsAt(9, State(0xac7766f3, 0x19fadc21, 0x28d12941, 0x575c006e))
  {
    hide KeyWord, SubWord, RotWord, Word, RconByte;
    Words8();
    Constants();
    Start9();
    Stretch(8, 0xead27321, 0xb58dbad2, 0x312bf560, 0x7f8d292f, 0x1b);
  }

  lemma Words10()
    ensures WordsAt(10, State(0xd014f9a8, 0xc9ee2589, 0xe13f0cc8, 0xb6630ca6))
  {
    hide KeyWord, SubWord, RotWord, Word, RconByte;
    Words9();
    Constants();
    Start10();
    Stretch(9, 0xac7766f3, 0x19fadc21, 0x28d12941, 0x575c006e, 0x36);
  }

  function ExampleSchedule(): (s: seq<bv32>)
    ensures |s| == 44
  {
    seq(44, (i: nat) requires i < 44 => KeyWord(ExampleKey(), i))
  }

  lemma ScheduleAt(r: nat, k: State)
    requires r < 11 && WordsAt(r, k)
    ensures RoundKey(ExampleSchedule(), r) == k
  {
    hide KeyWord;
  }

  // ---------- The rounds ----------

  lemma SubBytes1() ensures SubBytes(State(0x193de3be, 0xa0f4e22b, 0x9ac68d2a, 0xe9f84808)) ==
      State(0xd42711ae, 0xe0bf98f1, 0xb8b45de5, 0x1e415230) {}
  lemma ShiftRows1() ensures ShiftRows(State(0xd42711ae, 0xe0bf98f1, 0xb8b45de5, 0x1e415230)) ==
      State(0xd4bf5d30, 0xe0b452ae, 0xb84111f1, 0x1e2798e5) {}
  lemma MixColumns1() ensures MixColumns(State(0xd4bf5d30, 0xe0b452ae, 0xb84111f1, 0x1e2798e5)) ==
      State(0x046681e5, 0xe0cb199a, 0x48f8d37a, 0x2806264c) {}

  lemma SubBytes2() ensures SubBytes(State(0xa49c7ff2, 0x689f352b, 0x6b5bea43, 0x026a5049)) ==
      State(0x49ded289, 0x45db96f1, 0x7f39871a, 0x7702533b) {}
  lemma ShiftRows2() ensures ShiftRows(State(0x49ded289, 0x45db96f1, 0x7f39871a, 0x7702533b)) ==
      State(0x49db873b, 0x45395389, 0x7f02d2f1, 0x77de961a) {}
  lemma MixColumns2() ensures MixColumns(State(0x49db873b, 0x45395389, 0x7f02d2f1, 0x77de961a)) ==
      State(0x584dcaf1, 0x1b4b5aac, 0xdbe7caa8, 0x1b6bb0e5) {}

  lemma SubBytes3() ensures SubBytes(State(0xaa8f5f03, 0x61dde3ef, 0x82d24ad2, 0x6832469a)) ==
      State(0xac73cf7b, 0xefc111df, 0x13b5d6b5, 0x45235ab8) {}
  lemma ShiftRows3() ensures ShiftRows(State(0xac73cf7b, 0xefc111df, 0x13b5d6b5, 0x45235ab8)) ==
      State(0xacc1d6b8, 0xefb55a7b, 0x1323cfdf, 0x457311b5) {}
  lemma MixColumns3() ensures MixColumns(State(0xacc1d6b8, 0xefb55a7b, 0x1323cfdf, 0x457311b5)) ==
      State(0x75ec0993, 0x200b6333, 0x53c0cf7c, 0xbb25d0dc) {}

  lemma SubBytes4() ensures SubBytes(State(0x486c4eee, 0x671d9d0d, 0x4de3b138, 0xd65f58e7)) ==
      State(0x52502f28, 0x85a45ed7, 0xe311c807, 0xf6cf6a94) {}
  lemma ShiftRows4() ensures ShiftRows(State(0x52502f28, 0x85a45ed7, 0xe311c807, 0xf6cf6a94)) ==
      State(0x52a4c894, 0x85116a28, 0xe3cf2fd7, 0xf6505e07) {}
  lemma MixColumns4() ensures MixColumns(State(0x52a4c894, 0x85116a28, 0xe3cf2fd7, 0xf6505e07)) ==
      State(0x0fd6daa9, 0x603138bf, 0x6fc0106b, 0x5eb31301) {}

  lemma SubBytes5() ensures SubBytes(State(0xe0927fe8, 0xc86363c0, 0xd9b13550, 0x85b8be01)) ==
      State(0xe14fd29b, 0xe8fbfbba, 0x35c89653, 0x976cae7c) {}
  lemma ShiftRows5() ensures ShiftRows(State(0xe14fd29b, 0xe8fbfbba, 0x35c89653, 0x976cae7c)) ==
      State(0xe1fb967c, 0xe8c8ae9b, 0x356cd2ba, 0x974ffb53) {}
  lemma MixColumns5() ensures MixColumns(State(0xe1fb967c, 0xe8c8ae9b, 0x356cd2ba, 0x974ffb53)) ==
      State(0x25d1a9ad, 0xbd11d168, 0xb63a338e, 0x4c4cc0b0) {}

  lemma SubBytes6() ensures SubBytes(State(0xf1006f55, 0xc1924cef, 0x7cc88b32, 0x5db5d50c)) ==
      State(0xa163a8fc, 0x784f29df, 0x10e83d23, 0x4cd503fe) {}
  lemma ShiftRows6() ensures ShiftRows(State(0xa163a8fc, 0x784f29df, 0x10e83d23, 0x4cd503fe)) ==
      State(0xa14f3dfe, 0x78e803fc, 0x10d5a8df, 0x4c632923) {}
  lemma MixColumns6() ensures MixColumns(State(0xa14f3dfe, 0x78e803fc, 0x10d5a8df, 0x4c632923)) ==
      State(0x4b868d6d, 0x2c4a8980, 0x339df4e8, 0x37d218d8) {}

  lemma SubBytes7() ensures SubBytes(State(0x260e2e17, 0x3d41b77d, 0xe86472a9, 0xfdd28b25)) ==
      State(0xf7ab31f0, 0x2783a9ff, 0x9b4340d3, 0x54b53d3f) {}
  lemma ShiftRows7() ensures ShiftRows(State(0xf7ab31f0, 0x2783a9ff, 0x9b4340d3, 0x54b53d3f)) ==
      State(0xf783403f, 0x27433df0, 0x9bb531ff, 0x54aba9d3) {}
  lemma MixColumns7() ensures MixColumns(State(0xf783403f, 0x27433df0, 0x9bb531ff, 0x54aba9d3)) ==
      State(0x1415b5bf, 0x461615ec, 0x274656d7, 0x342ad843) {}

  lemma SubBytes8() ensures SubBytes(State(0x5a4142b1, 0x1949dc1f, 0xa3e01965, 0x7a8c040c)) ==
      State(0xbe832cc8, 0xd43b86c0, 0x0ae1d44d, 0xda64f2fe) {}
  lemma ShiftRows8() ensures ShiftRows(State(0xbe832cc8, 0xd43b86c0, 0x0ae1d44d, 0xda64f2fe)) ==
      State(0xbe3bd4fe, 0xd4e1f2c8, 0x0a642cc0, 0xda83864d) {}
  lemma MixColumns8() ensures MixColumns(State(0xbe3bd4fe, 0xd4e1f2c8, 0x0a642cc0, 0xda83864d)) ==
      State(0x00512fd1, 0xb1c889ff, 0x54766dcd, 0xfa1b99ea) {}

  lemma SubBytes9() ensures SubBytes(State(0xea835cf0, 0x0445332d, 0x655d98ad, 0x8596b0c5)) ==
      State(0x87ec4a8c, 0xf26ec3d8, 0x4d4c4695, 0x9790e7a6) {}
  lemma ShiftRows9() ensures ShiftRows(State(0x87ec4a8c, 0xf26ec3d8, 0x4d4c4695, 0x9790e7a6)) ==
      State(0x876e46a6, 0xf24ce78c, 0x4d904ad8, 0x97ecc395) {}
  lemma MixColumns9() ensures MixColumns(State(0x876e46a6, 0xf24ce78c, 0x4d904ad8, 0x97ecc395)) ==
      State(0x473794ed, 0x40d4e4a5, 0xa3703aa6, 0x4c9f42bc) {}

  lemma SubBytes10() ensures SubBytes(State(0xeb40f21e, 0x592e3884, 0x8ba113e7, 0x1bc342d2)) ==
      State(0xe9098972, 0xcb31075f, 0x3d327d94, 0xaf2e2cb5) {}
  lemma ShiftRows10() ensures ShiftRows(State(0xe9098972, 0xcb31075f, 0x3d327d94, 0xaf2e2cb5)) ==
      State(0xe9317db5, 0xcb322c72, 0x3d2e895f, 0xaf090794) {}

  function ExampleInput(): State { State(0x3243f6a8, 0x885a308d, 0x313198a2, 0xe0370734) }

  lemma State0()
    ensures Rounds(ExampleInput(), ExampleSchedule(), 0) == State(0x193de3be, 0xa0f4e22b, 0x9ac68d2a, 0xe9f84808)
  {
    Words0();
    hide WordsAt, RoundKey, ExampleSchedule;
    ScheduleAt(0, State(0x2b7e1516, 0x28aed2a6, 0xabf71588, 0x09cf4f3c));
  }

  lemma State1()
    ensures Rounds(ExampleInput(), ExampleSchedule(), 1) == State(0xa49c7ff2, 0x689f352b, 0x6b5bea43, 0x026a5049)
  {
    hide WordsAt, RoundKey, ExampleSchedule, SubBytes, ShiftRows, MixColumns, ExampleInput;
    State0();
    SubBytes1();
    ShiftRows1();
    MixColumns1();
    Words1();
    ScheduleAt(1, State(0xa0fafe17, 0x88542cb1, 0x23a33939, 0x2a6c7605));
  }

  lemma State2()
    ensures Rounds(ExampleInput(), ExampleSchedule(), 2) == State(0xaa8f5f03, 0x61dde3ef, 0x82d24ad2, 0x6832469a)
  {
    hide WordsAt, RoundKey, ExampleSchedule, SubBytes, ShiftRows, MixColumns, ExampleInput;
    State1();
    SubBytes2();
    ShiftRows2();
    MixColumns2();
    Words2();
    ScheduleAt(2, State(0xf2c295f2, 0x7a96b943, 0x5935807a, 0x7359f67f));
  }

  lemma State3()
    ensures Rounds(ExampleInput(), ExampleSchedule(), 3) == State(0x486c4eee, 0x671d9d0d, 0x4de3b138, 0xd65f58e7)
  {
    hide WordsAt, RoundKey, ExampleSchedule, SubBytes, ShiftRows, MixColumns, ExampleInput;
    State2();
    SubBytes3();
    ShiftRows3();
    MixColumns3();
    Words3();
    ScheduleAt(3, State(0x3d80477d, 0x4716fe3e, 0x1e237e44, 0x6d7a883b));
  }

  lemma State4()
    ensures Rounds(ExampleInput(), ExampleSchedule(), 4) == State(0xe0927fe8, 0xc86363c0, 0xd9b13550, 0x85b8be01)
  {
    hide WordsAt, RoundKey, ExampleSchedule, SubBytes, ShiftRows, MixColumns, ExampleInput;
    State3();
    SubBytes4();
    ShiftRows4();
    MixColumns4();
    Words4();
    ScheduleAt(4, State(0xef44a541, 0xa8525b7f, 0xb671253b, 0xdb0bad00));
  }

  lemma State5()
    ensures Rounds(ExampleInput(), ExampleSchedule(), 5) == State(0xf1006f55, 0xc1924cef, 0x7cc88b32, 0x5db5d50c)
  {
    hide WordsAt, RoundKey, ExampleSchedule, SubBytes, ShiftRows, MixColumns, ExampleInput;
    State4();
    SubBytes5();
    ShiftRows5();
    MixColumns5();
    Words5();
    ScheduleAt(5, State(0xd4d1c6f8, 0x7c839d87, 0xcaf2b8bc, 0x11f915bc));
  }

  lemma State6()
    ensures Rounds(ExampleInput(), ExampleSchedule(), 6) == State(0x260e2e17, 0x3d41b77d, 0xe86472a9, 0xfdd28b25)
  {
    hide WordsAt, RoundKey, ExampleSchedule, SubBytes, ShiftRows, MixColumns, ExampleInput;
    State5();
    SubBytes6();
    ShiftRows6();
    MixColumns6();
    Words6();
    ScheduleAt(6, State(0x6d88a37a, 0x110b3efd, 0xdbf98641, 0xca0093fd));
  }

  lemma State7()
    ensures Rounds(ExampleInput(), ExampleSchedule(), 7) == State(0x5a4142b1, 0x1949dc1f, 0xa3e01965, 0x7a8c040c)
  {
    hide WordsAt, RoundKey, ExampleSchedule, SubBytes, ShiftRows, MixColumns, ExampleInput;
    State6();
    SubBytes7();
    ShiftRows7();
    MixColumns7();
    Words7();
    ScheduleAt(7, State(0x4e54f70e, 0x5f5fc9f3, 0x84a64fb2, 0x4ea6dc4f));
  }

  lemma State8()
    ensures Rounds(ExampleInput(), ExampleSchedule(), 8) == State(0xea835cf0, 0x0445332d, 0x655d98ad, 0x8596b0c5)
  {
    hide WordsAt, RoundKey, ExampleSchedule, SubBytes, ShiftRows, MixColumns, ExampleInput;
    State7();
    SubBytes8();
    ShiftRows8();
    MixColumns8();
    Words8();
    ScheduleAt(8, State(0xead27321, 0xb58dbad2, 0x312bf560, 0x7f8d292f));
  }

  lemma State9()
    ensures Rounds(ExampleInput(), ExampleSchedule(), 9) == State(0xeb40f21e, 0x592e3884, 0x8ba113e7, 0x1bc342d2)
  {
    hide WordsAt, RoundKey, ExampleSchedule, SubBytes, ShiftRows, MixColumns, ExampleInput;
    State8();
    SubBytes9();
    ShiftRows9();
    MixColumns9();
    Words9();
    ScheduleAt(9, State(0xac7766f3, 0x19fadc21, 0x28d12941, 0x575c006e));
  }

  /** The output of appendix B. */
  lemma CipherExample()
    ensures Cipher(ExampleInput(), ExampleSchedule(), 10) == State(0x3925841d, 0x02dc09fb, 0xdc118597, 0x196a0b32)
  {
    hide WordsAt, RoundKey, ExampleSchedule, SubBytes, ShiftRows, Rounds, ExampleInput;
    State9();
    SubBytes10();
    ShiftRows10();
    Words10();
    ScheduleAt(10, State(0xd014f9a8, 0xc9ee2589, 0xe13f0cc8, 0xb6630ca6));
  }

  /** The same on bytes, from the user key to the ciphertext. */
  lemma KeyExample()
    ensures var key: seq<bv8> :=
        [0x2b, 0x7e, 0x15, 0x16, 0x28, 0xae, 0xd2, 0xa6, 0xab, 0xf7, 0x15, 0x88, 0x09, 0xcf, 0x4f, 0x3c];
      KeyWords(key, 4) == ExampleKey()
  {}

  lemma EncryptExample()
    ensures var input: seq<bv8> :=
        [0x32, 0x43, 0xf6, 0xa8, 0x88, 0x5a, 0x30, 0x8d, 0x31, 0x31, 0x98, 0xa2, 0xe0, 0x37, 0x07, 0x34];
      EncryptBlock(input, ExampleSchedule(), 10) ==
        [0x39, 0x25, 0x84, 0x1d, 0x02, 0xdc, 0x09, 0xfb, 0xdc, 0x11, 0x85, 0x97, 0x19, 0x6a, 0x0b, 0x32]
  {
    hide Cipher, ExampleSchedule;
    CipherExample();
  }

  // ---------- The start of the schedule of appendix A.2 ----------

  function LongKey(): seq<bv32> {
    [0x8e73b0f7, 0xda0e6452, 0xc810f32b, 0x809079e5, 0x62f8ead2, 0x522c6b7b]
  }

  lemma LongRotated()
    ensures Xor(0x8e73b0f7, Xor(SubWord(RotWord(0x522c6b7b)), Word(0x01, 0, 0, 0))) == 0xfe0c91f7
  {}


  lemma LongGiven(k: nat)
    requires k < 6
    ensures KeyWord(LongKey(), k) == LongKey()[k]
  {}

  /** The words after those of the key are the ones of appendix A.2. */
  lemma LongSchedule()
    ensures KeyWord(LongKey(), 6) == 0xfe0c91f7 && KeyWord(LongKey(), 7) == 0x2402f5a5
    ensures KeyWord(LongKey(), 8) == 0xec12068e && KeyWord(LongKey(), 9) == 0x6c827f6b
    ensures KeyWord(LongKey(), 10) == 0x0e7a95b9 && KeyWord(LongKey(), 11) == 0x5c56fec2
  {
    hide KeyWord, SubWord, RotWord, Word;
    FirstRcon();
    LongRotated();
    LongGiven(0);
    LongGiven(1);
    LongGiven(2);
    LongGiven(3);
    LongGiven(4);
    LongGiven(5);
    KeyStretch(LongKey(), 0, 0, 6);
    KeyStretch(LongKey(), 0, 1, 7);
    KeyStretch(LongKey(), 0, 2, 8);
    KeyStretch(LongKey(), 0, 3, 9);
    KeyStretch(LongKey(), 0, 4, 10);
    KeyStretch(LongKey(), 0, 5, 11);
  }

  // ---------- The start of the schedule of appendix A.3 ----------

  function LongestKey(): seq<bv32> {
    [0x603deb10, 0x15ca71be, 0x2b73aef0, 0x857d7781, 0x1f352c07, 0x3b6108d7, 0x2d9810a3, 0x0914dff4]
  }

  lemma LongestRotated()
    ensures Xor(0x603deb10, Xor(SubWord(RotWord(0x0914dff4)), Word(0x01, 0, 0, 0))) == 0x9ba35411
  {}

  lemma LongestSubstituted() ensures Xor(0x1f352c07, SubWord(0x2067fcde)) == 0xa8b09c1a {}

  lemma LongestGiven(k: nat)
    requires k < 8
    ensures KeyWord(LongestKey(), k) == LongestKey()[k]
  {}

  /** The words after those of the key are the ones of appendix A.3. */
  lemma LongestSchedule()
    ensures KeyWord(LongestKey(), 8) == 0x9ba35411 && KeyWord(LongestKey(), 9) == 0x8e6925af
    ensures KeyWord(LongestKey(), 10) == 0xa51a8b5f && KeyWord(LongestKey(), 11) == 0x2067fcde
    ensures KeyWord(LongestKey(), 12) == 0xa8b09c1a && KeyWord(LongestKey(), 13) == 0x93d194cd
    ensures KeyWord(LongestKey(), 14) == 0xbe49846e && KeyWord(LongestKey(), 15) == 0xb75d5b9a
  {
    hide KeyWord, SubWord, RotWord, Word;
    FirstRcon();
    LongestRotated();
    LongestSubstituted();
    LongestGiven(0);
    LongestGiven(1);
    LongestGiven(2);
    LongestGiven(3);
    LongestGiven(4);
    LongestGiven(5);
    LongestGiven(6);
    LongestGiven(7);
    KeyStretch(LongestKey(), 0, 0, 8);
    KeyStretch(LongestKey(), 0, 1, 9);
    KeyStretch(LongestKey(), 0, 2, 10);
    KeyStretch(LongestKey(), 0, 3, 11);
    KeyStretch(LongestKey(), 0, 4, 12);
    KeyStretch(LongestKey(), 0, 5, 13);
    KeyStretch(LongestKey(), 0, 6, 14);
    KeyStretch(LongestKey(), 0, 7, 15);
  }
}
