/** The cipher, the key expansion and the equivalent inverse cipher as sections 5.1, 5.2 and
    5.3.5 of FIPS 197 define them, and the proof that the inverse cipher undoes the cipher. */
module Fips197 {
  import opened AesTables
  import opened AesField
  import opened AesRows

  /** A state holds four columns of four bytes, row 0 in the most significant byte. */
  datatype State = State(c0: bv32, c1: bv32, c2: bv32, c3: bv32)

  function SubWord(w: bv32): bv32 { Word(S(Byte0(w)), S(Byte1(w)), S(Byte2(w)), S(Byte3(w))) }
  function InvSubWord(w: bv32): bv32 { Word(Si(Byte0(w)), Si(Byte1(w)), Si(Byte2(w)), Si(Byte3(w))) }

  /** The column that takes row r from the r-th of its arguments. */
  function Diagonal(w0: bv32, w1: bv32, w2: bv32, w3: bv32): bv32 {
    Word(Byte0(w0), Byte1(w1), Byte2(w2), Byte3(w3))
  }

  function SubBytes(s: State): State {
    State(SubWord(s.c0), SubWord(s.c1), SubWord(s.c2), SubWord(s.c3))
  }

  function InvSubBytes(s: State): State {
    State(InvSubWord(s.c0), InvSubWord(s.c1), InvSubWord(s.c2), InvSubWord(s.c3))
  }

  function ShiftRows(s: State): State {
    State(Diagonal(s.c0, s.c1, s.c2, s.c3), Diagonal(s.c1, s.c2, s.c3, s.c0),
          Diagonal(s.c2, s.c3, s.c0, s.c1), Diagonal(s.c3, s.c0, s.c1, s.c2))
  }

  function InvShiftRows(s: State): State {
    State(Diagonal(s.c0, s.c3, s.c2, s.c1), Diagonal(s.c1, s.c0, s.c3, s.c2),
          Diagonal(s.c2, s.c1, s.c0, s.c3), Diagonal(s.c3, s.c2, s.c1, s.c0))
  }

  /** Section 5.1.2: row r of column c comes from column c + r, and section 5.3.1: it goes back there. */
  lemma ShiftRowsShifts(s: State)
    ensures var n := ShiftRows(s);
      && Byte0(n.c0) == Byte0(s.c0) && Byte0(n.c1) == Byte0(s.c1)
      && Byte0(n.c2) == Byte0(s.c2) && Byte0(n.c3) == Byte0(s.c3)
    ensures var n := ShiftRows(s);
      && Byte1(n.c0) == Byte1(s.c1) && Byte1(n.c1) == Byte1(s.c2)
      && Byte1(n.c2) == Byte1(s.c3) && Byte1(n.c3) == Byte1(s.c0)
    ensures var n := ShiftRows(s);
      && Byte2(n.c0) == Byte2(s.c2) && Byte2(n.c1) == Byte2(s.c3)
      && Byte2(n.c2) == Byte2(s.c0) && Byte2(n.c3) == Byte2(s.c1)
    ensures var n := ShiftRows(s);
      && Byte3(n.c0) == Byte3(s.c3) && Byte3(n.c1) == Byte3(s.c0)
      && Byte3(n.c2) == Byte3(s.c1) && Byte3(n.c3) == Byte3(s.c2)
    ensures var n := InvShiftRows(s);
      && Byte0(n.c0) == Byte0(s.c0) && Byte0(n.c1) == Byte0(s.c1)
      && Byte0(n.c2) == Byte0(s.c2) && Byte0(n.c3) == Byte0(s.c3)
    ensures var n := InvShiftRows(s);
      && Byte1(n.c0) == Byte1(s.c3) && Byte1(n.c1) == Byte1(s.c0)
      && Byte1(n.c2) == Byte1(s.c1) && Byte1(n.c3) == Byte1(s.c2)
    ensures var n := InvShiftRows(s);
      && Byte2(n.c0) == Byte2(s.c2) && Byte2(n.c1) == Byte2(s.c3)
      && Byte2(n.c2) == Byte2(s.c0) && Byte2(n.c3) == Byte2(s.c1)
    ensures var n := InvShiftRows(s);
      && Byte3(n.c0) == Byte3(s.c1) && Byte3(n.c1) == Byte3(s.c2)
      && Byte3(n.c2) == Byte3(s.c3) && Byte3(n.c3) == Byte3(s.c0)
  {
    hide Word, Byte0, Byte1, Byte2, Byte3, Diagonal;
    BytesOfDiagonal(s.c0, s.c1, s.c2, s.c3);
    BytesOfDiagonal(s.c1, s.c2, s.c3, s.c0);
    BytesOfDiagonal(s.c2, s.c3, s.c0, s.c1);
    BytesOfDiagonal(s.c3, s.c0, s.c1, s.c2);
    BytesOfDiagonal(s.c0, s.c3, s.c2, s.c1);
    BytesOfDiagonal(s.c1, s.c0, s.c3, s.c2);
    BytesOfDiagonal(s.c2, s.c1, s.c0, s.c3);
    BytesOfDiagonal(s.c3, s.c2, s.c1, s.c0);
  }

  function MixColumns(s: State): State {
    State(MixColumn(s.c0), MixColumn(s.c1), MixColumn(s.c2), MixColumn(s.c3))
  }

  function InvMixColumns(s: State): State {
    State(InvMixColumn(s.c0), InvMixColumn(s.c1), InvMixColumn(s.c2), InvMixColumn(s.c3))
  }

  function AddRoundKey(s: State, k: State): State {
    State(Xor(s.c0, k.c0), Xor(s.c1, k.c1), Xor(s.c2, k.c2), Xor(s.c3, k.c3))
  }

  /** Words 4r to 4r+3 of a key schedule. */
  function RoundKey(w: seq<bv32>, r: nat): State
    requires 4 * r + 4 <= |w|
  {
    State(w[4 * r], w[4 * r + 1], w[4 * r + 2], w[4 * r + 3])
  }

  // ---------- Section 5.1: Cipher ----------

  /** The state after the initial AddRoundKey and `n` full rounds. */
  function Rounds(input: State, w: seq<bv32>, n: nat): State
    requires 4 * n + 4 <= |w|
  {
    if n == 0 then
      AddRoundKey(input, RoundKey(w, 0))
    else
      AddRoundKey(MixColumns(ShiftRows(SubBytes(Rounds(input, w, n - 1)))), RoundKey(w, n))
  }

  function Cipher(input: State, w: seq<bv32>, nr: nat): State
    requires 1 <= nr && 4 * nr + 4 <= |w|
  {
    AddRoundKey(ShiftRows(SubBytes(Rounds(input, w, nr - 1))), RoundKey(w, nr))
  }

  // ---------- Section 5.3.5: EqInvCipher ----------

  function InvRounds(input: State, dw: seq<bv32>, n: nat): State
    requires 4 * n + 4 <= |dw|
  {
    if n == 0 then
      AddRoundKey(input, RoundKey(dw, 0))
    else
      AddRoundKey(InvMixColumns(InvShiftRows(InvSubBytes(InvRounds(input, dw, n - 1)))), RoundKey(dw, n))
  }

  function EqInvCipher(input: State, dw: seq<bv32>, nr: nat): State
    requires 1 <= nr && 4 * nr + 4 <= |dw|
  {
    AddRoundKey(InvShiftRows(InvSubBytes(InvRounds(input, dw, nr - 1))), RoundKey(dw, nr))
  }

  /** `dw` is the schedule of the equivalent inverse cipher for `w`: the round keys in the
      opposite order, all but the first and the last put through InvMixColumns. */
  ghost predicate InverseSchedule(w: seq<bv32>, dw: seq<bv32>, nr: nat) {
    && 4 * nr + 4 <= |w| && 4 * nr + 4 <= |dw|
    && RoundKey(dw, 0) == RoundKey(w, nr)
    && RoundKey(dw, nr) == RoundKey(w, 0)
    && forall r :: 0 < r < nr ==> RoundKey(dw, r) == InvMixColumns(RoundKey(w, nr - r))
  }

  // ---------- Each step is undone by its inverse ----------

  lemma InvSubWordSubWord(w: bv32)
    ensures InvSubWord(SubWord(w)) == w
  {
    hide S, Si, Word, Byte0, Byte1, Byte2, Byte3;
    BytesOfWord(S(Byte0(w)), S(Byte1(w)), S(Byte2(w)), S(Byte3(w)));
    SiS(Byte0(w));
    SiS(Byte1(w));
    SiS(Byte2(w));
    SiS(Byte3(w));
    WordOfBytes(w);
  }

  lemma InvSubBytesSubBytes(s: State)
    ensures InvSubBytes(SubBytes(s)) == s
  {
    hide SubWord, InvSubWord;
    InvSubWordSubWord(s.c0);
    InvSubWordSubWord(s.c1);
    InvSubWordSubWord(s.c2);
    InvSubWordSubWord(s.c3);
  }

  lemma BytesOfDiagonal(w0: bv32, w1: bv32, w2: bv32, w3: bv32)
    ensures Byte0(Diagonal(w0, w1, w2, w3)) == Byte0(w0)
    ensures Byte1(Diagonal(w0, w1, w2, w3)) == Byte1(w1)
    ensures Byte2(Diagonal(w0, w1, w2, w3)) == Byte2(w2)
    ensures Byte3(Diagonal(w0, w1, w2, w3)) == Byte3(w3)
  {
    hide Word, Byte0, Byte1, Byte2, Byte3;
    BytesOfWord(Byte0(w0), Byte1(w1), Byte2(w2), Byte3(w3));
  }

  lemma InvShiftRowsShiftRows(s: State)
    ensures InvShiftRows(ShiftRows(s)) == s
  {
    hide Word, Byte0, Byte1, Byte2, Byte3;
    BytesOfDiagonal(s.c0, s.c1, s.c2, s.c3);
    BytesOfDiagonal(s.c1, s.c2, s.c3, s.c0);
    BytesOfDiagonal(s.c2, s.c3, s.c0, s.c1);
    BytesOfDiagonal(s.c3, s.c0, s.c1, s.c2);
    WordOfBytes(s.c0);
    WordOfBytes(s.c1);
    WordOfBytes(s.c2);
    WordOfBytes(s.c3);
  }

  lemma InvMixColumnsMixColumns(s: State)
    ensures InvMixColumns(MixColumns(s)) == s
  {
    hide MixColumn, InvMixColumn;
    InvMixColumnMixColumn(s.c0);
    InvMixColumnMixColumn(s.c1);
    InvMixColumnMixColumn(s.c2);
    InvMixColumnMixColumn(s.c3);
  }

  lemma InvMixColumnsAddRoundKey(s: State, k: State)
    ensures InvMixColumns(AddRoundKey(s, k)) == AddRoundKey(InvMixColumns(s), InvMixColumns(k))
  {
    hide Xor, InvMixColumn;
    InvMixColumnXor(s.c0, k.c0);
    InvMixColumnXor(s.c1, k.c1);
    InvMixColumnXor(s.c2, k.c2);
    InvMixColumnXor(s.c3, k.c3);
  }

  lemma AddRoundKeyTwice(s: State, k: State)
    ensures AddRoundKey(AddRoundKey(s, k), k) == s
  {
    hide Xor;
    XorTwice(s.c0, k.c0);
    XorTwice(s.c1, k.c1);
    XorTwice(s.c2, k.c2);
    XorTwice(s.c3, k.c3);
  }

  /** InvSubBytes and InvShiftRows commute, so the pair undoes SubBytes and ShiftRows. */
  lemma InvSubBytesInvShiftRows(s: State)
    ensures InvShiftRows(InvSubBytes(ShiftRows(SubBytes(s)))) == s
  {
    hide SubBytes, InvSubBytes, ShiftRows, InvShiftRows;
    var t := SubBytes(s);
    assert InvSubBytes(ShiftRows(t)) == ShiftRows(InvSubBytes(t)) by { InvSubBytesCommutes(t); }
    InvSubBytesSubBytes(s);
    InvShiftRowsShiftRows(s);
  }

  lemma InvSubDiagonal(w0: bv32, w1: bv32, w2: bv32, w3: bv32)
    ensures InvSubWord(Diagonal(w0, w1, w2, w3))
         == Diagonal(InvSubWord(w0), InvSubWord(w1), InvSubWord(w2), InvSubWord(w3))
  {
    hide Si, Word, Byte0, Byte1, Byte2, Byte3, Diagonal;
    BytesOfDiagonal(w0, w1, w2, w3);
    assert Diagonal(InvSubWord(w0), InvSubWord(w1), InvSubWord(w2), InvSubWord(w3))
        == Word(Si(Byte0(w0)), Si(Byte1(w1)), Si(Byte2(w2)), Si(Byte3(w3))) by {
      DiagonalOfWords(Si(Byte0(w0)), Si(Byte1(w0)), Si(Byte2(w0)), Si(Byte3(w0)),
                      Si(Byte0(w1)), Si(Byte1(w1)), Si(Byte2(w1)), Si(Byte3(w1)),
                      Si(Byte0(w2)), Si(Byte1(w2)), Si(Byte2(w2)), Si(Byte3(w2)),
                      Si(Byte0(w3)), Si(Byte1(w3)), Si(Byte2(w3)), Si(Byte3(w3)));
    }
  }

  lemma DiagonalOfWords(a0: bv8, a1: bv8, a2: bv8, a3: bv8, b0: bv8, b1: bv8, b2: bv8, b3: bv8,
                        c0: bv8, c1: bv8, c2: bv8, c3: bv8, d0: bv8, d1: bv8, d2: bv8, d3: bv8)
    ensures Diagonal(Word(a0, a1, a2, a3), Word(b0, b1, b2, b3), Word(c0, c1, c2, c3), Word(d0, d1, d2, d3))
         == Word(a0, b1, c2, d3)
  {
    hide Word, Byte0, Byte1, Byte2, Byte3;
    BytesOfWord(a0, a1, a2, a3);
    BytesOfWord(b0, b1, b2, b3);
    BytesOfWord(c0, c1, c2, c3);
    BytesOfWord(d0, d1, d2, d3);
  }

  lemma InvSubBytesCommutes(s: State)
    ensures InvSubBytes(ShiftRows(s)) == ShiftRows(InvSubBytes(s))
  {
    hide InvSubWord, Diagonal;
    InvSubDiagonal(s.c0, s.c1, s.c2, s.c3);
    InvSubDiagonal(s.c1, s.c2, s.c3, s.c0);
    InvSubDiagonal(s.c2, s.c3, s.c0, s.c1);
    InvSubDiagonal(s.c3, s.c0, s.c1, s.c2);
  }

  // ---------- The inverse cipher undoes the cipher ----------

  /** After n inverse rounds the state is where the cipher stood just before MixColumns of
      round nr - n. */
  lemma {:induction false} InverseRounds(input: State, w: seq<bv32>, dw: seq<bv32>, nr: nat, n: nat)
    requires n < nr && InverseSchedule(w, dw, nr)
    ensures InvRounds(Cipher(input, w, nr), dw, n) == ShiftRows(SubBytes(Rounds(input, w, nr - 1 - n)))
  {
    hide SubBytes, ShiftRows, MixColumns, InvSubBytes, InvShiftRows, InvMixColumns, AddRoundKey, RoundKey;
    if n == 0 {
      AddRoundKeyTwice(ShiftRows(SubBytes(Rounds(input, w, nr - 1))), RoundKey(w, nr));
    } else {
      InverseRounds(input, w, dw, nr, n - 1);
      var before := ShiftRows(SubBytes(Rounds(input, w, nr - 1 - n)));
      var k := RoundKey(w, nr - n);
      assert Rounds(input, w, nr - n) == AddRoundKey(MixColumns(before), k);
      InvSubBytesInvShiftRows(Rounds(input, w, nr - n));
      InvMixColumnsAddRoundKey(MixColumns(before), k);
      InvMixColumnsMixColumns(before);
      AddRoundKeyTwice(before, InvMixColumns(k));
    }
  }

  /** The equivalent inverse cipher undoes the cipher for every block and every schedule. */
  lemma EqInvCipherInvertsCipher(input: State, w: seq<bv32>, dw: seq<bv32>, nr: nat)
    requires 1 <= nr && InverseSchedule(w, dw, nr)
    ensures EqInvCipher(Cipher(input, w, nr), dw, nr) == input
  {
    hide SubBytes, ShiftRows, MixColumns, InvSubBytes, InvShiftRows, InvMixColumns, AddRoundKey, RoundKey;
    InverseRounds(input, w, dw, nr, nr - 1);
    InvSubBytesInvShiftRows(Rounds(input, w, 0));
    AddRoundKeyTwice(input, RoundKey(w, 0));
  }

  // ---------- Section 5.2: KeyExpansion ----------

  function RotWord(w: bv32): bv32 { Word(Byte1(w), Byte2(w), Byte3(w), Byte0(w)) }

  /** A cyclic shift by one byte to the left. */
  lemma RotWordRotates(w: bv32)
    ensures RotWord(w) == (w << 8) | (w >> 24)
  {}

  /** x^(i-1) in the field. */
  function RconByte(i: nat): bv8
    requires 1 <= i
  {
    if i == 1 then 0x01 else Xtime(RconByte(i - 1))
  }

  function Rcon(i: nat): bv32
    requires 1 <= i
  {
    Word(RconByte(i), 0, 0, 0)
  }

  /** Word i of the schedule that KeyExpansion derives from a key of Nk words. */
  function KeyWord(key: seq<bv32>, i: nat): bv32
    requires 0 < |key|
  {
    var nk := |key|;
    if i < nk then
      key[i]
    else
      var temp := KeyWord(key, i - 1);
      Xor(KeyWord(key, i - nk),
          if i % nk == 0 then Xor(SubWord(RotWord(temp)), Rcon(i / nk))
          else if nk > 6 && i % nk == 4 then SubWord(temp)
          else temp)
  }

  lemma XorOfWords(a0: bv8, a1: bv8, a2: bv8, a3: bv8, b0: bv8, b1: bv8, b2: bv8, b3: bv8)
    ensures Xor(Word(a0, a1, a2, a3), Xor(Word(b0, b1, b2, b3), Word(1, 0, 0, 0))) ==
      Word(Add(Add(a0, b0), 1), Add(a1, b1), Add(a2, b2), Add(a3, b3))
  {}

  /** The first word that is derived from a key, byte by byte. */
  lemma FirstDerivedWord(key: seq<bv32>)
    requires |key| in {4, 6, 8}
    ensures var first, last := key[0], key[|key| - 1];
      KeyWord(key, |key|) == Word(Add(Add(Byte0(first), S(Byte1(last))), 1), Add(Byte1(first), S(Byte2(last))),
                                  Add(Byte2(first), S(Byte3(last))), Add(Byte3(first), S(Byte0(last))))
  {
    hide SubWord, RotWord, Rcon, Xor, S, Word, Byte0, Byte1, Byte2, Byte3, Add;
    var nk := |key|;
    assert nk % nk == 0 && nk / nk == 1;
    assert KeyWord(key, nk - 1) == key[nk - 1] && KeyWord(key, 0) == key[0];
    DerivedBytes(key[0], key[nk - 1]);
  }

  lemma FirstRcon()
    ensures Rcon(1) == Word(1, 0, 0, 0)
  {}

  lemma DerivedBytes(first: bv32, last: bv32)
    ensures Xor(first, Xor(SubWord(RotWord(last)), Rcon(1))) ==
      Word(Add(Add(Byte0(first), S(Byte1(last))), 1), Add(Byte1(first), S(Byte2(last))),
           Add(Byte2(first), S(Byte3(last))), Add(Byte3(first), S(Byte0(last))))
  {
    hide S, Word, Byte0, Byte1, Byte2, Byte3, Rcon, Xor, Add;
    FirstRcon();
    BytesOfWord(Byte1(last), Byte2(last), Byte3(last), Byte0(last));
    WordOfBytes(first);
    XorOfWords(Byte0(first), Byte1(first), Byte2(first), Byte3(first),
               S(Byte1(last)), S(Byte2(last)), S(Byte3(last)), S(Byte0(last)));
  }

  /** The number of rounds for a key of nk words. */
  function RoundsFor(nk: nat): nat { nk + 6 }
}
