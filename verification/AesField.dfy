/** Bytes, words and GF(2^8) arithmetic (sections 4.1 and 4.2 of FIPS 197), and the
    matrices of MixColumns and its inverse. */
module AesField {
  function Byte0(w: bv32): bv8 { (w >> 24) as bv8 }
  function Byte1(w: bv32): bv8 { ((w >> 16) & 0xff) as bv8 }
  function Byte2(w: bv32): bv8 { ((w >> 8) & 0xff) as bv8 }
  function Byte3(w: bv32): bv8 { (w & 0xff) as bv8 }

  /** The word whose most significant byte is `b0`: GETU32 of the four bytes. */
  function Word(b0: bv8, b1: bv8, b2: bv8, b3: bv8): bv32 {
    ((b0 as bv32) << 24) ^ ((b1 as bv32) << 16) ^ ((b2 as bv32) << 8) ^ (b3 as bv32)
  }

  lemma WordOfBytes(w: bv32)
    ensures Word(Byte0(w), Byte1(w), Byte2(w), Byte3(w)) == w
  {}

  lemma BytesOfWord(b0: bv8, b1: bv8, b2: bv8, b3: bv8)
    ensures Byte0(Word(b0, b1, b2, b3)) == b0
    ensures Byte1(Word(b0, b1, b2, b3)) == b1
    ensures Byte2(Word(b0, b1, b2, b3)) == b2
    ensures Byte3(Word(b0, b1, b2, b3)) == b3
  {}

  /** Addition of words is exclusive or. */
  function Xor(v: bv32, w: bv32): bv32 { v ^ w }

  lemma XorTwice(v: bv32, w: bv32)
    ensures Xor(Xor(v, w), w) == v
  {
    assert (v ^ w) ^ w == v;
  }

  /** Addition in the field is exclusive or. */
  function Add(a: bv8, b: bv8): bv8 { a ^ b }

  function Sum(a: bv8, b: bv8, c: bv8, d: bv8): bv8 { a ^ b ^ c ^ d }

  /** Multiplication by x, section 4.2.1: shift, then reduce by {1b} if the top bit fell out. */
  function Xtime(b: bv8): bv8 { (b << 1) ^ ((b >> 7) * 0x1b) }

  function Mul3(b: bv8): bv8 { Add(Xtime(b), b) }
  function Mul9(b: bv8): bv8 { Add(Xtime(Xtime(Xtime(b))), b) }
  function MulB(b: bv8): bv8 { Add(Xtime(Xtime(Xtime(b))), Mul3(b)) }
  function MulD(b: bv8): bv8 { Add(Xtime(Xtime(Xtime(b))), Add(Xtime(Xtime(b)), b)) }
  function MulE(b: bv8): bv8 { Add(Xtime(Xtime(Xtime(b))), Add(Xtime(Xtime(b)), Xtime(b))) }

  // ---------- The field operations are linear ----------

  lemma XtimeAdd(a: bv8, b: bv8)
    ensures Xtime(Add(a, b)) == Add(Xtime(a), Xtime(b))
  {}

  lemma Regroup(a: bv8, b: bv8, c: bv8, d: bv8)
    ensures Add(Add(a, b), Add(c, d)) == Add(Add(a, c), Add(b, d))
  {
    assert (a ^ b) ^ (c ^ d) == (a ^ c) ^ (b ^ d);
  }

  /** All of the constant multiplications that MixColumns and its inverse use distribute over Add. */
  lemma MulAdd(a: bv8, b: bv8)
    ensures Mul3(Add(a, b)) == Add(Mul3(a), Mul3(b))
    ensures Mul9(Add(a, b)) == Add(Mul9(a), Mul9(b))
    ensures MulB(Add(a, b)) == Add(MulB(a), MulB(b))
    ensures MulD(Add(a, b)) == Add(MulD(a), MulD(b))
    ensures MulE(Add(a, b)) == Add(MulE(a), MulE(b))
  {
    hide Xtime, Add;
    var a1, b1 := Xtime(a), Xtime(b);
    var a2, b2 := Xtime(a1), Xtime(b1);
    var a3, b3 := Xtime(a2), Xtime(b2);
    XtimeAdd(a, b);
    XtimeAdd(a1, b1);
    XtimeAdd(a2, b2);
    Regroup(a1, b1, a, b);
    Regroup(a3, b3, a, b);
    Regroup(a3, b3, Mul3(a), Mul3(b));
    Regroup(a2, b2, a, b);
    Regroup(a3, b3, Add(a2, a), Add(b2, b));
    Regroup(a2, b2, a1, b1);
    Regroup(a3, b3, Add(a2, a1), Add(b2, b1));
  }

  lemma SumAsAdds(a: bv8, b: bv8, c: bv8, d: bv8)
    ensures Sum(a, b, c, d) == Add(Add(Add(a, b), c), d)
  {}

  lemma MulSum(a: bv8, b: bv8, c: bv8, d: bv8)
    ensures Mul9(Sum(a, b, c, d)) == Sum(Mul9(a), Mul9(b), Mul9(c), Mul9(d))
    ensures MulB(Sum(a, b, c, d)) == Sum(MulB(a), MulB(b), MulB(c), MulB(d))
    ensures MulD(Sum(a, b, c, d)) == Sum(MulD(a), MulD(b), MulD(c), MulD(d))
    ensures MulE(Sum(a, b, c, d)) == Sum(MulE(a), MulE(b), MulE(c), MulE(d))
  {
    hide Xtime, Add, Sum, Mul9, MulB, MulD, MulE;
    SumAsAdds(a, b, c, d);
    SumAsAdds(Mul9(a), Mul9(b), Mul9(c), Mul9(d));
    SumAsAdds(MulB(a), MulB(b), MulB(c), MulB(d));
    SumAsAdds(MulD(a), MulD(b), MulD(c), MulD(d));
    SumAsAdds(MulE(a), MulE(b), MulE(c), MulE(d));
    MulAdd(Add(Add(a, b), c), d);
    MulAdd(Add(a, b), c);
    MulAdd(a, b);
  }

  // ---------- MixColumns on one column, section 5.1.3, and its inverse, section 5.3.3 ----------

  function MixRow(b0: bv8, b1: bv8, b2: bv8, b3: bv8): bv8 { Sum(Xtime(b0), Mul3(b1), b2, b3) }

  function InvMixRow(b0: bv8, b1: bv8, b2: bv8, b3: bv8): bv8 {
    Sum(MulE(b0), MulB(b1), MulD(b2), Mul9(b3))
  }

  function MixColumn(w: bv32): bv32 {
    var b0, b1, b2, b3 := Byte0(w), Byte1(w), Byte2(w), Byte3(w);
    Word(MixRow(b0, b1, b2, b3), MixRow(b1, b2, b3, b0), MixRow(b2, b3, b0, b1), MixRow(b3, b0, b1, b2))
  }

  function InvMixColumn(w: bv32): bv32 {
    var b0, b1, b2, b3 := Byte0(w), Byte1(w), Byte2(w), Byte3(w);
    Word(InvMixRow(b0, b1, b2, b3), InvMixRow(b1, b2, b3, b0),
         InvMixRow(b2, b3, b0, b1), InvMixRow(b3, b0, b1, b2))
  }

  /** The products of the rows of the two matrices: one on the diagonal and zero elsewhere. */
  lemma MatrixProduct(a: bv8)
    ensures Sum(MulE(Xtime(a)), MulB(a), MulD(a), Mul9(Mul3(a))) == a
    ensures Sum(MulE(Mul3(a)), MulB(Xtime(a)), MulD(a), Mul9(a)) == 0
    ensures Sum(MulE(a), MulB(Mul3(a)), MulD(Xtime(a)), Mul9(a)) == 0
    ensures Sum(MulE(a), MulB(a), MulD(Mul3(a)), Mul9(Xtime(a))) == 0
  {}

  lemma Transpose(a0: bv8, a1: bv8, a2: bv8, a3: bv8, b0: bv8, b1: bv8, b2: bv8, b3: bv8,
                  c0: bv8, c1: bv8, c2: bv8, c3: bv8, d0: bv8, d1: bv8, d2: bv8, d3: bv8)
    ensures Sum(Sum(a0, a1, a2, a3), Sum(b0, b1, b2, b3), Sum(c0, c1, c2, c3), Sum(d0, d1, d2, d3))
         == Sum(Sum(a0, b0, c0, d0), Sum(a1, b1, c1, d1), Sum(a2, b2, c2, d2), Sum(a3, b3, c3, d3))
  {
    hide Add, Sum;
    SumAsAdds(Sum(a0, a1, a2, a3), Sum(b0, b1, b2, b3), Sum(c0, c1, c2, c3), Sum(d0, d1, d2, d3));
    RegroupSum(a0, a1, a2, a3, b0, b1, b2, b3);
    RegroupSum(Add(a0, b0), Add(a1, b1), Add(a2, b2), Add(a3, b3), c0, c1, c2, c3);
    RegroupSum(Add(Add(a0, b0), c0), Add(Add(a1, b1), c1), Add(Add(a2, b2), c2), Add(Add(a3, b3), c3), d0, d1, d2, d3);
    SumAsAdds(a0, b0, c0, d0);
    SumAsAdds(a1, b1, c1, d1);
    SumAsAdds(a2, b2, c2, d2);
    SumAsAdds(a3, b3, c3, d3);
  }

  lemma SumOfOne(a: bv8)
    ensures Sum(a, 0, 0, 0) == a
  {}

  lemma Rotated(a: bv8, b: bv8, c: bv8, d: bv8)
    ensures Sum(a, b, c, d) == Sum(d, a, b, c)
  {
    calc { Sum(a, b, c, d); a ^ b ^ c ^ d; d ^ a ^ b ^ c; Sum(d, a, b, c); }
  }

  lemma InvMixRowMixRow(a0: bv8, a1: bv8, a2: bv8, a3: bv8)
    ensures InvMixRow(MixRow(a0, a1, a2, a3), MixRow(a1, a2, a3, a0),
                      MixRow(a2, a3, a0, a1), MixRow(a3, a0, a1, a2)) == a0
  {
    hide Xtime, Sum, Mul3, Mul9, MulB, MulD, MulE;
    Rotated(Xtime(a1), Mul3(a2), a3, a0);
    Rotated(Xtime(a2), Mul3(a3), a0, a1);
    Rotated(a1, Xtime(a2), Mul3(a3), a0);
    Rotated(Mul3(a0), a1, a2, Xtime(a3));
    MulSum(Xtime(a0), Mul3(a1), a2, a3);
    MulSum(a0, Xtime(a1), Mul3(a2), a3);
    MulSum(a0, a1, Xtime(a2), Mul3(a3));
    MulSum(Mul3(a0), a1, a2, Xtime(a3));
    Transpose(MulE(Xtime(a0)), MulE(Mul3(a1)), MulE(a2), MulE(a3),
              MulB(a0), MulB(Xtime(a1)), MulB(Mul3(a2)), MulB(a3),
              MulD(a0), MulD(a1), MulD(Xtime(a2)), MulD(Mul3(a3)),
              Mul9(Mul3(a0)), Mul9(a1), Mul9(a2), Mul9(Xtime(a3)));
    MatrixProduct(a0);
    MatrixProduct(a1);
    MatrixProduct(a2);
    MatrixProduct(a3);
    SumOfOne(a0);
  }

  lemma InvMixColumnMixColumn(w: bv32)
    ensures InvMixColumn(MixColumn(w)) == w
  {
    hide Word, Byte0, Byte1, Byte2, Byte3, MixRow, InvMixRow;
    var b0, b1, b2, b3 := Byte0(w), Byte1(w), Byte2(w), Byte3(w);
    BytesOfWord(MixRow(b0, b1, b2, b3), MixRow(b1, b2, b3, b0), MixRow(b2, b3, b0, b1), MixRow(b3, b0, b1, b2));
    InvMixRowMixRow(b0, b1, b2, b3);
    InvMixRowMixRow(b1, b2, b3, b0);
    InvMixRowMixRow(b2, b3, b0, b1);
    InvMixRowMixRow(b3, b0, b1, b2);
    WordOfBytes(w);
  }

  lemma RegroupSum(a0: bv8, a1: bv8, a2: bv8, a3: bv8, b0: bv8, b1: bv8, b2: bv8, b3: bv8)
    ensures Sum(Add(a0, b0), Add(a1, b1), Add(a2, b2), Add(a3, b3)) == Add(Sum(a0, a1, a2, a3), Sum(b0, b1, b2, b3))
  {
    hide Add, Sum;
    SumAsAdds(Add(a0, b0), Add(a1, b1), Add(a2, b2), Add(a3, b3));
    SumAsAdds(a0, a1, a2, a3);
    SumAsAdds(b0, b1, b2, b3);
    Regroup(a0, b0, a1, b1);
    Regroup(Add(a0, a1), Add(b0, b1), a2, b2);
    Regroup(Add(Add(a0, a1), a2), Add(Add(b0, b1), b2), a3, b3);
  }

  lemma InvMixRowAdd(a0: bv8, a1: bv8, a2: bv8, a3: bv8, b0: bv8, b1: bv8, b2: bv8, b3: bv8)
    ensures InvMixRow(Add(a0, b0), Add(a1, b1), Add(a2, b2), Add(a3, b3))
         == Add(InvMixRow(a0, a1, a2, a3), InvMixRow(b0, b1, b2, b3))
  {
    hide Add, Sum, Mul9, MulB, MulD, MulE;
    MulAdd(a0, b0);
    MulAdd(a1, b1);
    MulAdd(a2, b2);
    MulAdd(a3, b3);
    RegroupSum(MulE(a0), MulB(a1), MulD(a2), Mul9(a3), MulE(b0), MulB(b1), MulD(b2), Mul9(b3));
  }

  lemma XorIs(v: bv32, w: bv32)
    ensures Xor(v, w) == v ^ w
  {}

  lemma BytesOfXor(v: bv32, w: bv32)
    ensures Byte0(v ^ w) == Add(Byte0(v), Byte0(w))
    ensures Byte1(v ^ w) == Add(Byte1(v), Byte1(w))
    ensures Byte2(v ^ w) == Add(Byte2(v), Byte2(w))
    ensures Byte3(v ^ w) == Add(Byte3(v), Byte3(w))
  {}

  lemma WordOfSums(a0: bv8, a1: bv8, a2: bv8, a3: bv8, b0: bv8, b1: bv8, b2: bv8, b3: bv8)
    ensures Word(Add(a0, b0), Add(a1, b1), Add(a2, b2), Add(a3, b3)) == Xor(Word(a0, a1, a2, a3), Word(b0, b1, b2, b3))
  {}

  /** InvMixColumns is linear: this is what lets the equivalent inverse cipher of section 5.3.5
      move it from the state to the round key. */
  lemma InvMixColumnXor(v: bv32, w: bv32)
    ensures InvMixColumn(Xor(v, w)) == Xor(InvMixColumn(v), InvMixColumn(w))
  {
    hide Xor, Add, Word, Byte0, Byte1, Byte2, Byte3, InvMixRow;
    var a0, a1, a2, a3 := Byte0(v), Byte1(v), Byte2(v), Byte3(v);
    var b0, b1, b2, b3 := Byte0(w), Byte1(w), Byte2(w), Byte3(w);
    XorIs(v, w);
    BytesOfXor(v, w);
    InvMixRowAdd(a0, a1, a2, a3, b0, b1, b2, b3);
    InvMixRowAdd(a1, a2, a3, a0, b1, b2, b3, b0);
    InvMixRowAdd(a2, a3, a0, a1, b2, b3, b0, b1);
    InvMixRowAdd(a3, a0, a1, a2, b3, b0, b1, b2);
    WordOfSums(InvMixRow(a0, a1, a2, a3), InvMixRow(a1, a2, a3, a0), InvMixRow(a2, a3, a0, a1),
               InvMixRow(a3, a0, a1, a2),
               InvMixRow(b0, b1, b2, b3), InvMixRow(b1, b2, b3, b0), InvMixRow(b2, b3, b0, b1),
               InvMixRow(b3, b0, b1, b2));
  }
}
