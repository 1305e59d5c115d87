/** The table-driven cipher of vmm/aes.c: key schedules expanded and inverted in place, and the
    two-rounds-per-iteration loops, each proved equal to its definition in FIPS 197. */
module Aes {
  import opened AesTables
  import opened AesField
  import opened AesRows
  import opened Fips197
  import opened Buffers

  const MAX_SCHEDULE := 60

  /** AES_KEY: room for the round keys of fourteen rounds. */
  class AesKey {
    const rdKey: array<bv32>
    var rounds: int

    ghost predicate Valid()
      reads this, rdKey
    {
      rdKey.Length == MAX_SCHEDULE && rounds in {10, 12, 14}
    }

    ghost function Schedule(): seq<bv32>
      reads this, rdKey
    {
      rdKey[..]
    }

    constructor ()
      ensures rdKey.Length == MAX_SCHEDULE && fresh(rdKey)
    {
      rdKey := new bv32[MAX_SCHEDULE];
      rounds := 0;
    }
  }

  // ---------- Table lookups as the source combines them ----------

  function Te4(x: bv8): bv32 { Word(S(x), S(x), S(x), S(x)) }
  function Td4(x: bv8): bv32 { Word(Si(x), Si(x), Si(x), Si(x)) }

  function TeWord(x0: bv8, x1: bv8, x2: bv8, x3: bv8): bv32 { Te0(x0) ^ Te1(x1) ^ Te2(x2) ^ Te3(x3) }
  function TdWord(x0: bv8, x1: bv8, x2: bv8, x3: bv8): bv32 { Td0(x0) ^ Td1(x1) ^ Td2(x2) ^ Td3(x3) }

  function Te4Word(x0: bv8, x1: bv8, x2: bv8, x3: bv8): bv32 {
    (Te4(x0) & 0xff000000) ^ (Te4(x1) & 0x00ff0000) ^ (Te4(x2) & 0x0000ff00) ^ (Te4(x3) & 0x000000ff)
  }

  function Td4Word(x0: bv8, x1: bv8, x2: bv8, x3: bv8): bv32 {
    (Td4(x0) & 0xff000000) ^ (Td4(x1) & 0x00ff0000) ^ (Td4(x2) & 0x0000ff00) ^ (Td4(x3) & 0x000000ff)
  }

  lemma MaskedWord(a: bv8, b: bv8, c: bv8, d: bv8)
    ensures (Word(a, a, a, a) & 0xff000000) ^ (Word(b, b, b, b) & 0x00ff0000)
          ^ (Word(c, c, c, c) & 0x0000ff00) ^ (Word(d, d, d, d) & 0x000000ff) == Word(a, b, c, d)
  {}

  lemma Te4WordIs(x0: bv8, x1: bv8, x2: bv8, x3: bv8)
    ensures Te4Word(x0, x1, x2, x3) == Word(S(x0), S(x1), S(x2), S(x3))
  {
    hide S, Word;
    MaskedWord(S(x0), S(x1), S(x2), S(x3));
  }

  lemma Td4WordIs(x0: bv8, x1: bv8, x2: bv8, x3: bv8)
    ensures Td4Word(x0, x1, x2, x3) == Word(Si(x0), Si(x1), Si(x2), Si(x3))
  {
    hide Si, Word;
    MaskedWord(Si(x0), Si(x1), Si(x2), Si(x3));
  }

  // ---------- Rounds by table lookup ----------

  function TeRound(s: State, k: State): State {
    State(Xor(TeWord(Byte0(s.c0), Byte1(s.c1), Byte2(s.c2), Byte3(s.c3)), k.c0),
          Xor(TeWord(Byte0(s.c1), Byte1(s.c2), Byte2(s.c3), Byte3(s.c0)), k.c1),
          Xor(TeWord(Byte0(s.c2), Byte1(s.c3), Byte2(s.c0), Byte3(s.c1)), k.c2),
          Xor(TeWord(Byte0(s.c3), Byte1(s.c0), Byte2(s.c1), Byte3(s.c2)), k.c3))
  }

  function TeLastRound(s: State, k: State): State {
    State(Xor(Te4Word(Byte0(s.c0), Byte1(s.c1), Byte2(s.c2), Byte3(s.c3)), k.c0),
          Xor(Te4Word(Byte0(s.c1), Byte1(s.c2), Byte2(s.c3), Byte3(s.c0)), k.c1),
          Xor(Te4Word(Byte0(s.c2), Byte1(s.c3), Byte2(s.c0), Byte3(s.c1)), k.c2),
          Xor(Te4Word(Byte0(s.c3), Byte1(s.c0), Byte2(s.c1), Byte3(s.c2)), k.c3))
  }

  function TdRound(s: State, k: State): State {
    State(Xor(TdWord(Byte0(s.c0), Byte1(s.c3), Byte2(s.c2), Byte3(s.c1)), k.c0),
          Xor(TdWord(Byte0(s.c1), Byte1(s.c0), Byte2(s.c3), Byte3(s.c2)), k.c1),
          Xor(TdWord(Byte0(s.c2), Byte1(s.c1), Byte2(s.c0), Byte3(s.c3)), k.c2),
          Xor(TdWord(Byte0(s.c3), Byte1(s.c2), Byte2(s.c1), Byte3(s.c0)), k.c3))
  }

  function TdLastRound(s: State, k: State): State {
    State(Xor(Td4Word(Byte0(s.c0), Byte1(s.c3), Byte2(s.c2), Byte3(s.c1)), k.c0),
          Xor(Td4Word(Byte0(s.c1), Byte1(s.c0), Byte2(s.c3), Byte3(s.c2)), k.c1),
          Xor(Td4Word(Byte0(s.c2), Byte1(s.c1), Byte2(s.c0), Byte3(s.c3)), k.c2),
          Xor(Td4Word(Byte0(s.c3), Byte1(s.c2), Byte2(s.c1), Byte3(s.c0)), k.c3))
  }

  lemma DiagonalOfSub(w0: bv32, w1: bv32, w2: bv32, w3: bv32)
    ensures Diagonal(SubWord(w0), SubWord(w1), SubWord(w2), SubWord(w3))
         == Word(S(Byte0(w0)), S(Byte1(w1)), S(Byte2(w2)), S(Byte3(w3)))
  {
    hide S, Word, Byte0, Byte1, Byte2, Byte3, Diagonal;
    DiagonalOfWords(S(Byte0(w0)), S(Byte1(w0)), S(Byte2(w0)), S(Byte3(w0)),
                    S(Byte0(w1)), S(Byte1(w1)), S(Byte2(w1)), S(Byte3(w1)),
                    S(Byte0(w2)), S(Byte1(w2)), S(Byte2(w2)), S(Byte3(w2)),
                    S(Byte0(w3)), S(Byte1(w3)), S(Byte2(w3)), S(Byte3(w3)));
  }

  lemma TeColumns(w0: bv32, w1: bv32, w2: bv32, w3: bv32)
    ensures TeWord(Byte0(w0), Byte1(w1), Byte2(w2), Byte3(w3))
         == MixColumn(Diagonal(SubWord(w0), SubWord(w1), SubWord(w2), SubWord(w3)))
    ensures Te4Word(Byte0(w0), Byte1(w1), Byte2(w2), Byte3(w3))
         == Diagonal(SubWord(w0), SubWord(w1), SubWord(w2), SubWord(w3))
  {
    hide S, Word, Byte0, Byte1, Byte2, Byte3, Diagonal, SubWord, MixColumn, Te0, Te1, Te2, Te3, Te4Word;
    DiagonalOfSub(w0, w1, w2, w3);
    TeColumn(Byte0(w0), Byte1(w1), Byte2(w2), Byte3(w3));
    Te4WordIs(Byte0(w0), Byte1(w1), Byte2(w2), Byte3(w3));
  }

  lemma TdColumns(w0: bv32, w1: bv32, w2: bv32, w3: bv32)
    ensures TdWord(Byte0(w0), Byte1(w1), Byte2(w2), Byte3(w3))
         == InvMixColumn(Diagonal(InvSubWord(w0), InvSubWord(w1), InvSubWord(w2), InvSubWord(w3)))
    ensures Td4Word(Byte0(w0), Byte1(w1), Byte2(w2), Byte3(w3))
         == Diagonal(InvSubWord(w0), InvSubWord(w1), InvSubWord(w2), InvSubWord(w3))
  {
    hide Si, Word, Byte0, Byte1, Byte2, Byte3, InvMixColumn, Diagonal, Td0, Td1, Td2, Td3, Td4Word;
    InvSubDiagonal(w0, w1, w2, w3);
    BytesOfDiagonal(w0, w1, w2, w3);
    TdColumn(Byte0(w0), Byte1(w1), Byte2(w2), Byte3(w3));
    Td4WordIs(Byte0(w0), Byte1(w1), Byte2(w2), Byte3(w3));
  }

  /** A round of table lookups is SubBytes, ShiftRows, MixColumns and AddRoundKey; the last round
      leaves MixColumns out. */
  lemma TeRoundIsRound(s: State, k: State)
    ensures TeRound(s, k) == AddRoundKey(MixColumns(ShiftRows(SubBytes(s))), k)
    ensures TeLastRound(s, k) == AddRoundKey(ShiftRows(SubBytes(s)), k)
  {
    hide Xor, TeWord, Te4Word, Byte0, Byte1, Byte2, Byte3, SubWord, MixColumn, Diagonal;
    TeColumns(s.c0, s.c1, s.c2, s.c3);
    TeColumns(s.c1, s.c2, s.c3, s.c0);
    TeColumns(s.c2, s.c3, s.c0, s.c1);
    TeColumns(s.c3, s.c0, s.c1, s.c2);
  }

  lemma TdRoundIsRound(s: State, k: State)
    ensures TdRound(s, k) == AddRoundKey(InvMixColumns(InvShiftRows(InvSubBytes(s))), k)
    ensures TdLastRound(s, k) == AddRoundKey(InvShiftRows(InvSubBytes(s)), k)
  {
    hide Xor, TdWord, Td4Word, Byte0, Byte1, Byte2, Byte3, InvSubWord, InvMixColumn, Diagonal;
    TdColumns(s.c0, s.c3, s.c2, s.c1);
    TdColumns(s.c1, s.c0, s.c3, s.c2);
    TdColumns(s.c2, s.c1, s.c0, s.c3);
    TdColumns(s.c3, s.c2, s.c1, s.c0);
  }

  // ---------- Blocks of sixteen bytes ----------

  function GetU32(b: seq<bv8>, i: nat): bv32
    requires i + 4 <= |b|
  {
    Word(b[i], b[i + 1], b[i + 2], b[i + 3])
  }

  function PutU32(w: bv32): seq<bv8> { [Byte0(w), Byte1(w), Byte2(w), Byte3(w)] }

  function BlockState(b: seq<bv8>): State
    requires |b| == 16
  {
    State(GetU32(b, 0), GetU32(b, 4), GetU32(b, 8), GetU32(b, 12))
  }

  function StateBlock(s: State): (b: seq<bv8>)
    ensures |b| == 16
  {
    PutU32(s.c0) + PutU32(s.c1) + PutU32(s.c2) + PutU32(s.c3)
  }

  lemma PutGet(b0: bv8, b1: bv8, b2: bv8, b3: bv8)
    ensures PutU32(Word(b0, b1, b2, b3)) == [b0, b1, b2, b3]
  {
    hide Word, Byte0, Byte1, Byte2, Byte3;
    BytesOfWord(b0, b1, b2, b3);
  }

  lemma GetPut(w: bv32)
    ensures GetU32(PutU32(w), 0) == w
  {
    hide Word, Byte0, Byte1, Byte2, Byte3;
    WordOfBytes(w);
  }

  lemma StateBlockState(s: State)
    ensures BlockState(StateBlock(s)) == s
  {
    hide Word, Byte0, Byte1, Byte2, Byte3;
    GetPut(s.c0);
    GetPut(s.c1);
    GetPut(s.c2);
    GetPut(s.c3);
  }

  lemma BlockStateBlock(b: seq<bv8>)
    requires |b| == 16
    ensures StateBlock(BlockState(b)) == b
  {
    hide Word, Byte0, Byte1, Byte2, Byte3, PutU32;
    PutGet(b[0], b[1], b[2], b[3]);
    PutGet(b[4], b[5], b[6], b[7]);
    PutGet(b[8], b[9], b[10], b[11]);
    PutGet(b[12], b[13], b[14], b[15]);
  }

  /** What AES_encrypt computes for a block: the Cipher of section 5.1. */
  function EncryptBlock(b: seq<bv8>, w: seq<bv32>, nr: nat): (c: seq<bv8>)
    requires |b| == 16 && 1 <= nr && 4 * nr + 4 <= |w|
    ensures |c| == 16
  {
    StateBlock(Cipher(BlockState(b), w, nr))
  }

  /** What AES_decrypt computes for a block: the EqInvCipher of section 5.3.5. */
  function DecryptBlock(b: seq<bv8>, dw: seq<bv32>, nr: nat): (c: seq<bv8>)
    requires |b| == 16 && 1 <= nr && 4 * nr + 4 <= |dw|
    ensures |c| == 16
  {
    StateBlock(EqInvCipher(BlockState(b), dw, nr))
  }

  /** Decryption inverts encryption for every block and every pair of matching schedules. */
  lemma DecryptInvertsEncrypt(b: seq<bv8>, w: seq<bv32>, dw: seq<bv32>, nr: nat)
    requires |b| == 16 && 1 <= nr && InverseSchedule(w, dw, nr)
    ensures DecryptBlock(EncryptBlock(b, w, nr), dw, nr) == b
  {
    hide BlockState, StateBlock, Cipher, EqInvCipher, RoundKey;
    StateBlockState(Cipher(BlockState(b), w, nr));
    EqInvCipherInvertsCipher(BlockState(b), w, dw, nr);
    BlockStateBlock(b);
  }

  /** The rounds of AES_encrypt, two per iteration: exactly nr rounds of the Cipher. */
  method EncryptState(start: State, rk: seq<bv32>, nr: nat) returns (s: State)
    requires nr in {10, 12, 14} && 4 * nr + 4 <= |rk|
    ensures s == Cipher(start, rk, nr)
  {
    hide RoundKey, AddRoundKey, MixColumns, ShiftRows, SubBytes, TeRound, TeLastRound;
    s := AddRoundKey(start, RoundKey(rk, 0));
    var t: State;
    var r, n := nr / 2, 0;
    while true
      invariant 1 <= r && n + 2 * r == nr
      invariant s == Rounds(start, rk, n)
      decreases r
    {
      TeRoundIsRound(s, RoundKey(rk, n + 1));
      t := TeRound(s, RoundKey(rk, n + 1));
      n := n + 2;
      r := r - 1;
      if r == 0 {
        break;
      }
      TeRoundIsRound(t, RoundKey(rk, n));
      s := TeRound(t, RoundKey(rk, n));
    }
    TeRoundIsRound(t, RoundKey(rk, n));
    s := TeLastRound(t, RoundKey(rk, n));
  }

  /** The rounds of AES_decrypt, two per iteration. */
  method DecryptState(start: State, rk: seq<bv32>, nr: nat) returns (s: State)
    requires nr in {10, 12, 14} && 4 * nr + 4 <= |rk|
    ensures s == EqInvCipher(start, rk, nr)
  {
    hide RoundKey, AddRoundKey, InvMixColumns, InvShiftRows, InvSubBytes, TdRound, TdLastRound;
    s := AddRoundKey(start, RoundKey(rk, 0));
    var t: State;
    var r, n := nr / 2, 0;
    while true
      invariant 1 <= r && n + 2 * r == nr
      invariant s == InvRounds(start, rk, n)
      decreases r
    {
      TdRoundIsRound(s, RoundKey(rk, n + 1));
      t := TdRound(s, RoundKey(rk, n + 1));
      n := n + 2;
      r := r - 1;
      if r == 0 {
        break;
      }
      TdRoundIsRound(t, RoundKey(rk, n));
      s := TdRound(t, RoundKey(rk, n));
    }
    TdRoundIsRound(t, RoundKey(rk, n));
    s := TdLastRound(t, RoundKey(rk, n));
  }

  /** Encrypt one block. `input` and `out` may be the same array. */
  method Encrypt(input: array<bv8>, i: nat, out: array<bv8>, o: nat, key: AesKey)
    requires key.Valid() && i + 16 <= input.Length && o + 16 <= out.Length
    modifies out
    ensures out[..] == Splice(old(out[..]), o, EncryptBlock(old(input[i..i + 16]), key.Schedule(), key.rounds))
    ensures key.Schedule() == old(key.Schedule())
  {
    hide BlockState, StateBlock, Cipher;
    var rk := key.rdKey[..];
    var s := EncryptState(BlockState(input[i..i + 16]), rk, key.rounds);
    PutState(out, o, s);
    assert key.Schedule() == rk;
  }

  /** Decrypt one block. `input` and `out` may be the same array. */
  method Decrypt(input: array<bv8>, i: nat, out: array<bv8>, o: nat, key: AesKey)
    requires key.Valid() && i + 16 <= input.Length && o + 16 <= out.Length
    modifies out
    ensures out[..] == Splice(old(out[..]), o, DecryptBlock(old(input[i..i + 16]), key.Schedule(), key.rounds))
    ensures key.Schedule() == old(key.Schedule())
  {
    hide BlockState, StateBlock, EqInvCipher;
    var rk := key.rdKey[..];
    var s := DecryptState(BlockState(input[i..i + 16]), rk, key.rounds);
    PutState(out, o, s);
    assert key.Schedule() == rk;
  }

  method PutState(out: array<bv8>, o: nat, s: State)
    requires o + 16 <= out.Length
    modifies out
    ensures out[..] == Splice(old(out[..]), o, StateBlock(s))
  {
    hide StateBlock;
    var b := StateBlock(s);
    forall k | 0 <= k < 16 {
      out[o + k] := b[k];
    }
  }

  // ---------- Key schedules ----------

  /** The first `nk` words of a user key. */
  function KeyWords(userKey: seq<bv8>, nk: nat): (key: seq<bv32>)
    requires 4 * nk <= |userKey|
    ensures |key| == nk
  {
    seq(nk, (i: nat) requires i < nk => GetU32(userKey, 4 * i))
  }

  /** rcon[i], vmm/aes.c:722-726. */
  function RconTable(i: nat): bv32
    requires i < 10
  {
    [0x01000000, 0x02000000, 0x04000000, 0x08000000, 0x10000000,
     0x20000000, 0x40000000, 0x80000000, 0x1B000000, 0x36000000][i]
  }

  lemma RconTableIsRcon(i: nat)
    requires i < 10
    ensures RconTable(i) == Rcon(i + 1)
  {
    assert RconByte(1) == 0x01;
    assert RconByte(2) == 0x02;
    assert RconByte(3) == 0x04;
    assert RconByte(4) == 0x08;
    assert RconByte(5) == 0x10;
    assert RconByte(6) == 0x20;
    assert RconByte(7) == 0x40;
    assert RconByte(8) == 0x80;
    assert RconByte(9) == 0x1b;
    assert RconByte(10) == 0x36;
  }

  /** The word that starts a stretch of the schedule: SubWord, RotWord and the round constant. */
  function RotSubRcon(temp: bv32, i: nat): bv32
    requires i < 10
  {
    Xor(Te4Word(Byte1(temp), Byte2(temp), Byte3(temp), Byte0(temp)), RconTable(i))
  }

  function SubTemp(temp: bv32): bv32 { Te4Word(Byte0(temp), Byte1(temp), Byte2(temp), Byte3(temp)) }

  lemma RotSubRconIs(temp: bv32, i: nat)
    requires i < 10
    ensures RotSubRcon(temp, i) == Xor(SubWord(RotWord(temp)), Rcon(i + 1))
    ensures SubTemp(temp) == SubWord(temp)
  {
    hide S, Word, Byte0, Byte1, Byte2, Byte3, Te4Word, Rcon, RconTable, Xor;
    Te4WordIs(Byte1(temp), Byte2(temp), Byte3(temp), Byte0(temp));
    Te4WordIs(Byte0(temp), Byte1(temp), Byte2(temp), Byte3(temp));
    BytesOfWord(Byte1(temp), Byte2(temp), Byte3(temp), Byte0(temp));
    RconTableIsRcon(i);
  }

  lemma StretchIndex(nk: nat, m: nat, j: nat, i: nat)
    requires nk in {4, 6, 8} && j < nk && i == nk * m + nk + j
    ensures i % nk == j && i / nk == m + 1
  {
    if nk == 4 {} else if nk == 6 {} else {}
  }

  /** KeyExpansion a stretch of nk words at a time: word j of stretch m + 1. */
  lemma KeyStretch(key: seq<bv32>, m: nat, j: nat, i: nat)
    requires |key| in {4, 6, 8} && j < |key| && i == |key| * m + |key| + j
    ensures KeyWord(key, i) == Xor(KeyWord(key, i - |key|),
              if j == 0 then Xor(SubWord(RotWord(KeyWord(key, i - 1))), Rcon(m + 1))
              else if |key| > 6 && j == 4 then SubWord(KeyWord(key, i - 1))
              else KeyWord(key, i - 1))
  {
    hide SubWord, RotWord, Rcon, Xor;
    StretchIndex(|key|, m, j, i);
  }

  /** The first n words of `rk` are those of KeyExpansion, and the rest are those of `was`. */
  ghost predicate Expanded(rk: seq<bv32>, was: seq<bv32>, key: seq<bv32>, n: nat)
    requires 0 < |key|
  {
    && n <= |rk| == |was|
    && (forall k :: 0 <= k < n ==> rk[k] == KeyWord(key, k))
    && (forall k :: n <= k < |rk| ==> rk[k] == was[k])
  }

  /** Append the word at position n = nk * (m + 1) + j of the schedule. */
  method ExpandWord(rk: array<bv32>, ghost was: seq<bv32>, ghost key: seq<bv32>, m: nat, j: nat, nk: nat, n: nat)
    requires nk == |key| && nk in {4, 6, 8} && j < nk && n == nk * m + nk + j && m < 10
    requires n < rk.Length && Expanded(rk[..], was, key, n)
    modifies rk
    ensures Expanded(rk[..], was, key, n + 1)
  {
    hide KeyWord, SubWord, RotWord, Rcon, RotSubRcon, SubTemp, Xor;
    var temp := rk[n - 1];
    rk[n] := Xor(rk[n - nk],
                 if j == 0 then RotSubRcon(temp, m)
                 else if nk == 8 && j == 4 then SubTemp(temp)
                 else temp);
    KeyStretch(key, m, j, n);
    RotSubRconIs(temp, m);
  }

  method Expand128(rk: array<bv32>, ghost was: seq<bv32>, ghost key: seq<bv32>)
    requires |key| == 4 && rk.Length == MAX_SCHEDULE && Expanded(rk[..], was, key, 4)
    modifies rk
    ensures Expanded(rk[..], was, key, 44)
  {
    hide Expanded;
    var i := 0;
    while true
      invariant i < 10 && Expanded(rk[..], was, key, 4 * i + 4)
      decreases 10 - i
    {
      ExpandWord(rk, was, key, i, 0, 4, 4 * i + 4);
      ExpandWord(rk, was, key, i, 1, 4, 4 * i + 5);
      ExpandWord(rk, was, key, i, 2, 4, 4 * i + 6);
      ExpandWord(rk, was, key, i, 3, 4, 4 * i + 7);
      i := i + 1;
      if i == 10 {
        return;
      }
    }
  }

  method Expand192(rk: array<bv32>, ghost was: seq<bv32>, ghost key: seq<bv32>)
    requires |key| == 6 && rk.Length == MAX_SCHEDULE && Expanded(rk[..], was, key, 6)
    modifies rk
    ensures Expanded(rk[..], was, key, 52)
  {
    hide Expanded;
    var i := 0;
    while true
      invariant i < 8 && Expanded(rk[..], was, key, 6 * i + 6)
      decreases 8 - i
    {
      ExpandWord(rk, was, key, i, 0, 6, 6 * i + 6);
      ExpandWord(rk, was, key, i, 1, 6, 6 * i + 7);
      ExpandWord(rk, was, key, i, 2, 6, 6 * i + 8);
      ExpandWord(rk, was, key, i, 3, 6, 6 * i + 9);
      i := i + 1;
      if i == 8 {
        return;
      }
      ExpandWord(rk, was, key, i - 1, 4, 6, 6 * i + 4);
      ExpandWord(rk, was, key, i - 1, 5, 6, 6 * i + 5);
    }
  }

  method Expand256(rk: array<bv32>, ghost was: seq<bv32>, ghost key: seq<bv32>)
    requires |key| == 8 && rk.Length == MAX_SCHEDULE && Expanded(rk[..], was, key, 8)
    modifies rk
    ensures Expanded(rk[..], was, key, 60)
  {
    hide Expanded;
    var i := 0;
    while true
      invariant i < 7 && Expanded(rk[..], was, key, 8 * i + 8)
      decreases 7 - i
    {
      ExpandWord(rk, was, key, i, 0, 8, 8 * i + 8);
      ExpandWord(rk, was, key, i, 1, 8, 8 * i + 9);
      ExpandWord(rk, was, key, i, 2, 8, 8 * i + 10);
      ExpandWord(rk, was, key, i, 3, 8, 8 * i + 11);
      i := i + 1;
      if i == 7 {
        return;
      }
      ExpandWord(rk, was, key, i - 1, 4, 8, 8 * i + 4);
      ExpandWord(rk, was, key, i - 1, 5, 8, 8 * i + 5);
      ExpandWord(rk, was, key, i - 1, 6, 8, 8 * i + 6);
      ExpandWord(rk, was, key, i - 1, 7, 8, 8 * i + 7);
    }
  }

  /** The words of a user key of `bits` bits. */
  ghost function UserKey(userKey: seq<bv8>, bits: int): (key: seq<bv32>)
    requires bits in {128, 192, 256} && bits / 8 <= |userKey|
    ensures |key| == bits / 32
  {
    KeyWords(userKey, bits / 32)
  }

  /** The first derived word of the schedule, over the bytes of the user key. */
  lemma FirstDerivedBytes(k: seq<bv8>, bits: int)
    requires bits in {128, 192, 256} && bits / 8 <= |k|
    ensures var n := bits / 8;
      KeyWord(UserKey(k, bits), bits / 32) ==
        Word(Add(Add(k[0], S(k[n - 3])), 1), Add(k[1], S(k[n - 2])), Add(k[2], S(k[n - 1])), Add(k[3], S(k[n - 4])))
  {
    hide KeyWord, S, Word, Byte0, Byte1, Byte2, Byte3, Add;
    var n := bits / 8;
    FirstDerivedWord(UserKey(k, bits));
    BytesOfWord(k[0], k[1], k[2], k[3]);
    BytesOfWord(k[n - 4], k[n - 3], k[n - 2], k[n - 1]);
  }

  /** AES_set_encrypt_key: KeyExpansion fills exactly 4 * (Nr + 1) words and leaves the rest of
      the schedule alone; a null pointer or an unsupported size changes nothing. */
  method SetEncryptKey(userKey: array?<bv8>, bits: int, key: AesKey?) returns (status: int)
    requires key != null ==> key.rdKey.Length == MAX_SCHEDULE
    requires userKey != null && bits in {128, 192, 256} ==> bits / 8 <= userKey.Length
    modifies key, if key != null then {key.rdKey} else {}
    ensures userKey == null || key == null ==> status == -1
    ensures userKey != null && key != null && bits !in {128, 192, 256} ==> status == -2
    ensures status != 0 && key != null ==> unchanged(key) && unchanged(key.rdKey)
    ensures userKey != null && key != null && bits in {128, 192, 256} ==>
      && status == 0
      && key.rounds == RoundsFor(bits / 32) == (if bits == 128 then 10 else if bits == 192 then 12 else 14)
      && Expanded(key.Schedule(), old(key.Schedule()), UserKey(userKey[..], bits), 4 * (key.rounds + 1))
  {
    hide GetU32, KeyWord;
    if userKey == null || key == null {
      return -1;
    }
    if bits != 128 && bits != 192 && bits != 256 {
      return -2;
    }
    var rk := key.rdKey;
    ghost var was := rk[..];
    ghost var k := UserKey(userKey[..], bits);
    key.rounds := if bits == 128 then 10 else if bits == 192 then 12 else 14;
    LoadKeyWords(rk, was, userKey, bits / 32);
    if bits == 128 {
      Expand128(rk, was, k);
    } else if bits == 192 {
      Expand192(rk, was, k);
    } else {
      Expand256(rk, was, k);
    }
    return 0;
  }

  /** The assignments from GETU32 that start the schedule. */
  method LoadKeyWords(rk: array<bv32>, ghost was: seq<bv32>, userKey: array<bv8>, nk: nat)
    requires nk in {4, 6, 8} && 4 * nk <= userKey.Length
    requires rk.Length == MAX_SCHEDULE && was == rk[..]
    modifies rk
    ensures Expanded(rk[..], was, KeyWords(userKey[..], nk), nk)
  {
    hide GetU32;
    for i := 0 to nk
      invariant userKey[..] == old(userKey[..])
      invariant Expanded(rk[..], was, KeyWords(userKey[..], nk), i)
    {
      rk[i] := GetU32(userKey[..], 4 * i);
    }
  }

  /** The schedule of section 5.2 for a key of nk words. */
  ghost function ExpandedKey(key: seq<bv32>): (w: seq<bv32>)
    requires 0 < |key|
    ensures |w| == 4 * (RoundsFor(|key|) + 1)
  {
    seq(4 * (RoundsFor(|key|) + 1), (i: nat) => KeyWord(key, i))
  }

  method SetRoundKey(rk: array<bv32>, a: nat, k: State)
    requires 4 * a + 4 <= rk.Length
    modifies rk
    ensures RoundKey(rk[..], a) == k
    ensures forall r :: r != a && 0 <= 4 * r <= rk.Length - 4 ==> RoundKey(rk[..], r) == old(RoundKey(rk[..], r))
  {
    rk[4 * a], rk[4 * a + 1], rk[4 * a + 2], rk[4 * a + 3] := k.c0, k.c1, k.c2, k.c3;
  }

  function InvMixByTable(w: bv32): bv32 { TdWord(S(Byte0(w)), S(Byte1(w)), S(Byte2(w)), S(Byte3(w))) }

  /** Looking up Td after Te4 cancels the two substitutions and leaves InvMixColumns. */
  lemma InvMixByTableIs(w: bv32)
    ensures InvMixByTable(w) == InvMixColumn(w)
  {
    hide S, Si, Td0, Td1, Td2, Td3, InvMixColumn, Word, Byte0, Byte1, Byte2, Byte3;
    TdColumn(S(Byte0(w)), S(Byte1(w)), S(Byte2(w)), S(Byte3(w)));
    SiS(Byte0(w));
    SiS(Byte1(w));
    SiS(Byte2(w));
    SiS(Byte3(w));
    WordOfBytes(w);
  }

  method InvMixRoundKey(rk: array<bv32>, a: nat)
    requires 4 * a + 4 <= rk.Length
    modifies rk
    ensures RoundKey(rk[..], a) == InvMixColumns(old(RoundKey(rk[..], a)))
    ensures forall r :: r != a && 0 <= 4 * r <= rk.Length - 4 ==> RoundKey(rk[..], r) == old(RoundKey(rk[..], r))
  {
    hide InvMixByTable, InvMixColumn, RoundKey;
    var k := RoundKey(rk[..], a);
    InvMixByTableIs(k.c0);
    InvMixByTableIs(k.c1);
    InvMixByTableIs(k.c2);
    InvMixByTableIs(k.c3);
    SetRoundKey(rk, a, State(InvMixByTable(k.c0), InvMixByTable(k.c1), InvMixByTable(k.c2), InvMixByTable(k.c3)));
  }

  /** The first loop of AES_set_decrypt_key: reverse the order of the round keys in place. */
  method ReverseRoundKeys(rk: array<bv32>, nr: nat)
    requires nr in {10, 12, 14} && rk.Length == MAX_SCHEDULE
    modifies rk
    ensures forall r :: 0 <= r <= nr ==> RoundKey(rk[..], r) == old(RoundKey(rk[..], nr - r))
  {
    hide RoundKey;
    ghost var w := rk[..];
    var i, j := 0, nr;
    while i < j
      invariant 0 <= i && i + j == nr && i <= j + 1
      invariant forall r :: 0 <= r < i || j < r <= nr ==> RoundKey(rk[..], r) == RoundKey(w, nr - r)
      invariant forall r :: i <= r <= j ==> RoundKey(rk[..], r) == RoundKey(w, r)
    {
      var temp := RoundKey(rk[..], i);
      SetRoundKey(rk, i, RoundKey(rk[..], j));
      SetRoundKey(rk, j, temp);
      i, j := i + 1, j - 1;
    }
  }

  /** Both in-place loops of AES_set_decrypt_key: after the reversal, all round keys but the first
      and the last go through InvMixColumns. */
  method InvertSchedule(rk: array<bv32>, nr: nat)
    requires nr in {10, 12, 14} && rk.Length == MAX_SCHEDULE
    modifies rk
    ensures InverseSchedule(old(rk[..]), rk[..], nr)
  {
    hide RoundKey, InvMixColumns;
    ghost var w := rk[..];
    ReverseRoundKeys(rk, nr);
    for r := 1 to nr
      invariant forall q :: 0 < q < r ==> RoundKey(rk[..], q) == InvMixColumns(RoundKey(w, nr - q))
      invariant forall q :: q == 0 || r <= q <= nr ==> RoundKey(rk[..], q) == RoundKey(w, nr - q)
    {
      InvMixRoundKey(rk, r);
    }
  }

  lemma RoundKeysOfExpanded(w: seq<bv32>, was: seq<bv32>, key: seq<bv32>, r: nat)
    requires 0 < |key| && r <= RoundsFor(|key|) && Expanded(w, was, key, 4 * (RoundsFor(|key|) + 1))
    ensures RoundKey(w, r) == RoundKey(ExpandedKey(key), r)
  {
    hide KeyWord;
  }

  lemma SchedulesMatch(w: seq<bv32>, was: seq<bv32>, key: seq<bv32>, dw: seq<bv32>)
    requires 0 < |key| && Expanded(w, was, key, 4 * (RoundsFor(|key|) + 1))
    ensures InverseSchedule(w, dw, RoundsFor(|key|)) <==> InverseSchedule(ExpandedKey(key), dw, RoundsFor(|key|))
  {
    hide RoundKey, InvMixColumns, ExpandedKey, KeyWord;
    forall r: nat | r <= RoundsFor(|key|)
      ensures RoundKey(w, r) == RoundKey(ExpandedKey(key), r)
    {
      RoundKeysOfExpanded(w, was, key, r);
    }
  }

  /** AES_set_decrypt_key: the schedule of the equivalent inverse cipher. */
  method SetDecryptKey(userKey: array?<bv8>, bits: int, key: AesKey?) returns (status: int)
    requires key != null ==> key.rdKey.Length == MAX_SCHEDULE
    requires userKey != null && bits in {128, 192, 256} ==> bits / 8 <= userKey.Length
    modifies key, if key != null then {key.rdKey} else {}
    ensures userKey == null || key == null ==> status == -1
    ensures userKey != null && key != null && bits !in {128, 192, 256} ==> status == -2
    ensures status != 0 && key != null ==> unchanged(key) && unchanged(key.rdKey)
    ensures userKey != null && key != null && bits in {128, 192, 256} ==>
      && status == 0
      && key.rounds == RoundsFor(bits / 32)
      && InverseSchedule(ExpandedKey(UserKey(userKey[..], bits)), key.Schedule(), key.rounds)
  {
    hide Expanded, ExpandedKey, InverseSchedule, KeyWords;
    status := SetEncryptKey(userKey, bits, key);
    if status < 0 {
      return;
    }
    ghost var k := UserKey(userKey[..], bits);
    ghost var w := key.Schedule();
    InvertSchedule(key.rdKey, key.rounds);
    SchedulesMatch(w, old(key.Schedule()), k, key.Schedule());
  }

  /** Decryption with the key that SetDecryptKey prepares inverts encryption with the key that
      SetEncryptKey prepares, for every block and every user key of the three sizes. */
  lemma KeysRoundTrip(userKey: seq<bv8>, bits: int, w: seq<bv32>, was: seq<bv32>, dw: seq<bv32>, block: seq<bv8>)
    requires bits in {128, 192, 256} && bits / 8 <= |userKey| && |block| == 16
    requires Expanded(w, was, UserKey(userKey, bits), 4 * (RoundsFor(bits / 32) + 1))
    requires InverseSchedule(ExpandedKey(UserKey(userKey, bits)), dw, RoundsFor(bits / 32))
    ensures DecryptBlock(EncryptBlock(block, w, RoundsFor(bits / 32)), dw, RoundsFor(bits / 32)) == block
  {
    hide Expanded, ExpandedKey, InverseSchedule, KeyWords, EncryptBlock, DecryptBlock;
    SchedulesMatch(w, was, UserKey(userKey, bits), dw);
    DecryptInvertsEncrypt(block, w, dw, RoundsFor(bits / 32));
  }
}
