/** AES_cbc_encrypt of vmm/aes.c: the CBC mode of section 6.2 of NIST SP 800-38A, with a partial
    last block padded by zeros. */
module Cbc {
  import opened Fips197
  import opened Aes
  import opened Buffers

  type Block = b: seq<bv8> | |b| == 16 witness seq(16, i => 0)

  lemma WholeBlockNotPadded(p: seq<bv8>)
    requires |p| == 16
    ensures Padded(p) == p
  {}

  ghost predicate IsSchedule(w: seq<bv32>, nr: nat) { 1 <= nr && 4 * nr + 4 <= |w| }

  function XorBytes(a: seq<bv8>, b: seq<bv8>): (c: seq<bv8>)
    requires |a| <= |b|
    ensures |c| == |a| && forall i :: 0 <= i < |a| ==> c[i] == a[i] ^ b[i]
  {
    seq(|a|, i requires 0 <= i < |a| => a[i] ^ b[i])
  }

  lemma XorBytesTwice(a: seq<bv8>, b: seq<bv8>)
    requires |a| <= |b|
    ensures XorBytes(XorBytes(a, b), b) == a
  {
    forall i | 0 <= i < |a|
      ensures (a[i] ^ b[i]) ^ b[i] == a[i]
    {
      XorByteTwice(a[i], b[i]);
    }
  }

  lemma XorByteTwice(a: bv8, b: bv8)
    ensures (a ^ b) ^ b == a
  {}

  function Padded(p: seq<bv8>): Block
    requires |p| <= 16
  {
    p + seq(16 - |p|, i => 0)
  }

  /** The length of the ciphertext of `len` bytes. */
  function RoundUp(len: nat): nat { (len + 15) / 16 * 16 }

  // ---------- The mode, over any block cipher ----------

  ghost function CbcEncrypt(p: seq<bv8>, iv: Block, enc: Block -> Block): (c: seq<bv8>)
    ensures |c| == RoundUp(|p|)
  {
    if |p| == 0 then
      []
    else if |p| < 16 then
      enc(XorBytes(Padded(p), iv))
    else
      var c := enc(XorBytes(p[..16], iv));
      c + CbcEncrypt(p[16..], c, enc)
  }

  /** The chaining value left by encryption. */
  ghost function EncryptIv(p: seq<bv8>, iv: Block, enc: Block -> Block): Block {
    if |p| == 0 then iv
    else if |p| < 16 then enc(XorBytes(Padded(p), iv))
    else EncryptIv(p[16..], enc(XorBytes(p[..16], iv)), enc)
  }

  lemma {:induction false} EncryptIvIsLastBlock(p: seq<bv8>, iv: Block, enc: Block -> Block)
    requires p != []
    ensures EncryptIv(p, iv, enc) == CbcEncrypt(p, iv, enc)[RoundUp(|p|) - 16..]
    decreases |p|
  {
    if 16 < |p| {
      var c: Block := enc(XorBytes(p[..16], iv));
      EncryptIvIsLastBlock(p[16..], c, enc);
    }
  }

  ghost function CbcDecrypt(c: seq<bv8>, len: nat, iv: Block, dec: Block -> Block): (p: seq<bv8>)
    requires RoundUp(len) <= |c|
    ensures |p| == len
    decreases len
  {
    if len == 0 then
      []
    else if len < 16 then
      XorBytes(dec(c[..16])[..len], iv)
    else
      XorBytes(dec(c[..16]), iv) + CbcDecrypt(c[16..], len - 16, c[..16], dec)
  }

  /** The chaining value left by decryption. After a partial block the source stores the block
      it decrypted rather than the block of ciphertext. */
  ghost function DecryptIv(c: seq<bv8>, len: nat, iv: Block, dec: Block -> Block): Block
    requires RoundUp(len) <= |c|
    decreases len
  {
    if len == 0 then iv
    else if len < 16 then dec(c[..16])
    else DecryptIv(c[16..], len - 16, c[..16], dec)
  }

  /** Block i of a message, and what it is combined with: the block before it, or the initial vector. */
  ghost function BlockAt(c: seq<bv8>, i: nat): Block
    requires 16 * i + 16 <= |c|
  {
    c[16 * i..16 * i + 16]
  }

  ghost function Before(c: seq<bv8>, iv: Block, i: nat): Block
    requires 16 * i <= |c|
  {
    if i == 0 then iv else BlockAt(c, i - 1)
  }

  lemma NextBlocks(c: seq<bv8>, iv: Block, i: nat)
    requires 16 * i + 16 <= |c|
    ensures 16 * i + 32 <= |c| ==> BlockAt(c, i + 1) == BlockAt(c[16..], i)
    ensures Before(c, iv, i + 1) == Before(c[16..], c[..16], i)
  {
    if i == 0 {
      assert c[0..16] == c[..16];
    } else {
      assert c[16..][16 * i - 16..16 * i] == c[16 * i..16 * i + 16];
    }
    if 16 * i + 32 <= |c| {
      assert c[16..][16 * i..16 * i + 16] == c[16 * i + 16..16 * i + 32];
    }
  }

  /** Section 6.2 of NIST SP 800-38A: block i of the ciphertext is the encryption of block i of the plaintext
      combined with block i - 1 of the ciphertext, or with the initial vector. */
  lemma {:induction false} CipherBlock(p: seq<bv8>, iv: Block, enc: Block -> Block, i: nat)
    requires 16 * i + 16 <= |p|
    ensures var c := CbcEncrypt(p, iv, enc); BlockAt(c, i) == enc(XorBytes(BlockAt(p, i), Before(c, iv, i)))
    decreases i
  {
    var b: Block := enc(XorBytes(p[..16], iv));
    var rest: seq<bv8> := CbcEncrypt(p[16..], b, enc);
    var c := CbcEncrypt(p, iv, enc);
    assert c == b + rest && c[..16] == b && c[16..] == rest;
    if i == 0 {
      assert p[0..16] == p[..16] && c[0..16] == c[..16];
    } else {
      hide BlockAt, Before, CbcEncrypt, XorBytes;
      CipherBlock(p[16..], b, enc, i - 1);
      NextBlocks(c, iv, i - 1);
      NextBlocks(p, iv, i - 1);
    }
  }

  /** A slice of a block followed by more. */
  lemma ShiftSlice(b: Block, rest: seq<bv8>, lo: nat, hi: nat)
    requires lo <= hi <= 16 + |rest|
    ensures lo >= 16 ==> (b + rest)[lo..hi] == rest[lo - 16..hi - 16]
    ensures lo == 0 && hi == 16 ==> (b + rest)[lo..hi] == b
  {}

  /** A partial last block is filled up from the block before it: beyond the plaintext the cipher's input is the
      ciphertext before it, or the initial vector. */
  lemma {:induction false} PartialBlock(p: seq<bv8>, iv: Block)
    requires |p| < 16
    ensures var x := XorBytes(Padded(p), iv); x == XorBytes(p, iv) + iv[|p|..]
  {
    forall i | |p| <= i < 16 ensures 0 ^ iv[i] == iv[i] {
      XorWithZero(iv[i]);
    }
  }

  lemma XorWithZero(b: bv8)
    ensures 0 ^ b == b
  {}

  lemma FirstPlainBlock(c: seq<bv8>, len: nat, iv: Block, dec: Block -> Block)
    requires 0 < len && RoundUp(len) <= |c|
    ensures var n := if 16 <= len then 16 else len;
      CbcDecrypt(c, len, iv, dec)[..n] == XorBytes(dec(c[..16])[..n], iv)
  {
    hide XorBytes;
    var d: Block := dec(c[..16]);
    if 16 <= len {
      assert d[..16] == d;
      ShiftSlice(XorBytes(d, iv), CbcDecrypt(c[16..], len - 16, c[..16], dec), 0, 16);
    } else {
      assert CbcDecrypt(c, len, iv, dec)[..len] == CbcDecrypt(c, len, iv, dec);
    }
  }

  /** The chaining value left by decryption is the last block of the ciphertext, or the decryption of it if only a
      part was asked for. */
  lemma {:induction false} DecryptIvIsLastBlock(c: seq<bv8>, len: nat, iv: Block, dec: Block -> Block, i: nat)
    requires RoundUp(len) <= |c| && 16 * i < len <= 16 * i + 16 <= |c|
    ensures DecryptIv(c, len, iv, dec) == if len == 16 * i + 16 then BlockAt(c, i) else dec(BlockAt(c, i))
    decreases i
  {
    if i > 0 {
      DecryptIvIsLastBlock(c[16..], len - 16, c[..16], dec, i - 1);
      assert c[16..][16 * i - 16..16 * i] == c[16 * i..16 * i + 16];
    }
  }

  lemma LaterPlain(c: seq<bv8>, len: nat, iv: Block, dec: Block -> Block, lo: nat, hi: nat)
    requires RoundUp(len) <= |c| && 16 <= lo <= hi <= len
    ensures CbcDecrypt(c, len, iv, dec)[lo..hi] == CbcDecrypt(c[16..], len - 16, c[..16], dec)[lo - 16..hi - 16]
  {
    hide XorBytes, CbcDecrypt;
    DecryptUnfolds(c, len, iv, dec, c[..16], c[16..]);
    ShiftSlice(XorBytes(dec(c[..16]), iv), CbcDecrypt(c[16..], len - 16, c[..16], dec), lo, hi);
  }

  /** Block i of the plaintext is the decryption of block i of the ciphertext combined with block i - 1 of it,
      or with the initial vector; of the last block only what is asked for. */
  lemma {:induction false} PlainBlock(c: seq<bv8>, len: nat, iv: Block, dec: Block -> Block, i: nat)
    requires RoundUp(len) <= |c| && 16 * i < len && 16 * i + 16 <= |c|
    ensures var n := if 16 * i + 16 <= len then 16 else len - 16 * i;
      CbcDecrypt(c, len, iv, dec)[16 * i..16 * i + n] == XorBytes(dec(BlockAt(c, i))[..n], Before(c, iv, i))
    decreases i
  {
    hide XorBytes, CbcDecrypt;
    var n := if 16 * i + 16 <= len then 16 else len - 16 * i;
    if i == 0 {
      FirstPlainBlock(c, len, iv, dec);
      assert c[0..16] == c[..16];
    } else {
      hide BlockAt, Before;
      PlainBlock(c[16..], len - 16, c[..16], dec, i - 1);
      LaterPlain(c, len, iv, dec, 16 * i, 16 * i + n);
      NextBlocks(c, iv, i - 1);
    }
  }

  /** Decryption inverts encryption for every length, including a padded last block. */
  lemma {:induction false} ModeRoundTrip(p: seq<bv8>, iv: Block, enc: Block -> Block, dec: Block -> Block)
    requires forall b: Block :: dec(enc(b)) == b
    ensures CbcDecrypt(CbcEncrypt(p, iv, enc), |p|, iv, dec) == p
    decreases |p|
  {
    if 0 < |p| < 16 {
      var x := XorBytes(Padded(p), iv);
      assert enc(x)[..16] == enc(x);
      assert x[..|p|] == XorBytes(p, iv);
      XorBytesTwice(p, iv);
    } else if 16 <= |p| {
      var c: Block := enc(XorBytes(p[..16], iv));
      var rest: seq<bv8> := CbcEncrypt(p[16..], c, enc);
      assert (c + rest)[..16] == c && (c + rest)[16..] == rest;
      XorBytesTwice(p[..16], iv);
      ModeRoundTrip(p[16..], c, enc, dec);
    }
  }

  /** Two chained calls, the first on whole blocks, are one call on the concatenation. */
  lemma {:induction false} EncryptChains(a: seq<bv8>, b: seq<bv8>, iv: Block, enc: Block -> Block)
    requires |a| % 16 == 0
    ensures CbcEncrypt(a + b, iv, enc) == CbcEncrypt(a, iv, enc) + CbcEncrypt(b, EncryptIv(a, iv, enc), enc)
    ensures EncryptIv(a + b, iv, enc) == EncryptIv(b, EncryptIv(a, iv, enc), enc)
    decreases |a|
  {
    if a == [] {
      assert a + b == b;
    } else {
      var c: Block := enc(XorBytes(a[..16], iv));
      assert (a + b)[..16] == a[..16] && (a + b)[16..] == a[16..] + b;
      EncryptChains(a[16..], b, c, enc);
    }
  }

  lemma DecryptUnfolds(c: seq<bv8>, len: nat, iv: Block, dec: Block -> Block, head: Block, tail: seq<bv8>)
    requires c == head + tail && 16 <= len && RoundUp(len) <= |c|
    ensures CbcDecrypt(c, len, iv, dec) == XorBytes(dec(head), iv) + CbcDecrypt(tail, len - 16, head, dec)
    ensures DecryptIv(c, len, iv, dec) == DecryptIv(tail, len - 16, head, dec)
  {
    assert c[..16] == head && c[16..] == tail;
  }

  lemma RoundUpMonotone(len: nat, blocks: nat)
    requires blocks % 16 == 0
    ensures RoundUp(blocks + len) == blocks + RoundUp(len)
    ensures RoundUp(blocks) == blocks
  {}

  lemma DecryptNothing(iv: Block, dec: Block -> Block)
    ensures RoundUp(0) == 0 && CbcDecrypt([], 0, iv, dec) == [] && DecryptIv([], 0, iv, dec) == iv
  {}

  lemma {:induction false} DecryptChains(a: seq<bv8>, b: seq<bv8>, len: nat, iv: Block, dec: Block -> Block)
    requires |a| % 16 == 0 && RoundUp(len) <= |b|
    ensures CbcDecrypt(a + b, |a| + len, iv, dec)
         == CbcDecrypt(a, |a|, iv, dec) + CbcDecrypt(b, len, DecryptIv(a, |a|, iv, dec), dec)
    ensures DecryptIv(a + b, |a| + len, iv, dec) == DecryptIv(b, len, DecryptIv(a, |a|, iv, dec), dec)
    decreases |a|
  {
    hide XorBytes, RoundUp, CbcDecrypt, DecryptIv;
    if a == [] {
      assert a + b == b;
      DecryptNothing(iv, dec);
    } else {
      var head: Block, tail := a[..16], a[16..];
      assert a + b == head + (tail + b);
      RoundUpMonotone(len, |a|);
      RoundUpMonotone(len, |tail|);
      DecryptChains(tail, b, len, head, dec);
      DecryptUnfolds(a + b, |a| + len, iv, dec, head, tail + b);
      DecryptUnfolds(a, |a|, iv, dec, head, tail);
    }
  }

  // ---------- The mode over AES ----------

  ghost function EncryptWith(w: seq<bv32>, nr: nat): Block -> Block
    requires IsSchedule(w, nr)
  {
    (b: Block) => EncryptBlock(b, w, nr)
  }

  ghost function DecryptWith(dw: seq<bv32>, nr: nat): Block -> Block
    requires IsSchedule(dw, nr)
  {
    (b: Block) => DecryptBlock(b, dw, nr)
  }

  /** CBC decryption under SetDecryptKey inverts CBC encryption under SetEncryptKey, for every
      message, chaining value and user key. */
  lemma CbcRoundTrip(p: seq<bv8>, iv: Block, userKey: seq<bv8>, bits: int, w: seq<bv32>, was: seq<bv32>, dw: seq<bv32>)
    requires bits in {128, 192, 256} && bits / 8 <= |userKey|
    requires Expanded(w, was, UserKey(userKey, bits), 4 * (RoundsFor(bits / 32) + 1))
    requires InverseSchedule(ExpandedKey(UserKey(userKey, bits)), dw, RoundsFor(bits / 32))
    ensures var nr := RoundsFor(bits / 32);
      CbcDecrypt(CbcEncrypt(p, iv, EncryptWith(w, nr)), |p|, iv, DecryptWith(dw, nr)) == p
  {
    var nr := RoundsFor(bits / 32);
    var enc, dec := EncryptWith(w, nr), DecryptWith(dw, nr);
    forall b: Block
      ensures dec(enc(b)) == b
    {
      hide EncryptBlock, DecryptBlock, Expanded, InverseSchedule, KeyWords;
      KeysRoundTrip(userKey, bits, w, was, dw, b);
    }
    ModeRoundTrip(p, iv, enc, dec);
  }

  // ---------- AES_cbc_encrypt ----------

  /** tmp := the n bytes of input at pos, padded with zeros, plus the chaining value. */
  method XorBlock(tmp: array<bv8>, input: array<bv8>, pos: nat, n: nat, ivec: array<bv8>)
    requires tmp.Length == ivec.Length == 16 && tmp != input && tmp != ivec
    requires n <= 16 && pos + n <= input.Length
    modifies tmp
    ensures tmp[..] == XorBytes(Padded(input[pos..pos + n]), ivec[..])
  {
    hide XorBytes, Padded;
    for i := 0 to n
      invariant forall k :: 0 <= k < i ==> tmp[k] == input[pos + k] ^ ivec[k]
    {
      tmp[i] := input[pos + i] ^ ivec[i];
    }
    for i := n to 16
      invariant forall k :: 0 <= k < n ==> tmp[k] == input[pos + k] ^ ivec[k]
      invariant forall k :: n <= k < i ==> tmp[k] == ivec[k]
    {
      tmp[i] := ivec[i];
    }
    XorOfPadded(tmp[..], input[pos..pos + n], ivec[..]);
  }

  lemma XorOfPadded(t: seq<bv8>, p: seq<bv8>, iv: seq<bv8>)
    requires |t| == |iv| == 16 && |p| <= 16
    requires forall k :: 0 <= k < |p| ==> t[k] == p[k] ^ iv[k]
    requires forall k :: |p| <= k < 16 ==> t[k] == iv[k]
    ensures t == XorBytes(Padded(p), iv)
  {
    forall k | |p| <= k < 16 ensures 0 ^ iv[k] == iv[k] {
      ZeroXor(iv[k]);
    }
  }

  lemma ZeroXor(b: bv8)
    ensures 0 ^ b == b
  {}

  /** memcpy of one block. */
  method CopyBlock(dst: array<bv8>, d: nat, src: array<bv8>, s: nat)
    requires d + 16 <= dst.Length && s + 16 <= src.Length && dst != src
    modifies dst
    ensures dst[..] == Splice(old(dst[..]), d, src[s..s + 16])
  {
    forall k | 0 <= k < 16 {
      dst[d + k] := src[s + k];
    }
  }

  lemma XorSpliced(was: seq<bv8>, now: seq<bv8>, pos: nat, bytes: seq<bv8>, iv: seq<bv8>)
    requires |bytes| <= |iv| && pos + |bytes| <= |was| == |now|
    requires forall k :: 0 <= k < |bytes| ==> now[pos + k] == bytes[k] ^ iv[k]
    requires forall k :: 0 <= k < |now| && !(pos <= k < pos + |bytes|) ==> now[k] == was[k]
    ensures now == Splice(was, pos, XorBytes(bytes, iv))
  {
    hide Splice;
    var x := XorBytes(bytes, iv);
    forall k | 0 <= k < |now|
      ensures now[k] == Splice(was, pos, x)[k]
    {
      SpliceAt(was, pos, x, k);
      if pos <= k < pos + |bytes| {
        assert now[pos + (k - pos)] == x[k - pos];
      }
    }
  }

  /** out[pos + i] := src[s + i] ^ ivec[i] for the first n bytes; src may be out itself. */
  method XorOut(out: array<bv8>, pos: nat, n: nat, src: array<bv8>, s: nat, ivec: array<bv8>)
    requires n <= ivec.Length && pos + n <= out.Length && s + n <= src.Length
    requires out != ivec && (out == src ==> s == pos)
    modifies out
    ensures out[..] == Splice(old(out[..]), pos, XorBytes(old(src[s..s + n]), ivec[..]))
  {
    hide Splice, XorBytes;
    ghost var was, bytes := out[..], src[s..s + n];
    for i := 0 to n
      invariant forall k :: 0 <= k < i ==> out[pos + k] == bytes[k] ^ ivec[k]
      invariant forall k :: 0 <= k < out.Length && !(pos <= k < pos + i) ==> out[k] == was[k]
      invariant src[..] == old(src[..]) || src == out
    {
      assert src[s + i] == bytes[i];
      out[pos + i] := src[s + i] ^ ivec[i];
    }
    XorSpliced(was, out[..], pos, bytes, ivec[..]);
  }

  /** One block of the encrypting loop. */
  method EncryptWhole(input: array<bv8>, out: array<bv8>, pos: nat, key: AesKey, ivec: array<bv8>, tmp: array<bv8>)
    requires key.Valid() && pos + 16 <= input.Length && pos + 16 <= out.Length
    requires ivec.Length == tmp.Length == 16 && ivec != input && ivec != out
    requires tmp != input && tmp != out && tmp != ivec
    modifies out, ivec, tmp
    ensures var c := EncryptBlock(XorBytes(old(input[pos..pos + 16]), old(ivec[..])), key.Schedule(), key.rounds);
      ivec[..] == c && out[..] == Splice(old(out[..]), pos, c)
    ensures forall k :: pos + 16 <= k < input.Length ==> input[k] == old(input[k])
    ensures key.Schedule() == old(key.Schedule())
  {
    hide EncryptBlock, XorBytes, Padded, Splice;
    ghost var w := key.Schedule();
    WholeBlockNotPadded(input[pos..pos + 16]);
    XorBlock(tmp, input, pos, 16, ivec);
    assert tmp[0..16] == tmp[..];
    Encrypt(tmp, 0, out, pos, key);
    CopyBlock(ivec, 0, out, pos);
    SpliceAll(old(ivec[..]), out[pos..pos + 16]);
    assert key.Schedule() == w;
  }

  /** The padded last block. */
  method EncryptPartial(input: array<bv8>, out: array<bv8>, pos: nat, n: nat, key: AesKey, ivec: array<bv8>,
                        tmp: array<bv8>)
    requires key.Valid() && 0 < n < 16 && pos + n <= input.Length && pos + 16 <= out.Length
    requires ivec.Length == tmp.Length == 16 && ivec != input && ivec != out
    requires tmp != input && tmp != out && tmp != ivec
    modifies out, ivec, tmp
    ensures var c := EncryptBlock(XorBytes(Padded(old(input[pos..pos + n])), old(ivec[..])), key.Schedule(),
                                  key.rounds);
      ivec[..] == c && out[..] == Splice(old(out[..]), pos, c)
    ensures key.Schedule() == old(key.Schedule())
  {
    hide EncryptBlock, XorBytes, Padded, Splice;
    ghost var w := key.Schedule();
    XorBlock(tmp, input, pos, n, ivec);
    ghost var x := tmp[..];
    assert tmp[0..16] == x;
    Encrypt(tmp, 0, tmp, 0, key);
    SpliceAll(x, EncryptBlock(x, w, key.rounds));
    assert tmp[0..16] == tmp[..];
    CopyBlock(out, pos, tmp, 0);
    CopyBlock(ivec, 0, tmp, 0);
    SpliceAll(old(ivec[..]), tmp[..]);
    assert key.Schedule() == w;
  }

  /** One block of the decrypting loop. */
  method DecryptWhole(input: array<bv8>, out: array<bv8>, pos: nat, key: AesKey, ivec: array<bv8>, tmp: array<bv8>)
    requires key.Valid() && pos + 16 <= input.Length && pos + 16 <= out.Length
    requires ivec.Length == tmp.Length == 16 && ivec != input && ivec != out
    requires tmp != input && tmp != out && tmp != ivec
    modifies out, ivec, tmp
    ensures var c := old(input[pos..pos + 16]);
      && ivec[..] == c
      && out[..] == Splice(old(out[..]), pos, XorBytes(DecryptBlock(c, key.Schedule(), key.rounds), old(ivec[..])))
    ensures input[pos + 16..] == old(input[pos + 16..])
    ensures key.Schedule() == old(key.Schedule())
  {
    hide DecryptBlock, XorBytes, Splice;
    ghost var w, c, was := key.Schedule(), input[pos..pos + 16], out[..];
    CopyBlock(tmp, 0, input, pos);
    SpliceAll(old(tmp[..]), c);
    Decrypt(input, pos, out, pos, key);
    ghost var d := DecryptBlock(c, w, key.rounds);
    assert out[pos..pos + 16] == d;
    XorOut(out, pos, 16, out, pos, ivec);
    SpliceAgain(was, pos, d, XorBytes(d, ivec[..]));
    assert tmp[0..16] == tmp[..];
    CopyBlock(ivec, 0, tmp, 0);
    SpliceAll(old(ivec[..]), c);
    assert key.Schedule() == w;
  }

  /** The partial last block. */
  method DecryptPartial(input: array<bv8>, out: array<bv8>, pos: nat, n: nat, key: AesKey, ivec: array<bv8>,
                        tmp: array<bv8>)
    requires key.Valid() && 0 < n < 16 && pos + 16 <= input.Length && pos + n <= out.Length
    requires ivec.Length == tmp.Length == 16 && ivec != input && ivec != out
    requires tmp != input && tmp != out && tmp != ivec
    modifies out, ivec, tmp
    ensures var d := DecryptBlock(old(input[pos..pos + 16]), key.Schedule(), key.rounds);
      && ivec[..] == d
      && out[..] == Splice(old(out[..]), pos, XorBytes(d[..n], old(ivec[..])))
    ensures key.Schedule() == old(key.Schedule())
  {
    hide DecryptBlock, XorBytes, Splice;
    ghost var w, c := key.Schedule(), input[pos..pos + 16];
    CopyBlock(tmp, 0, input, pos);
    SpliceAll(old(tmp[..]), c);
    assert tmp[0..16] == c;
    Decrypt(tmp, 0, tmp, 0, key);
    ghost var d := DecryptBlock(c, w, key.rounds);
    SpliceAll(c, d);
    assert tmp[0..n] == d[..n];
    XorOut(out, pos, n, tmp, 0, ivec);
    assert tmp[0..16] == d;
    CopyBlock(ivec, 0, tmp, 0);
    SpliceAll(old(ivec[..]), d);
    assert key.Schedule() == w;
  }

  /** `done` is the ciphertext of the first pos bytes of p, and iv the chaining value there. */
  ghost predicate EncryptedSoFar(p: seq<bv8>, iv0: Block, enc: Block -> Block, pos: nat, done: seq<bv8>, iv: Block) {
    && pos <= |p| && pos % 16 == 0 && |done| == pos
    && CbcEncrypt(p, iv0, enc) == done + CbcEncrypt(p[pos..], iv, enc)
    && EncryptIv(p, iv0, enc) == EncryptIv(p[pos..], iv, enc)
  }

  lemma EncryptedStart(p: seq<bv8>, iv0: Block, enc: Block -> Block)
    ensures EncryptedSoFar(p, iv0, enc, 0, [], iv0)
  {
    assert p[0..] == p;
  }

  lemma EncryptedStep(p: seq<bv8>, iv0: Block, enc: Block -> Block, pos: nat, done: seq<bv8>, iv: Block, c: Block)
    requires EncryptedSoFar(p, iv0, enc, pos, done, iv) && pos + 16 <= |p|
    requires c == enc(XorBytes(p[pos..pos + 16], iv))
    ensures EncryptedSoFar(p, iv0, enc, pos + 16, done + c, c)
  {
    hide XorBytes, Padded;
    SliceOfDrop(p, pos, 16);
    assert done + (c + CbcEncrypt(p[pos + 16..], c, enc)) == (done + c) + CbcEncrypt(p[pos + 16..], c, enc);
  }

  lemma EncryptedEnd(p: seq<bv8>, iv0: Block, enc: Block -> Block, pos: nat, done: seq<bv8>, iv: Block)
    requires EncryptedSoFar(p, iv0, enc, pos, done, iv) && |p| < pos + 16
    ensures pos == |p| ==> CbcEncrypt(p, iv0, enc) == done && EncryptIv(p, iv0, enc) == iv
    ensures pos < |p| ==> var c: Block := enc(XorBytes(Padded(p[pos..]), iv));
      CbcEncrypt(p, iv0, enc) == done + c && EncryptIv(p, iv0, enc) == c
  {
    hide XorBytes, Padded;
  }

  lemma RoundUpAbove(length: nat)
    ensures length <= RoundUp(length)
  {}

  lemma BlockFits(length: nat, pos: nat)
    requires pos % 16 == 0 && pos < length
    ensures pos + 16 <= RoundUp(length)
  {}

  /** One iteration of the encrypting loop, with what it adds to the ciphertext so far. */
  method EncryptNext(input: array<bv8>, out: array<bv8>, pos: nat, length: nat, key: AesKey, ivec: array<bv8>,
                     tmp: array<bv8>,
                     ghost p: seq<bv8>, ghost iv0: Block, ghost was: seq<bv8>, ghost done: seq<bv8>)
    returns (ghost more: seq<bv8>)
    requires key.Valid() && pos + 16 <= length == |p| <= input.Length && pos + 16 <= out.Length == |was|
    requires ivec.Length == tmp.Length == 16 && ivec != input && ivec != out
    requires tmp != input && tmp != out && tmp != ivec
    requires |done| == pos && input[pos..length] == p[pos..] && out[..] == Splice(was, 0, done)
    requires EncryptedSoFar(p, iv0, EncryptWith(key.Schedule(), key.rounds), pos, done, ivec[..])
    modifies out, ivec, tmp
    ensures |more| == pos + 16 && input[pos + 16..length] == p[pos + 16..] && out[..] == Splice(was, 0, more)
    ensures key.Schedule() == old(key.Schedule())
    ensures EncryptedSoFar(p, iv0, EncryptWith(key.Schedule(), key.rounds), pos + 16, more, ivec[..])
  {
    hide EncryptBlock, XorBytes, Splice, EncryptedSoFar;
    ghost var enc, iv: Block := EncryptWith(key.Schedule(), key.rounds), ivec[..];
    SliceOfDrop(p, pos, 16);
    assert input[pos..pos + 16] == input[pos..length][..16];
    assert input[pos + 16..length] == input[pos..length][16..];
    EncryptWhole(input, out, pos, key, ivec, tmp);
    assert input[pos + 16..length] == old(input[pos + 16..length]);
    EncryptedStep(p, iv0, enc, pos, done, iv, ivec[..]);
    more := done + ivec[..];
    SpliceAdjacent(was, 0, done, ivec[..]);
  }

  /** The tail of the encrypting half. */
  method EncryptLast(input: array<bv8>, out: array<bv8>, pos: nat, length: nat, key: AesKey, ivec: array<bv8>,
                     tmp: array<bv8>,
                     ghost p: seq<bv8>, ghost iv0: Block, ghost was: seq<bv8>, ghost done: seq<bv8>)
    requires key.Valid() && pos < length == |p| < pos + 16 && length <= input.Length
    requires pos + 16 <= out.Length == |was|
    requires ivec.Length == tmp.Length == 16 && ivec != input && ivec != out
    requires tmp != input && tmp != out && tmp != ivec
    requires |done| == pos && input[pos..length] == p[pos..] && out[..] == Splice(was, 0, done)
    requires EncryptedSoFar(p, iv0, EncryptWith(key.Schedule(), key.rounds), pos, done, ivec[..])
    modifies out, ivec, tmp
    ensures var e := CbcEncrypt(p, iv0, EncryptWith(key.Schedule(), key.rounds));
      |e| <= |was| && out[..] == Splice(was, 0, e)
    ensures ivec[..] == EncryptIv(p, iv0, EncryptWith(key.Schedule(), key.rounds))
    ensures key.Schedule() == old(key.Schedule())
  {
    hide EncryptBlock, CbcEncrypt, EncryptIv, XorBytes, Padded, Splice, EncryptedSoFar;
    EncryptedEnd(p, iv0, EncryptWith(key.Schedule(), key.rounds), pos, done, ivec[..]);
    EncryptPartial(input, out, pos, length - pos, key, ivec, tmp);
    SpliceAdjacent(was, 0, done, ivec[..]);
  }

  /** The encrypting half. `input` and `out` may be the same array. */
  method EncryptBytes(input: array<bv8>, out: array<bv8>, length: nat, key: AesKey, ivec: array<bv8>)
    requires key.Valid() && length <= input.Length && RoundUp(length) <= out.Length
    requires ivec.Length == 16 && ivec != input && ivec != out
    modifies out, ivec
    ensures var enc := EncryptWith(key.Schedule(), key.rounds);
      && out[..] == Splice(old(out[..]), 0, CbcEncrypt(old(input[..length]), old(ivec[..]), enc))
      && ivec[..] == EncryptIv(old(input[..length]), old(ivec[..]), enc)
    ensures key.Schedule() == old(key.Schedule())
  {
    hide EncryptBlock, CbcEncrypt, EncryptIv, XorBytes, Padded, Splice, EncryptedSoFar, RoundUp;
    ghost var p, w, iv0: Block, was := input[..length], key.Schedule(), ivec[..], out[..];
    ghost var enc := EncryptWith(w, key.rounds);
    ghost var done: seq<bv8> := [];
    var tmp := new bv8[16];
    var pos := 0;
    RoundUpAbove(length);
    SpliceNothing(was, 0);
    EncryptedStart(p, iv0, enc);
    while length - pos >= 16
      invariant pos <= length <= out.Length == |was| && pos % 16 == 0 && fresh(tmp) && |done| == pos
      invariant key.Schedule() == w
      invariant input[pos..length] == p[pos..] && out[..] == Splice(was, 0, done)
      invariant EncryptedSoFar(p, iv0, enc, pos, done, ivec[..])
    {
      BlockFits(length, pos);
      done := EncryptNext(input, out, pos, length, key, ivec, tmp, p, iv0, was, done);
      pos := pos + 16;
    }
    if length - pos > 0 {
      BlockFits(length, pos);
      EncryptLast(input, out, pos, length, key, ivec, tmp, p, iv0, was, done);
    } else {
      EncryptedEnd(p, iv0, enc, pos, done, ivec[..]);
    }
  }

  /** `done` is the plaintext of the first pos bytes, and iv the chaining value there. */
  ghost predicate DecryptedSoFar(c: seq<bv8>, len: nat, iv0: Block, dec: Block -> Block, pos: nat, done: seq<bv8>,
                                 iv: Block)
    requires RoundUp(len) <= |c|
  {
    && pos <= len && pos % 16 == 0 && |done| == pos
    && CbcDecrypt(c, len, iv0, dec) == done + CbcDecrypt(c[pos..], len - pos, iv, dec)
    && DecryptIv(c, len, iv0, dec) == DecryptIv(c[pos..], len - pos, iv, dec)
  }

  lemma DecryptedStart(c: seq<bv8>, len: nat, iv0: Block, dec: Block -> Block)
    requires RoundUp(len) <= |c|
    ensures DecryptedSoFar(c, len, iv0, dec, 0, [], iv0)
  {
    assert c[0..] == c;
  }

  lemma DecryptedStep(c: seq<bv8>, len: nat, iv0: Block, dec: Block -> Block, pos: nat, done: seq<bv8>, iv: Block)
    requires RoundUp(len) <= |c| && DecryptedSoFar(c, len, iv0, dec, pos, done, iv) && pos + 16 <= len
    ensures DecryptedSoFar(c, len, iv0, dec, pos + 16, done + XorBytes(dec(c[pos..pos + 16]), iv), c[pos..pos + 16])
  {
    hide XorBytes, CbcDecrypt, DecryptIv;
    var head: Block := c[pos..pos + 16];
    assert c[pos..] == head + c[pos + 16..];
    DecryptUnfolds(c[pos..], len - pos, iv, dec, head, c[pos + 16..]);
    var x, more := XorBytes(dec(head), iv), CbcDecrypt(c[pos + 16..], len - pos - 16, head, dec);
    assert done + (x + more) == (done + x) + more;
  }

  lemma DecryptedEnd(c: seq<bv8>, len: nat, iv0: Block, dec: Block -> Block, pos: nat, done: seq<bv8>, iv: Block)
    requires RoundUp(len) <= |c| && DecryptedSoFar(c, len, iv0, dec, pos, done, iv) && len < pos + 16
    ensures pos == len ==> CbcDecrypt(c, len, iv0, dec) == done && DecryptIv(c, len, iv0, dec) == iv
    ensures pos < len ==> var d: Block := dec(c[pos..pos + 16]);
      CbcDecrypt(c, len, iv0, dec) == done + XorBytes(d[..len - pos], iv) && DecryptIv(c, len, iv0, dec) == d
  {
    hide XorBytes;
    if pos < len {
      SliceOfDrop(c, pos, 16);
    }
  }

  /** One iteration of the decrypting loop, with what it adds to the plaintext so far. */
  method DecryptNext(input: array<bv8>, out: array<bv8>, pos: nat, length: nat, key: AesKey, ivec: array<bv8>,
                     tmp: array<bv8>,
                     ghost c: seq<bv8>, ghost iv0: Block, ghost was: seq<bv8>, ghost done: seq<bv8>)
    returns (ghost more: seq<bv8>)
    requires key.Valid() && RoundUp(length) <= |c| == input.Length && pos + 16 <= length <= out.Length == |was|
    requires pos + 16 <= |c|
    requires ivec.Length == tmp.Length == 16 && ivec != input && ivec != out
    requires tmp != input && tmp != out && tmp != ivec
    requires |done| == pos && input[pos..] == c[pos..] && out[..] == Splice(was, 0, done)
    requires DecryptedSoFar(c, length, iv0, DecryptWith(key.Schedule(), key.rounds), pos, done, ivec[..])
    modifies out, ivec, tmp
    ensures |more| == pos + 16 && input[pos + 16..] == c[pos + 16..] && out[..] == Splice(was, 0, more)
    ensures key.Schedule() == old(key.Schedule())
    ensures DecryptedSoFar(c, length, iv0, DecryptWith(key.Schedule(), key.rounds), pos + 16, more, ivec[..])
  {
    hide DecryptBlock, XorBytes, Splice, DecryptedSoFar, RoundUp;
    ghost var dec, iv: Block := DecryptWith(key.Schedule(), key.rounds), ivec[..];
    SliceOfDrop(input[..], pos, 16);
    SliceOfDrop(c, pos, 16);
    assert input[pos..pos + 16] == input[pos..][..16];
    assert input[pos + 16..] == input[pos..][16..];
    DecryptWhole(input, out, pos, key, ivec, tmp);
    DecryptedStep(c, length, iv0, dec, pos, done, iv);
    more := done + XorBytes(dec(c[pos..pos + 16]), iv);
    SpliceAdjacent(was, 0, done, XorBytes(dec(c[pos..pos + 16]), iv));
  }

  /** The tail of the decrypting half. */
  method DecryptLast(input: array<bv8>, out: array<bv8>, pos: nat, length: nat, key: AesKey, ivec: array<bv8>,
                     tmp: array<bv8>,
                     ghost c: seq<bv8>, ghost iv0: Block, ghost was: seq<bv8>, ghost done: seq<bv8>)
    requires key.Valid() && RoundUp(length) <= |c| == input.Length && pos < length < pos + 16
    requires length <= out.Length == |was|
    requires ivec.Length == tmp.Length == 16 && ivec != input && ivec != out
    requires tmp != input && tmp != out && tmp != ivec
    requires pos % 16 == 0 && |done| == pos && input[pos..] == c[pos..] && out[..] == Splice(was, 0, done)
    requires DecryptedSoFar(c, length, iv0, DecryptWith(key.Schedule(), key.rounds), pos, done, ivec[..])
    modifies out, ivec, tmp
    ensures out[..] == Splice(was, 0, CbcDecrypt(c, length, iv0, DecryptWith(key.Schedule(), key.rounds)))
    ensures ivec[..] == DecryptIv(c, length, iv0, DecryptWith(key.Schedule(), key.rounds))
    ensures key.Schedule() == old(key.Schedule())
  {
    hide DecryptBlock, CbcDecrypt, DecryptIv, XorBytes, Splice, DecryptedSoFar, RoundUp;
    ghost var dec, iv: Block := DecryptWith(key.Schedule(), key.rounds), ivec[..];
    BlockFits(length, pos);
    SliceOfDrop(input[..], pos, 16);
    SliceOfDrop(c, pos, 16);
    assert input[pos..pos + 16] == input[pos..][..16];
    DecryptedEnd(c, length, iv0, dec, pos, done, iv);
    DecryptPartial(input, out, pos, length - pos, key, ivec, tmp);
    SpliceAdjacent(was, 0, done, XorBytes(dec(c[pos..pos + 16])[..length - pos], iv));
  }

  /** The decrypting half. `input` and `out` may be the same array. */
  method DecryptBytes(input: array<bv8>, out: array<bv8>, length: nat, key: AesKey, ivec: array<bv8>)
    requires key.Valid() && RoundUp(length) <= input.Length && length <= out.Length
    requires ivec.Length == 16 && ivec != input && ivec != out
    modifies out, ivec
    ensures var dec := DecryptWith(key.Schedule(), key.rounds);
      && out[..] == Splice(old(out[..]), 0, CbcDecrypt(old(input[..]), length, old(ivec[..]), dec))
      && ivec[..] == DecryptIv(old(input[..]), length, old(ivec[..]), dec)
    ensures key.Schedule() == old(key.Schedule())
  {
    hide DecryptBlock, CbcDecrypt, DecryptIv, XorBytes, Splice, DecryptedSoFar, RoundUp, DecryptWith;
    ghost var c, w, iv0: Block, was := input[..], key.Schedule(), ivec[..], out[..];
    ghost var dec := DecryptWith(w, key.rounds);
    ghost var done: seq<bv8> := [];
    var tmp := new bv8[16];
    var pos := 0;
    SpliceNothing(was, 0);
    DecryptedStart(c, length, iv0, dec);
    while length - pos >= 16
      invariant pos <= length && pos % 16 == 0 && fresh(tmp) && |done| == pos
      invariant key.Schedule() == w
      invariant pos <= input.Length == |c| && input[pos..] == c[pos..] && out[..] == Splice(was, 0, done)
      invariant DecryptedSoFar(c, length, iv0, dec, pos, done, ivec[..])
    {
      BlockFits(length, pos);
      done := DecryptNext(input, out, pos, length, key, ivec, tmp, c, iv0, was, done);
      pos := pos + 16;
    }
    if length - pos > 0 {
      DecryptLast(input, out, pos, length, key, ivec, tmp, c, iv0, was, done);
    } else {
      DecryptedEnd(c, length, iv0, dec, pos, done, ivec[..]);
    }
  }

  /** AES_cbc_encrypt. */
  method CbcCrypt(input: array<bv8>, out: array<bv8>, length: nat, key: AesKey, ivec: array<bv8>, enc: bool)
    requires key.Valid() && ivec.Length == 16 && ivec != input && ivec != out
    requires if enc then length <= input.Length && RoundUp(length) <= out.Length
             else RoundUp(length) <= input.Length && length <= out.Length
    modifies out, ivec
    ensures enc ==>
      && out[..] == Splice(old(out[..]), 0,
                           CbcEncrypt(old(input[..length]), old(ivec[..]), EncryptWith(key.Schedule(), key.rounds)))
      && ivec[..] == EncryptIv(old(input[..length]), old(ivec[..]), EncryptWith(key.Schedule(), key.rounds))
    ensures !enc ==>
      && out[..] == Splice(old(out[..]), 0,
                           CbcDecrypt(old(input[..]), length, old(ivec[..]), DecryptWith(key.Schedule(), key.rounds)))
      && ivec[..] == DecryptIv(old(input[..]), length, old(ivec[..]), DecryptWith(key.Schedule(), key.rounds))
    ensures key.Schedule() == old(key.Schedule())
  {
    hide EncryptWith, DecryptWith, CbcEncrypt, CbcDecrypt, EncryptIv, DecryptIv, Splice;
    if enc {
      EncryptBytes(input, out, length, key, ivec);
    } else {
      DecryptBytes(input, out, length, key, ivec);
    }
  }
}
