/** The word searches of vmm/bitops.h and the bitmap scans of vmm/bitops.c. */
module Bitops {
  import opened Bits

  // ---------- Halving searches in one word ----------

  /** No bit of w below n is set. */
  ghost predicate ClearBelow(w: nat, n: nat) { forall k: nat :: k < n ==> !Bit(w, k) }

  /** No bit of w from n on is set. */
  ghost predicate ClearFrom(w: nat, n: nat) { forall k: nat :: n <= k < 64 ==> !Bit(w, k) }

  /** Testing w against a mask of h low ones tells whether its lowest h bits are clear. */
  lemma LowMask(w: Word, h: nat)
    requires h <= 64
    ensures And(w, Pow2(h) - 1) == 0 <==> ClearBelow(w, h)
  {
    AndLowMask(w, h);
    var r := w % Pow2(h);
    if r == 0 {
      forall k: nat | k < h ensures !Bit(w, k) { BitMod(w, h, k); BitZero(k); }
    } else {
      var k := SomeBit(r, h);
      BitMod(w, h, k);
    }
  }

  /** One step of bitops_ffsl: if the low half is clear, continue in the high half. */
  method SkipLow(orig: Word, word: Word, num: nat, h: nat, mask: Word) returns (word': Word, num': nat)
    requires 1 <= h <= 32 && mask == Pow2(h) - 1
    requires word == Shr(orig, num) && ClearBelow(orig, num) && !ClearBelow(word, 2 * h)
    ensures word' == Shr(orig, num') && ClearBelow(orig, num') && !ClearBelow(word', h)
    ensures num <= num' <= num + h
  {
    word', num' := word, num;
    LowMask(word, h);
    if And(word, mask) == 0 {
      num' := num + h;
      ShrAdd(orig, num, h);
      ShrBound(word, h);
      word' := Shr(word, h);
      forall k: nat | k < num' ensures !Bit(orig, k) {
        if num <= k { BitShr(orig, num, k - num); }
      }
      var k: nat :| k < 2 * h && Bit(word, k);
      BitShr(word, h, k - h);
    }
  }

  lemma {:induction false} ShrAdd(w: nat, m: nat, n: nat)
    ensures Shr(Shr(w, m), n) == Shr(w, m + n)
    decreases m
  {
    if m > 0 {
      ShrAdd(w / 2, m - 1, n);
    }
  }

  lemma {:induction false} ShrBound(w: nat, n: nat)
    ensures Shr(w, n) <= w
    decreases n
  {
    if n > 0 {
      ShrBound(w / 2, n - 1);
    }
  }

  lemma MaskConstants()
    ensures 0xffffffff == Pow2(32) - 1 && 0xffff == Pow2(16) - 1 && 0xff == Pow2(8) - 1
    ensures 0xf == Pow2(4) - 1 && 0x3 == Pow2(2) - 1 && 0x1 == Pow2(1) - 1
  {
    assert Pow2(8) == 256;
    Pow2Add(8, 8);
    Pow2Add(16, 16);
  }

  /** bitops_ffsl: the lowest set bit. */
  method Ffsl(w: Word) returns (num: nat)
    requires w != 0
    ensures num < 64 && Bit(w, num) && ClearBelow(w, num)
  {
    hide Bit, Pow2, And, Shr;
    MaskConstants();
    var word := w;
    num := 0;
    ghost var k := SomeWordBit(w);
    assert word == Shr(w, 0) by { ShrNone(w); }
    word, num := SkipLow(w, word, num, 32, 0xffffffff);
    word, num := SkipLow(w, word, num, 16, 0xffff);
    word, num := SkipLow(w, word, num, 8, 0xff);
    word, num := SkipLow(w, word, num, 4, 0xf);
    word, num := SkipLow(w, word, num, 2, 0x3);
    word, num := SkipLow(w, word, num, 1, 0x1);
    BitShr(w, num, 0);
    assert Bit(word, 0);
  }

  lemma ShrNone(w: nat)
    ensures Shr(w, 0) == w
  {}

  /** ffz: the lowest clear bit. */
  method Ffz(w: Word) returns (num: nat)
    requires w != ULONG_MAX
    ensures num < 64 && !Bit(w, num) && forall k: nat :: k < num ==> Bit(w, k)
  {
    hide Bit;
    num := Ffsl(Not(w));
    forall k: nat | k <= num ensures Bit(Not(w), k) <==> !Bit(w, k) { BitNot(w, k); }
  }

  lemma ZeroIffClear(w: Word)
    ensures w == 0 <==> ClearBelow(w, 64)
  {
    if w == 0 {
      forall k: nat | k < 64 ensures !Bit(w, k) { BitZero(k); }
    } else {
      var k := SomeWordBit(w);
    }
  }

  /** ~0UL << n, bit by bit. */
  lemma HighOnes(n: nat, k: nat)
    requires k < 64
    ensures Bit(Shl(ULONG_MAX, n), k) <==> n <= k
  {
    BitShl(ULONG_MAX, n, k);
    if n <= k {
      BitAllOnes(k - n);
    }
  }

  /** ~0UL >> (64 - n), bit by bit. */
  lemma LowOnes(n: nat, k: nat)
    requires n <= 64
    ensures Bit(Shr(ULONG_MAX, 64 - n), k) <==> k < n
  {
    BitShr(ULONG_MAX, 64 - n, k);
    BitAllOnes(64 - n + k);
  }

  /** One step of bitops_flsl: if the top h bits are clear, shift them out. */
  method SkipHigh(orig: Word, word: Word, num: int, h: nat) returns (word': Word, num': int)
    requires 1 <= h <= 32 && 2 * h - 1 <= num <= 63
    requires word == Shl(orig, 63 - num) && ClearFrom(orig, num + 1) && !ClearFrom(word, 64 - 2 * h)
    ensures num - h <= num' <= num
    ensures word' == Shl(orig, 63 - num') && ClearFrom(orig, num' + 1) && !ClearFrom(word', 64 - h)
  {
    hide Bit, Shl, And;
    word', num' := word, num;
    var mask := Shl(ULONG_MAX, 64 - h);
    var top: Word := And(word, mask);
    ZeroIffClear(top);
    forall k: nat | k < 64 ensures Bit(top, k) <==> 64 - h <= k && Bit(word, k) {
      BitAnd(word, mask, k);
      HighOnes(64 - h, k);
    }
    if top == 0 {
      num' := num - h;
      ShlAdd(orig, 63 - num, h);
      word' := Shl(word, h);
      forall k: nat | num' < k < 64 ensures !Bit(orig, k) {
        if k <= num { BitShl(orig, 63 - num, k + (63 - num)); assert !Bit(top, k + (63 - num)); }
      }
      var k: nat :| 64 - 2 * h <= k < 64 && Bit(word, k);
      assert !Bit(top, k);
      BitShl(word, h, k + h);
    }
  }

  lemma {:induction false} ShlAdd(w: Word, m: nat, n: nat)
    ensures Shl(Shl(w, m), n) == Shl(w, m + n)
    decreases n
  {
    if n > 0 {
      ShlAdd(w, m, n - 1);
    }
  }

  /** bitops_flsl: the highest set bit. */
  method Flsl(w: Word) returns (num: int)
    requires w != 0
    ensures 0 <= num < 64 && Bit(w, num) && ClearFrom(w, num + 1)
  {
    hide Bit, And, Shl;
    var word := w;
    num := 63;
    ghost var k := SomeWordBit(w);
    assert word == Shl(w, 0) by { ShlNone(w); }
    word, num := SkipHigh(w, word, num, 32);
    word, num := SkipHigh(w, word, num, 16);
    word, num := SkipHigh(w, word, num, 8);
    word, num := SkipHigh(w, word, num, 4);
    word, num := SkipHigh(w, word, num, 2);
    word, num := SkipHigh(w, word, num, 1);
    assert Bit(word, 63);
    BitShl(w, 63 - num, 63);
  }

  lemma ShlNone(w: Word)
    ensures Shl(w, 0) == w
  {}

  // ---------- Scans over a bitmap ----------

  /** Bit i of a bitmap: test_bit. */
  predicate BitAt(addr: seq<Word>, i: nat)
    requires i < 64 * |addr|
  {
    Bit(addr[i / 64], i % 64)
  }

  /** r is the first index in [offset, size) whose bit has the given value, or size. */
  ghost predicate FirstFrom(addr: seq<Word>, size: nat, offset: nat, value: bool, r: nat)
    requires size <= 64 * |addr|
  {
    if offset >= size then
      r == size
    else
      && offset <= r <= size
      && (r < size ==> BitAt(addr, r) == value)
      && forall k :: offset <= k < r ==> BitAt(addr, k) != value
  }

  /** tmp shows, for the word at base, which positions in [lo, hi) hold the value. */
  ghost predicate Shows(tmp: Word, addr: seq<Word>, base: nat, lo: nat, hi: nat, value: bool)
    requires base + 64 <= 64 * |addr|
  {
    forall k: nat :: k < 64 ==> (Bit(tmp, k) <==> lo <= base + k < hi && BitAt(addr, base + k) == value)
  }

  ghost predicate NoneIn(addr: seq<Word>, lo: nat, hi: nat, value: bool)
    requires hi <= 64 * |addr|
  {
    forall k :: lo <= k < hi ==> BitAt(addr, k) != value
  }

  lemma WordBits(addr: seq<Word>, p: nat, k: nat)
    requires p < |addr| && k < 64
    ensures BitAt(addr, 64 * p + k) == Bit(addr[p], k)
  {}

  /** x & ~63 */
  lemma WholeWords(x: nat)
    ensures AndNot(x, 63) == x - x % 64
  {
    assert Pow2(6) == 64;
    AndLowMask(x, 6);
  }

  /** found_middle: the first position that tmp shows. */
  method FoundMiddle(tmp: Word, base: nat, ghost addr: seq<Word>, ghost lo: nat, ghost hi: nat, ghost value: bool)
    returns (r: nat)
    requires base + 64 <= 64 * |addr| && tmp != 0 && Shows(tmp, addr, base, lo, hi, value)
    requires base <= lo || NoneIn(addr, lo, base, value)
    ensures lo <= r < hi && r < base + 64 && BitAt(addr, r) == value && NoneIn(addr, lo, r, value)
  {
    hide Bit, BitAt;
    var num := Ffsl(tmp);
    r := base + num;
    assert Bit(tmp, num);
    forall k | lo <= k < r ensures BitAt(addr, k) != value {
      if base <= k { assert !Bit(tmp, k - base); assert base + (k - base) == k; }
    }
  }

  /** The same for the clear bits of tmp, with ffz. */
  method FoundMiddleZero(tmp: Word, base: nat, ghost addr: seq<Word>, ghost lo: nat, ghost hi: nat) returns (r: nat)
    requires base + 64 <= 64 * |addr| && tmp != ULONG_MAX && Shows(Not(tmp), addr, base, lo, hi, false)
    requires base <= lo || NoneIn(addr, lo, base, false)
    ensures lo <= r < hi && r < base + 64 && BitAt(addr, r) == false && NoneIn(addr, lo, r, false)
  {
    hide Bit, BitAt;
    var num := Ffz(tmp);
    forall k: nat | k <= num ensures Bit(Not(tmp), k) <==> !Bit(tmp, k) { BitNot(tmp, k); }
    r := base + num;
    assert Bit(Not(tmp), num);
    forall k | lo <= k < r ensures BitAt(addr, k) != false {
      if base <= k { assert !Bit(Not(tmp), k - base); assert base + (k - base) == k; }
    }
  }

  /** Nothing shown means nothing there. */
  lemma NothingShown(tmp: Word, addr: seq<Word>, base: nat, lo: nat, hi: nat, value: bool)
    requires base + 64 <= 64 * |addr| && hi <= 64 * |addr| && Shows(tmp, addr, base, lo, hi, value) && tmp == 0
    requires base <= lo || NoneIn(addr, lo, base, value)
    ensures forall k :: lo <= k < hi && k < base + 64 ==> BitAt(addr, k) != value
  {
    hide Bit, BitAt;
    forall k | lo <= k < hi && k < base + 64 ensures BitAt(addr, k) != value {
      if base <= k { BitZero(k - base); assert base + (k - base) == k; }
    }
  }

  /** A word masked to the positions from lo on shows the set bits there. */
  lemma MaskedFrom(addr: seq<Word>, p: nat, off: nat)
    requires p < |addr| && off < 64
    ensures Shows(And(addr[p], Shl(ULONG_MAX, off)), addr, 64 * p, 64 * p + off, 64 * p + 64, true)
  {
    hide Shl;
    var tmp: Word := And(addr[p], Shl(ULONG_MAX, off));
    forall k: nat | k < 64 ensures Bit(tmp, k) <==> off <= k && BitAt(addr, 64 * p + k) == true {
      BitAnd(addr[p], Shl(ULONG_MAX, off), k);
      HighOnes(off, k);
      WordBits(addr, p, k);
    }
  }

  /** Masking further to the positions below n. */
  lemma MaskedBelow(tmp0: Word, addr: seq<Word>, base: nat, lo: nat, n: nat, tmp: Word)
    requires base + 64 <= 64 * |addr| && n <= 64 && Shows(tmp0, addr, base, lo, base + 64, true)
    requires tmp == And(tmp0, Shr(ULONG_MAX, 64 - n))
    ensures Shows(tmp, addr, base, lo, base + n, true)
  {
    hide Bit, And, Shr, BitAt;
    forall k: nat | k < 64 ensures Bit(tmp, k) <==> Bit(tmp0, k) && k < n {
      BitAnd(tmp0, Shr(ULONG_MAX, 64 - n), k);
      LowOnes(n, k);
    }
  }

  lemma WholeWord(addr: seq<Word>, p: nat, lo: nat)
    requires p < |addr| && lo <= 64 * p
    ensures Shows(addr[p], addr, 64 * p, lo, 64 * p + 64, true)
    ensures Shows(Not(addr[p]), addr, 64 * p, lo, 64 * p + 64, false)
  {
    forall k: nat | k < 64
      ensures Bit(addr[p], k) <==> BitAt(addr, 64 * p + k)
      ensures Bit(Not(addr[p]), k) <==> !BitAt(addr, 64 * p + k)
    {
      WordBits(addr, p, k);
      BitNot(addr[p], k);
    }
  }

  /** find_next_bit */
  method FindNextBit(addr: seq<Word>, size0: nat, offset0: nat) returns (r: nat)
    requires size0 <= 64 * |addr|
    ensures FirstFrom(addr, size0, offset0, true, r)
  {
    hide Bit, BitAt, And, Shl, Shr, AndNot, Shows;
    var p, size, offset := offset0 / 64, size0, offset0;
    WholeWords(offset);
    var result := AndNot(offset, 63);
    if offset >= size {
      return size;
    }
    size := size - result;
    offset := offset % 64;
    if offset != 0 {
      var tmp: Word := And(addr[p], Shl(ULONG_MAX, offset));
      MaskedFrom(addr, p, offset);
      if size < 64 {
        r := FoundFirst(addr, tmp, result, size, offset0);
        return;
      }
      if tmp != 0 {
        r := FoundMiddle(tmp, result, addr, offset0, result + 64, true);
        return;
      }
      NothingShown(tmp, addr, result, offset0, result + 64, true);
      p, size, result := p + 1, size - 64, result + 64;
    }
    WholeWords(size);
    while AndNot(size, 63) != 0
      invariant 0 <= size && result == 64 * p && result + size == size0 && AndNot(size, 63) == size - size % 64
      invariant result <= offset0 || NoneIn(addr, offset0, result, true)
      invariant offset0 <= result
    {
      var tmp := addr[p];
      WholeWord(addr, p, result);
      if tmp != 0 {
        ShowsFrom(tmp, addr, result, result, offset0, true);
        r := FoundMiddle(tmp, result, addr, offset0, result + 64, true);
        return;
      }
      NothingShown(tmp, addr, result, result, result + 64, true);
      p, result, size := p + 1, result + 64, size - 64;
      WholeWords(size);
    }
    if size == 0 {
      return result;
    }
    WholeWord(addr, p, result);
    ShowsFrom(addr[p], addr, result, result, offset0, true);
    r := FoundFirst(addr, addr[p], result, size, offset0);
  }

  /** Lowering the bound below the word shows nothing new. */
  lemma ShowsFrom(tmp: Word, addr: seq<Word>, base: nat, lo: nat, lo': nat, value: bool)
    requires base + 64 <= 64 * |addr| && lo' <= lo <= base && Shows(tmp, addr, base, lo, base + 64, value)
    ensures Shows(tmp, addr, base, lo', base + 64, value)
  {
    hide Bit, BitAt;
  }

  /** found_first: the last, partial word. */
  method FoundFirst(ghost addr: seq<Word>, tmp0: Word, result: nat, size: nat, ghost offset: nat) returns (r: nat)
    requires 0 < size < 64 && result + 64 <= 64 * |addr| && offset < result + size
    requires Shows(tmp0, addr, result, offset, result + 64, true)
    requires result <= offset || NoneIn(addr, offset, result, true)
    ensures FirstFrom(addr, result + size, offset, true, r)
  {
    hide Bit, BitAt, And, Shr;
    var tmp: Word := And(tmp0, Shr(ULONG_MAX, 64 - size));
    MaskedBelow(tmp0, addr, result, offset, size, tmp);
    if tmp == 0 {
      NothingShown(tmp, addr, result, offset, result + size, true);
      return result + size;
    }
    r := FoundMiddle(tmp, result, addr, offset, result + size, true);
  }

  /** A word with the positions below off filled in shows the clear bits from there on. */
  lemma FilledBelow(addr: seq<Word>, p: nat, off: nat, tmp: Word)
    requires p < |addr| && off < 64 && tmp == Or(addr[p], Shr(ULONG_MAX, 64 - off))
    ensures Shows(Not(tmp), addr, 64 * p, 64 * p + off, 64 * p + 64, false)
  {
    hide Bit, Shr, Or;
    forall k: nat | k < 64 ensures Bit(Not(tmp), k) <==> off <= k && BitAt(addr, 64 * p + k) == false {
      BitNot(tmp, k);
      BitOr(addr[p], Shr(ULONG_MAX, 64 - off), k);
      LowOnes(off, k);
      WordBits(addr, p, k);
    }
  }

  /** Filling in the positions from n on. */
  lemma FilledFrom(tmp0: Word, addr: seq<Word>, base: nat, lo: nat, n: nat, tmp: Word)
    requires base + 64 <= 64 * |addr| && n < 64 && Shows(Not(tmp0), addr, base, lo, base + 64, false)
    requires tmp == Or(tmp0, Shl(ULONG_MAX, n))
    ensures Shows(Not(tmp), addr, base, lo, base + n, false)
  {
    hide Bit, Shl, Or, BitAt;
    forall k: nat | k < 64 ensures Bit(Not(tmp), k) <==> Bit(Not(tmp0), k) && k < n {
      BitNot(tmp, k);
      BitNot(tmp0, k);
      BitOr(tmp0, Shl(ULONG_MAX, n), k);
      HighOnes(n, k);
    }
  }

  lemma {:induction false} OrBound(x: nat, y: nat, n: nat)
    requires x < Pow2(n) && y < Pow2(n)
    ensures Or(x, y) < Pow2(n)
    decreases n
  {
    if x > 0 && n > 0 {
      OrBound(x / 2, y / 2, n - 1);
    }
  }

  /** x | y of two words is a word. */
  function OrWord(x: Word, y: Word): (w: Word)
    ensures w == Or(x, y)
  {
    Pow2Of64();
    OrBound(x, y, 64);
    Or(x, y)
  }

  /** find_next_zero_bit */
  method FindNextZeroBit(addr: seq<Word>, size0: nat, offset0: nat) returns (r: nat)
    requires size0 <= 64 * |addr|
    ensures FirstFrom(addr, size0, offset0, false, r)
  {
    hide Bit, BitAt, And, Or, Shl, Shr, AndNot, Shows;
    var p, size, offset := offset0 / 64, size0, offset0;
    WholeWords(offset);
    var result := AndNot(offset, 63);
    if offset >= size {
      return size;
    }
    size := size - result;
    offset := offset % 64;
    if offset != 0 {
      ShrBound(ULONG_MAX, 64 - offset);
      var tmp: Word := OrWord(addr[p], Shr(ULONG_MAX, 64 - offset));
      FilledBelow(addr, p, offset, tmp);
      if size < 64 {
        r := FoundFirstZero(addr, tmp, result, size, offset0);
        return;
      }
      if Not(tmp) != 0 {
        r := FoundMiddleZero(tmp, result, addr, offset0, result + 64);
        return;
      }
      NothingShown(Not(tmp), addr, result, offset0, result + 64, false);
      p, size, result := p + 1, size - 64, result + 64;
    }
    WholeWords(size);
    while AndNot(size, 63) != 0
      invariant 0 <= size && result == 64 * p && result + size == size0 && AndNot(size, 63) == size - size % 64
      invariant result <= offset0 || NoneIn(addr, offset0, result, false)
      invariant offset0 <= result
    {
      var tmp := addr[p];
      WholeWord(addr, p, result);
      if Not(tmp) != 0 {
        ShowsFrom(Not(tmp), addr, result, result, offset0, false);
        r := FoundMiddleZero(tmp, result, addr, offset0, result + 64);
        return;
      }
      NothingShown(Not(tmp), addr, result, result, result + 64, false);
      p, result, size := p + 1, result + 64, size - 64;
      WholeWords(size);
    }
    if size == 0 {
      return result;
    }
    WholeWord(addr, p, result);
    ShowsFrom(Not(addr[p]), addr, result, result, offset0, false);
    r := FoundFirstZero(addr, addr[p], result, size, offset0);
  }

  method FoundFirstZero(ghost addr: seq<Word>, tmp0: Word, result: nat, size: nat, ghost offset: nat) returns (r: nat)
    requires 0 < size < 64 && result + 64 <= 64 * |addr| && offset < result + size
    requires Shows(Not(tmp0), addr, result, offset, result + 64, false)
    requires result <= offset || NoneIn(addr, offset, result, false)
    ensures FirstFrom(addr, result + size, offset, false, r)
  {
    hide Bit, BitAt, Or, Shl;
    var tmp: Word := OrWord(tmp0, Shl(ULONG_MAX, size));
    FilledFrom(tmp0, addr, result, offset, size, tmp);
    if tmp == ULONG_MAX {
      NothingShown(Not(tmp), addr, result, offset, result + size, false);
      return result + size;
    }
    r := FoundMiddleZero(tmp, result, addr, offset, result + size);
  }

  /** find_last_bit: the last set bit below size, or size. */
  method FindLastBit(addr: seq<Word>, size: nat) returns (r: nat)
    requires size <= 64 * |addr|
    ensures r <= size && (r < size ==> BitAt(addr, r))
    ensures forall k :: (if r < size then r + 1 else 0) <= k < size ==> !BitAt(addr, k)
  {
    hide Bit, BitAt, And, Shr, Shows;
    var words := size / 64;
    assert And(size, 63) == size % 64 by { assert Pow2(6) == 64; AndLowMask(size, 6); }
    if And(size, 63) != 0 {
      var tmp: Word := And(addr[words], Shr(ULONG_MAX, 64 - And(size, 63)));
      WholeWord(addr, words, 64 * words);
      MaskedBelow(addr[words], addr, 64 * words, 64 * words, size % 64, tmp);
      if tmp != 0 {
        r := LastShown(tmp, addr, 64 * words, size);
        return;
      }
      NothingShown(tmp, addr, 64 * words, 64 * words, size, true);
    }
    while words != 0
      invariant 0 <= 64 * words <= size
      invariant forall k :: 64 * words <= k < size ==> !BitAt(addr, k)
    {
      words := words - 1;
      var tmp := addr[words];
      WholeWord(addr, words, 64 * words);
      if tmp != 0 {
        r := LastShown(tmp, addr, 64 * words, 64 * words + 64);
        return;
      }
      NothingShown(tmp, addr, 64 * words, 64 * words, 64 * words + 64, true);
    }
    return size;
  }

  method LastShown(tmp: Word, ghost addr: seq<Word>, base: nat, ghost hi: nat) returns (r: nat)
    requires base + 64 <= 64 * |addr| && hi <= base + 64 && tmp != 0 && Shows(tmp, addr, base, base, hi, true)
    ensures base <= r < hi && BitAt(addr, r) && forall k :: r < k < hi ==> !BitAt(addr, k)
  {
    hide Bit, BitAt;
    var num := Flsl(tmp);
    r := base + num;
    assert Bit(tmp, num);
    forall k | r < k < hi ensures !BitAt(addr, k) {
      assert !Bit(tmp, k - base);
      assert base + (k - base) == k;
    }
  }
}
