/** The in-place updates and the aligned first-fit search of vmm/bitmap.c. */
module Bitmap {
  import opened Bits
  import opened Bitops

  // ---------- bitmap_find_next_zero_area ----------

  /** ALIGN_MASK(x, mask) */
  function AlignMask(x: nat, mask: nat): nat { AndNot(x + mask, mask) }

  lemma DivMod(y: nat, a: nat)
    requires a >= 1
    ensures y - y % a == a * (y / a) && y % a < a
  {}

  lemma AlignMaskIs(x: nat, n: nat)
    ensures AlignMask(x, Pow2(n) - 1) == Pow2(n) * ((x + Pow2(n) - 1) / Pow2(n))
  {
    AndLowMask(x + Pow2(n) - 1, n);
    hide Pow2, And;
    DivMod(x + Pow2(n) - 1, Pow2(n));
  }

  lemma MultipleUp(a: nat, x: nat, j: nat)
    requires a >= 1 && x <= j && j % a == 0
    ensures a * ((x + a - 1) / a) <= j
  {
    DivMod(x + a - 1, a);
    DivMod(j, a);
    LeastMultiple(a, (x + a - 1) / a, j / a, x);
  }

  /** For a mask of n ones, ALIGN_MASK gives the least multiple of 2^n not below x. */
  lemma AlignMaskIsLeast(x: nat, n: nat)
    ensures x <= AlignMask(x, Pow2(n) - 1) && AlignMask(x, Pow2(n) - 1) % Pow2(n) == 0
    ensures forall j: nat :: x <= j && j % Pow2(n) == 0 ==> AlignMask(x, Pow2(n) - 1) <= j
  {
    hide AlignMask, Pow2;
    var a := Pow2(n);
    AlignMaskIs(x, n);
    DivMod(x + a - 1, a);
    ModUnique(AlignMask(x, a - 1), a, (x + a - 1) / a, 0);
    forall j: nat | x <= j && j % a == 0 ensures AlignMask(x, a - 1) <= j {
      MultipleUp(a, x, j);
    }
  }

  lemma LeastMultiple(a: nat, q: nat, d: nat, x: nat)
    requires a >= 1 && a * q <= x + a - 1 && x <= a * d
    ensures a * q <= a * d
  {
    assert a * q - a * d == a * (q - d);
    if d < q {
      AtLeastOnce(a, q - d);
      assert false;
    }
  }

  /** nr clear bits that start at an aligned index i >= start and end within size. */
  ghost predicate ZeroArea(addr: seq<Word>, size: nat, start: nat, nr: nat, a: nat, i: nat)
    requires size <= 64 * |addr| && a >= 1
  {
    && start <= i && i % a == 0 && i + nr <= size
    && forall k :: i <= k < i + nr ==> !BitAt(addr, k)
  }

  /** The right answer: the least area, or a value above size if there is none. */
  ghost predicate LeastArea(addr: seq<Word>, size: nat, start: nat, nr: nat, a: nat, r: nat)
    requires size <= 64 * |addr| && a >= 1
  {
    && (r <= size ==> ZeroArea(addr, size, start, nr, a, r))
    && forall j: nat :: j < r || size < r ==> !ZeroArea(addr, size, start, nr, a, j)
  }

  // The search as the source runs it: sums are unsigned and wrap around at 2^64.

  const WRAP: nat := ULONG_MAX + 1

  /** ALIGN_MASK in unsigned arithmetic. */
  function AlignMaskWrapped(x: nat, mask: nat): nat { AndNot((x + mask) % WRAP, mask) }

  /** What find_next_bit and find_next_zero_bit return. */
  function First(addr: seq<Word>, size: nat, offset: nat, value: bool): (r: nat)
    requires size <= 64 * |addr|
    ensures FirstFrom(addr, size, offset, value, r)
    decreases size - offset
  {
    if offset >= size then size
    else if BitAt(addr, offset) == value then offset
    else First(addr, size, offset + 1, value)
  }

  lemma FirstUnique(addr: seq<Word>, size: nat, offset: nat, value: bool, r: nat)
    requires size <= 64 * |addr| && FirstFrom(addr, size, offset, value, r)
    ensures r == First(addr, size, offset, value)
  {
    hide BitAt, First;
    var f := First(addr, size, offset, value);
    assert forall k :: offset <= k < f ==> BitAt(addr, k) != value;
  }

  /** One pass ends the search, or goes back to `again` with a new start. */
  datatype Pass = Return(result: nat) | Again(start: nat)

  /** The pass after the first clear bit was found and aligned to index. */
  function PassAt(addr: seq<Word>, size: nat, nr: nat, index: nat): (p: Pass)
    requires size <= 64 * |addr|
  {
    var end := (index + nr) % WRAP;
    if end > size then Return(end)
    else
      var i := First(addr, end, index, true);
      if i < end then Again(i + 1) else Return(index)
  }

  function OnePass(addr: seq<Word>, size: nat, start: nat, nr: nat, mask: nat): (p: Pass)
    requires size <= 64 * |addr|
  {
    PassAt(addr, size, nr, AlignMaskWrapped(First(addr, size, start, false), mask))
  }

  /** Where the search is after at most k passes. */
  function Search(addr: seq<Word>, size: nat, start: nat, nr: nat, mask: nat, k: nat): (p: Pass)
    requires size <= 64 * |addr|
    decreases k
  {
    if k == 0 then Again(start)
    else
      var p := OnePass(addr, size, start, nr, mask);
      if p.Return? then p else Search(addr, size, p.start, nr, mask, k - 1)
  }

  /** The search ends within k passes, with the right answer. */
  ghost predicate RightAfter(addr: seq<Word>, size: nat, start: nat, nr: nat, n: nat, k: nat)
    requires size <= 64 * |addr|
  {
    var p := Search(addr, size, start, nr, Pow2(n) - 1, k);
    p.Return? && LeastArea(addr, size, start, nr, Pow2(n), p.result)
  }

  /** The search ends, with the right answer. */
  ghost predicate EndsRight(addr: seq<Word>, size: nat, start: nat, nr: nat, n: nat)
    requires size <= 64 * |addr|
  {
    exists k: nat :: RightAfter(addr, size, start, nr, n, k)
  }

  lemma {:induction false} SearchSettles(addr: seq<Word>, size: nat, start: nat, nr: nat, mask: nat, k: nat, m: nat)
    requires size <= 64 * |addr| && k <= m && Search(addr, size, start, nr, mask, k).Return?
    ensures Search(addr, size, start, nr, mask, m) == Search(addr, size, start, nr, mask, k)
    decreases k
  {
    hide OnePass;
    var p := OnePass(addr, size, start, nr, mask);
    if p.Again? {
      SearchSettles(addr, size, p.start, nr, mask, k - 1, m - 1);
    }
  }

  lemma RightAtAnyEnd(addr: seq<Word>, size: nat, start: nat, nr: nat, n: nat, k: nat)
    requires size <= 64 * |addr| && Search(addr, size, start, nr, Pow2(n) - 1, k).Return?
    ensures EndsRight(addr, size, start, nr, n) <==> RightAfter(addr, size, start, nr, n, k)
  {
    hide Search, LeastArea, Pow2;
    if EndsRight(addr, size, start, nr, n) {
      var m: nat :| RightAfter(addr, size, start, nr, n, m);
      SearchSettles(addr, size, start, nr, Pow2(n) - 1, if k < m then k else m, if k < m then m else k);
    }
  }

  /** From `again` to the return or the jump back. */
  method TryOnce(addr: seq<Word>, size: nat, start: nat, nr: nat, alignMask: nat) returns (p: Pass)
    requires size <= 64 * |addr|
    ensures p == OnePass(addr, size, start, nr, alignMask)
  {
    hide First, AlignMaskWrapped, FirstFrom;
    var zero := FindNextZeroBit(addr, size, start);
    FirstUnique(addr, size, start, false, zero);
    var index := AlignMaskWrapped(zero, alignMask);
    var end := (index + nr) % WRAP;
    if end > size {
      return Return(end);
    }
    var i := FindNextBit(addr, end, index);
    FirstUnique(addr, end, index, true, i);
    p := if i < end then Again(i + 1) else Return(index);
  }

  /** bitmap_find_next_zero_area for the alignment 2^n, on every input on which the search ends. SearchExact
      says when the result is right, and SearchNeverEnds when there is none. */
  method FindNextZeroArea(addr: seq<Word>, size: nat, start0: nat, nr: nat, alignMask: nat, ghost n: nat,
                          ghost rounds: nat) returns (r: nat)
    requires size <= 64 * |addr| && alignMask == Pow2(n) - 1
    requires Search(addr, size, start0, nr, alignMask, rounds).Return?
    ensures Search(addr, size, start0, nr, alignMask, rounds) == Return(r)
    ensures EndsRight(addr, size, start0, nr, n) <==> LeastArea(addr, size, start0, nr, Pow2(n), r)
  {
    hide OnePass, EndsRight, LeastArea, Pow2;
    RightAtAnyEnd(addr, size, start0, nr, n, rounds);
    var start: nat := start0;
    ghost var left: nat := rounds;
    while true
      invariant Search(addr, size, start, nr, alignMask, left) == Search(addr, size, start0, nr, alignMask, rounds)
      decreases left
    {
      var p := TryOnce(addr, size, start, nr, alignMask);
      if p.Return? {
        return p.result;
      }
      start, left := p.start, left - 1;
    }
  }

  // ---------- Where no sum wraps ----------

  /** No sum of the search can reach 2^64. */
  ghost predicate NoWrap(size: nat, nr: nat, n: nat) {
    size + Pow2(n) - 1 <= ULONG_MAX && AlignMask(size, Pow2(n) - 1) + nr <= ULONG_MAX
  }

  lemma AlignsBelow(x: nat, size: nat, nr: nat, n: nat)
    requires x <= size && NoWrap(size, nr, n)
    ensures AlignMaskWrapped(x, Pow2(n) - 1) == AlignMask(x, Pow2(n) - 1)
    ensures AlignMask(x, Pow2(n) - 1) + nr <= ULONG_MAX
  {
    hide AlignMask, Pow2;
    AlignMaskIsLeast(x, n);
    AlignMaskIsLeast(size, n);
    SmallMod(x + Pow2(n) - 1);
    assert AlignMaskWrapped(x, Pow2(n) - 1) == AndNot(x + Pow2(n) - 1, Pow2(n) - 1);
    AlignMaskUnfolds(x, Pow2(n) - 1);
  }

  lemma AlignMaskUnfolds(x: nat, mask: nat)
    ensures AlignMask(x, mask) == AndNot(x + mask, mask)
  {}

  lemma SmallMod(x: nat)
    requires x < WRAP
    ensures x % WRAP == x
  {}

  lemma NoAreaBefore(addr: seq<Word>, size: nat, start0: nat, start: nat, nr: nat, a: nat, zero: nat, index: nat)
    requires size <= 64 * |addr| && a >= 1 && nr >= 1 && start0 <= start
    requires FirstFrom(addr, size, start, false, zero)
    requires zero <= index && forall j: nat :: zero <= j && j % a == 0 ==> index <= j
    requires forall j: nat :: j < start ==> !ZeroArea(addr, size, start0, nr, a, j)
    ensures forall j: nat :: j < index ==> !ZeroArea(addr, size, start0, nr, a, j)
  {
    hide BitAt;
    forall j: nat | start <= j < index ensures !ZeroArea(addr, size, start0, nr, a, j) {
      if j < zero && j + nr <= size {
        assert BitAt(addr, j);
      }
    }
  }

  /** A pass that does not wrap gives the right answer, or passes over starts without an area. */
  lemma PassKeeps(addr: seq<Word>, size: nat, start0: nat, start: nat, nr: nat, a: nat, index: nat)
    requires size <= 64 * |addr| && 1 <= nr && a >= 1 && index + nr <= ULONG_MAX
    requires index % a == 0 && start0 <= start && (index < size ==> start <= index)
    requires forall j: nat :: j < index ==> !ZeroArea(addr, size, start0, nr, a, j)
    ensures var p := PassAt(addr, size, nr, index);
      if p.Return? then LeastArea(addr, size, start0, nr, a, p.result)
      else start < p.start <= size && forall j: nat :: j < p.start ==> !ZeroArea(addr, size, start0, nr, a, j)
  {
    hide BitAt, First;
    SmallMod(index + nr);
    var end := index + nr;
    if end <= size {
      var i := First(addr, end, index, true);
      if i < end {
        forall j: nat | index <= j <= i ensures !ZeroArea(addr, size, start0, nr, a, j) {
          assert BitAt(addr, i);
        }
      }
    }
  }

  /** Without a wrap the search ends within size + 1 passes, with the right answer. */
  lemma {:induction false} SearchFinds(addr: seq<Word>, size: nat, start0: nat, start: nat, nr: nat, n: nat, k: nat)
    requires size <= 64 * |addr| && 1 <= nr && NoWrap(size, nr, n) && start0 <= start && 0 < k && size - start < k
    requires forall j: nat :: j < start ==> !ZeroArea(addr, size, start0, nr, Pow2(n), j)
    ensures var p := Search(addr, size, start, nr, Pow2(n) - 1, k);
      p.Return? && LeastArea(addr, size, start0, nr, Pow2(n), p.result)
    decreases k
  {
    hide BitAt, First, AlignMask, AlignMaskWrapped, NoWrap, PassAt, LeastArea, ZeroArea, Pow2;
    var zero := First(addr, size, start, false);
    AlignsBelow(zero, size, nr, n);
    AlignMaskIsLeast(zero, n);
    var index := AlignMask(zero, Pow2(n) - 1);
    NoAreaBefore(addr, size, start0, start, nr, Pow2(n), zero, index);
    PassKeeps(addr, size, start0, start, nr, Pow2(n), index);
    var p := OnePass(addr, size, start, nr, Pow2(n) - 1);
    if p.Again? {
      SearchFinds(addr, size, start0, p.start, nr, n, k - 1);
    }
  }

  // ---------- And exactly when ----------

  const HALF: nat := 0x8000_0000_0000_0000

  lemma AllOnes()
    ensures Pow2(64) - 1 == ULONG_MAX
  {
    Pow2Of64();
  }

  /** With all mask bits set every index is aligned down to 0. */
  lemma AllOnesAlign(x: nat)
    ensures AlignMaskWrapped(x, ULONG_MAX) == 0
  {
    hide And;
    var y := (x + ULONG_MAX) % WRAP;
    AndLowMask(y, 64) by { AllOnes(); }
    Pow2Of64();
    SmallMod(y);
  }

  ghost predicate FirstClear(addr: seq<Word>, nr: nat)
    requires nr <= 64 * |addr|
  {
    forall k :: 0 <= k < nr ==> !BitAt(addr, k)
  }

  /** With all mask bits set a pass does the same from every start. */
  lemma AllOnesPass(addr: seq<Word>, size: nat, start: nat, nr: nat)
    requires size <= 64 * |addr| && 1 <= nr <= ULONG_MAX
    ensures var p := OnePass(addr, size, start, nr, ULONG_MAX);
      if nr > size then p == Return(nr) else if FirstClear(addr, nr) then p == Return(0) else p.Again?
  {
    hide BitAt, First, AlignMaskWrapped;
    AllOnesAlign(First(addr, size, start, false));
    SmallMod(nr);
    if nr <= size {
      var i := First(addr, nr, 0, true);
      assert i < nr ==> BitAt(addr, i);
    }
  }

  /** With all mask bits set and one of the first nr bits in the way the search never ends. */
  lemma {:induction false} SearchNeverEnds(addr: seq<Word>, size: nat, start: nat, nr: nat, k: nat)
    requires size <= 64 * |addr| && 1 <= nr <= size <= ULONG_MAX && !FirstClear(addr, nr)
    ensures Search(addr, size, start, nr, ULONG_MAX, k).Again?
    decreases k
  {
    hide OnePass, FirstClear;
    if k > 0 {
      AllOnesPass(addr, size, start, nr);
      SearchNeverEnds(addr, size, OnePass(addr, size, start, nr, ULONG_MAX).start, nr, k - 1);
    }
  }

  /** The smallest instance: bit 0 is set and one clear bit is wanted. */
  lemma WrappedSearchRepeats(start: nat, k: nat)
    ensures Search([1], 64, start, 1, ULONG_MAX, k).Again?
  {
    assert BitAt([1], 0);
    SearchNeverEnds([1], 64, start, 1, k);
  }

  /** With all mask bits set and the first nr bits clear the search returns 0, also for a start above it. */
  lemma SearchIgnoresStart(addr: seq<Word>, size: nat, start: nat, nr: nat, k: nat)
    requires size <= 64 * |addr| && 1 <= nr <= size <= ULONG_MAX && FirstClear(addr, nr) && k > 0
    ensures Search(addr, size, start, nr, ULONG_MAX, k) == Return(0)
  {
    hide OnePass, FirstClear;
    AllOnesPass(addr, size, start, nr);
  }

  lemma {:induction false} Pow2Divides(m: nat, n: nat)
    requires n <= m
    ensures Pow2(m) % Pow2(n) == 0 && Pow2(n) <= Pow2(m)
  {
    Pow2Add(n, m - n);
    hide Pow2;
    ModUnique(Pow2(m), Pow2(n), Pow2(m - n), 0);
    AtLeastOnce(Pow2(n), Pow2(m - n));
  }

  /** A mask below all ones wraps no sum on a map of at most 2^63 bits. */
  lemma SmallMaskFits(size: nat, nr: nat, n: nat)
    requires size <= HALF && nr < HALF && n <= 63
    ensures NoWrap(size, nr, n)
  {
    assert Pow2(63) == HALF by { Pow2Of64(); }
    hide Pow2, AlignMask;
    Pow2Divides(63, n);
    AlignMaskIsLeast(size, n);
  }

  lemma {:induction false} AllOnesRight(addr: seq<Word>, size: nat, start: nat, nr: nat)
    requires size <= 64 * |addr| && size <= HALF && 1 <= nr < HALF
    ensures EndsRight(addr, size, start, nr, 64) <==> nr > size || (start == 0 && FirstClear(addr, nr))
  {
    hide OnePass, Pow2, Search, BitAt;
    AllOnes();
    if nr > size {
      TooManyWanted(addr, size, start, nr);
    } else if FirstClear(addr, nr) {
      forall k: nat | k > 0 ensures Search(addr, size, start, nr, ULONG_MAX, k) == Return(0) {
        SearchIgnoresStart(addr, size, start, nr, k);
      }
      SearchStarts(addr, size, start, nr, ULONG_MAX);
      if start == 0 {
        assert Search(addr, size, start, nr, Pow2(64) - 1, 1) == Return(0);
        ZeroIsMultiple(Pow2(64));
        assert RightAfter(addr, size, start, nr, 64, 1);
      }
    } else {
      forall k: nat ensures Search(addr, size, start, nr, ULONG_MAX, k).Again? {
        SearchNeverEnds(addr, size, start, nr, k);
      }
    }
  }

  lemma ZeroIsMultiple(a: nat)
    requires a >= 1
    ensures 0 % a == 0
  {}

  lemma SearchStarts(addr: seq<Word>, size: nat, start: nat, nr: nat, mask: nat)
    requires size <= 64 * |addr|
    ensures Search(addr, size, start, nr, mask, 0) == Again(start)
  {}

  lemma TooManyWanted(addr: seq<Word>, size: nat, start: nat, nr: nat)
    requires size <= 64 * |addr| && size < nr <= ULONG_MAX
    ensures EndsRight(addr, size, start, nr, 64)
  {
    hide OnePass, Pow2, BitAt;
    AllOnes();
    AllOnesPass(addr, size, start, nr);
    assert Search(addr, size, start, nr, Pow2(64) - 1, 1) == Return(nr);
    assert RightAfter(addr, size, start, nr, 64, 1);
  }

  /** The search ends with the right answer if and only if some mask bit is clear, more bits are wanted than
      there are, or the search starts at 0 and the first bits are clear. */
  lemma {:induction false} SearchExact(addr: seq<Word>, size: nat, start: nat, nr: nat, n: nat)
    requires size <= 64 * |addr| && size <= HALF && 1 <= nr < HALF && n <= 64
    ensures EndsRight(addr, size, start, nr, n) <==> n < 64 || nr > size || (start == 0 && FirstClear(addr, nr))
  {
    hide FirstClear, EndsRight;
    if n < 64 {
      SmallMaskFits(size, nr, n);
      SearchRight(addr, size, start, nr, n);
    } else {
      AllOnesRight(addr, size, start, nr);
    }
  }

  lemma SearchRight(addr: seq<Word>, size: nat, start: nat, nr: nat, n: nat)
    requires size <= 64 * |addr| && 1 <= nr && NoWrap(size, nr, n)
    ensures EndsRight(addr, size, start, nr, n)
  {
    hide NoWrap, Search, LeastArea;
    SearchFinds(addr, size, start, start, nr, n, size + 1);
    assert RightAfter(addr, size, start, nr, n, size + 1);
  }

  /** If no bit is wanted the search returns the first clear bit, aligned, whatever lies behind it. */
  lemma NothingWanted(addr: seq<Word>, size: nat, start: nat, mask: nat)
    requires size <= 64 * |addr|
    ensures Search(addr, size, start, 0, mask, 1) == Return(AlignMaskWrapped(First(addr, size, start, false), mask))
  {
    hide First, AlignMaskWrapped;
    var index := AlignMaskWrapped(First(addr, size, start, false), mask);
    AlignsToWord(First(addr, size, start, false), mask);
    SmallMod(index);
    assert OnePass(addr, size, start, 0, mask) == PassAt(addr, size, 0, index);
  }

  lemma AlignsToWord(x: nat, mask: nat)
    ensures AlignMaskWrapped(x, mask) < WRAP
  {}

  // ---------- bitmap_set and bitmap_clear ----------

  lemma {:induction false} Pow2Fits(n: nat)
    requires n < 64
    ensures Pow2(n) <= ULONG_MAX
    decreases 64 - n
  {
    if n == 63 {
      Pow2Of64();
      assert 2 * Pow2(63) == Pow2(64);
    } else {
      Pow2Fits(n + 1);
      assert 2 * Pow2(n) == Pow2(n + 1);
    }
  }

  /** 1UL << n */
  lemma {:induction false} OneShl(n: nat)
    requires n < 64
    ensures Shl(1, n) == Pow2(n)
  {
    if n > 0 {
      OneShl(n - 1);
      Pow2Fits(n);
    }
  }

  /** BITMAP_LAST_WORD_MASK(nbits) */
  function LastWordMask(nbits: nat): Word {
    if nbits % 64 != 0 then
      OneShl(nbits % 64);
      Shl(1, nbits % 64) - 1
    else ULONG_MAX
  }

  lemma LastWordMaskBits(nbits: nat, k: nat)
    requires k < 64
    ensures Bit(LastWordMask(nbits), k) <==> nbits % 64 == 0 || k < nbits % 64
  {
    hide Shl;
    var n := nbits % 64;
    if n == 0 {
      BitAllOnes(k);
    } else {
      OneShl(n);
      if k < n {
        BitComplement(0, n, k);
        BitZero(k);
      } else {
        BitHigh(Pow2(n) - 1, n, k);
      }
    }
  }

  /** The bits of mask are those of [lo, hi) in word p. */
  ghost predicate MaskOf(mask: Word, p: nat, lo: nat, hi: nat) {
    forall k: nat :: k < 64 ==> (Bit(mask, k) <==> lo <= 64 * p + k < hi)
  }

  /** now is was with the bits of [lo, hi) set to the value. */
  ghost predicate Filled(now: seq<Word>, was: seq<Word>, lo: nat, hi: nat, value: bool) {
    && |now| == |was|
    && forall i: nat :: i < 64 * |now| ==> (BitAt(now, i) <==> if lo <= i < hi then value else BitAt(was, i))
  }

  /** *p |= mask or *p &= ~mask extends the filled stretch. */
  lemma FillWord(now: seq<Word>, was: seq<Word>, p: nat, mask: Word, lo: nat, mid: nat, hi: nat, value: bool,
                 next: seq<Word>)
    requires p < |now| && Filled(now, was, lo, mid, value) && MaskOf(mask, p, mid, hi) && lo <= mid <= hi
    requires hi <= 64 * p + 64 && 64 * p <= mid
    requires next == now[p := if value then OrWord(now[p], mask) else AndNotWord(now[p], mask)]
    ensures Filled(next, was, lo, hi, value)
  {
    hide Bit, Or, AndNot;
    forall i: nat | i < 64 * |now| ensures BitAt(next, i) <==> if lo <= i < hi then value else BitAt(was, i) {
      assert BitAt(now, i) <==> if lo <= i < mid then value else BitAt(was, i);
      if i / 64 == p {
        var k := i % 64;
        assert i == 64 * p + k;
        assert Bit(mask, k) <==> mid <= i < hi;
        BitOr(now[p], mask, k);
        BitAndNot(now[p], mask, k);
      }
    }
  }

  /** bitmap_set (value) and bitmap_clear (!value), which differ only in the update of the word:
      exactly the nr bits from start on change. */
  method BitmapFill(bitmap: array<Word>, start: nat, nr0: nat, value: bool)
    requires start + nr0 <= 64 * bitmap.Length
    modifies bitmap
    ensures Filled(bitmap[..], old(bitmap[..]), start, start + nr0, value)
  {
    hide Bit, BitAt, Shl, Filled, MaskOf, LastWordMask;
    ghost var was := bitmap[..];
    var p, size, nr := start / 64, start + nr0, nr0;
    var bits := 64 - start % 64;
    var mask: Word := Shl(ULONG_MAX, start % 64);
    ghost var at := start;
    FillNothing(was, start, value);
    FirstMask(start);
    while nr - bits >= 0
      invariant 0 <= nr && at + nr == size && at + bits == 64 * p + 64 && 0 < bits <= 64 && start <= at
      invariant MaskOf(mask, p, at, at + bits)
      invariant Filled(bitmap[..], was, start, at, value)
    {
      ghost var now := bitmap[..];
      bitmap[p] := if value then OrWord(bitmap[p], mask) else AndNotWord(bitmap[p], mask);
      FillWord(now, was, p, mask, start, at, at + bits, value, bitmap[..]);
      at := at + bits;
      nr := nr - bits;
      bits := 64;
      mask := ULONG_MAX;
      p := p + 1;
      FullMask(p);
    }
    if nr != 0 {
      LastMask(mask, p, at, at + bits, size);
      mask := And(mask, LastWordMask(size));
      ghost var now := bitmap[..];
      bitmap[p] := if value then OrWord(bitmap[p], mask) else AndNotWord(bitmap[p], mask);
      FillWord(now, was, p, mask, start, at, size, value, bitmap[..]);
    }
  }

  lemma FillNothing(was: seq<Word>, start: nat, value: bool)
    ensures Filled(was, was, start, start, value)
  {}

  lemma FirstMask(start: nat)
    ensures MaskOf(Shl(ULONG_MAX, start % 64), start / 64, start, 64 * (start / 64) + 64)
  {
    hide Bit, Shl;
    forall k: nat | k < 64 ensures Bit(Shl(ULONG_MAX, start % 64), k) <==> start % 64 <= k { HighOnes(start % 64, k); }
  }

  lemma FullMask(p: nat)
    ensures MaskOf(ULONG_MAX, p, 64 * p, 64 * p + 64)
  {
    hide Bit;
    forall k: nat | k < 64 ensures Bit(ULONG_MAX, k) { BitAllOnes(k); }
  }

  lemma LastMask(mask: Word, p: nat, lo: nat, hi: nat, size: nat)
    requires MaskOf(mask, p, lo, hi) && hi == 64 * p + 64 && 64 * p <= lo < size < hi
    ensures MaskOf(And(mask, LastWordMask(size)), p, lo, size)
  {
    hide Bit, And, LastWordMask;
    var last: Word := And(mask, LastWordMask(size));
    forall k: nat | k < 64 ensures Bit(last, k) <==> lo <= 64 * p + k < size {
      BitAnd(mask, LastWordMask(size), k);
      LastWordMaskBits(size, k);
      assert Bit(mask, k) <==> lo <= 64 * p + k < hi;
    }
  }
}
