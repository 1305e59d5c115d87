/** Dirty tracking of a block device in vmm/block.c: a bitmap over chunks of 2048 sectors, and the
    count of its set bits. */
module DirtyBitmap {
  import opened Common
  import opened Bits
  import opened Bitops

  /** C's division of a possibly negative number truncates towards zero. */
  function TruncDiv(a: int, b: int): int
    requires b > 0
  {
    if a >= 0 then a / b else -((-a) / b)
  }

  /** The number of set bits below n. */
  function Count(words: seq<Word>, n: nat): (c: nat)
    requires n <= 64 * |words|
    ensures c <= n
  {
    if n == 0 then 0 else Count(words, n - 1) + if BitAt(words, n - 1) then 1 else 0
  }

  lemma {:induction false} CountSame(a: seq<Word>, b: seq<Word>, n: nat)
    requires n <= 64 * |a| && n <= 64 * |b|
    requires forall i: nat :: i < n ==> BitAt(a, i) == BitAt(b, i)
    ensures Count(a, n) == Count(b, n)
  {
    hide BitAt;
    if n > 0 {
      CountSame(a, b, n - 1);
      assert BitAt(a, n - 1) == BitAt(b, n - 1);
    }
  }

  /** Setting or clearing bit i alone changes the count by what it changes at i. */
  lemma {:induction false} CountChange(a: seq<Word>, b: seq<Word>, n: nat, i: nat)
    requires |a| == |b| && i < n <= 64 * |a|
    requires forall j: nat :: j < n && j != i ==> BitAt(a, j) == BitAt(b, j)
    ensures Count(b, n) == Count(a, n) + (if BitAt(b, i) then 1 else 0) - (if BitAt(a, i) then 1 else 0)
  {
    hide BitAt;
    if i == n - 1 {
      CountSame(a, b, n - 1);
    } else {
      CountChange(a, b, n - 1, i);
      assert BitAt(a, n - 1) == BitAt(b, n - 1);
    }
  }

  lemma {:induction false} CountZero(words: seq<Word>, n: nat)
    requires n <= 64 * |words| && forall i: nat :: i < n ==> !BitAt(words, i)
    ensures Count(words, n) == 0
  {
    hide BitAt;
    if n > 0 {
      CountZero(words, n - 1);
    }
  }

  lemma {:induction false} CountPositive(words: seq<Word>, n: nat, i: nat)
    requires i < n <= 64 * |words| && BitAt(words, i)
    ensures Count(words, n) > 0
  {
    hide BitAt;
    if i < n - 1 {
      CountPositive(words, n - 1, i);
    }
  }

  // ---------- The set of chunks that a bitmap stands for ----------

  ghost function ChunkSet(words: seq<Word>): set<nat> { set c: nat | c < 64 * |words| && BitAt(words, c) }

  predicate From(lo: nat, c: nat) { lo <= c }

  ghost function Between(lo: nat, hi: nat): set<nat> { set c: nat | c <= hi && From(lo, c) }

  /** Giving a range of bits a value adds the range to the set or takes it out. */
  lemma RangeOfSet(a: seq<Word>, b: seq<Word>, lo: nat, hi: nat, value: bool)
    requires |a| == |b| && hi < 64 * |a|
    requires forall c: nat :: c < 64 * |a| ==> (BitAt(b, c) <==> if lo <= c <= hi then value else BitAt(a, c))
    ensures ChunkSet(b) == if value then ChunkSet(a) + Between(lo, hi) else ChunkSet(a) - Between(lo, hi)
  {
    hide BitAt;
  }

  // ---------- One bit of a word, as the source addresses it ----------

  lemma OneBit(n: nat, k: nat)
    requires n < 64 && k < 64
    ensures Bit(Shl(1, n), k) <==> k == n
  {
    BitShl(1, n, k);
    if n < k {
      BitHigh(1, 1, k - n);
    }
  }

  /** val & (1UL << bit) */
  lemma TestBit(val: Word, bit: nat)
    requires bit < 64
    ensures And(val, Shl(1, bit)) != 0 <==> Bit(val, bit)
  {
    hide Shl, And;
    var t: Word := And(val, Shl(1, bit));
    ZeroIffClear(t);
    forall k: nat | k < 64 ensures Bit(t, k) <==> k == bit && Bit(val, k) {
      BitAnd(val, Shl(1, bit), k);
      OneBit(bit, k);
    }
  }

  /** `b` is `a` with the bit of chunk c given the value. */
  ghost predicate Changed(a: seq<Word>, b: seq<Word>, c: nat, value: bool) {
    && |a| == |b| && c < 64 * |a|
    && (forall j: nat :: j < 64 * |a| ==> (BitAt(b, j) <==> if j == c then value else BitAt(a, j)))
  }

  lemma ChangeWord(a: seq<Word>, c: nat, val: Word, value: bool)
    requires c < 64 * |a|
    requires forall k: nat :: k < 64 ==> (Bit(val, k) <==> if k == c % 64 then value else Bit(a[c / 64], k))
    ensures Changed(a, a[c / 64 := val], c, value)
  {}

  lemma SetOrClear(val: Word, bit: nat, k: nat)
    requires bit < 64 && k < 64
    ensures Bit(Or(val, Shl(1, bit)), k) <==> k == bit || Bit(val, k)
    ensures Bit(AndNot(val, Shl(1, bit)), k) <==> k != bit && Bit(val, k)
  {
    hide Shl, Or, AndNot, Bit;
    OneBit(bit, k);
    BitOr(val, Shl(1, bit), k);
    BitAndNot(val, Shl(1, bit), k);
  }

  // ---------- The device's tracking state ----------

  class DirtyTracking {
    var bitmap: array?<Word>
    var dirtyCount: int
    const sectors: nat  // the length of the device

    /** Room for every chunk, and the count is the number of set bits. */
    ghost predicate Valid()
      reads this, bitmap
    {
      && (bitmap == null ==> dirtyCount == 0)
      && (bitmap != null ==> Room(bitmap.Length) && dirtyCount == Count(bitmap[..], 64 * bitmap.Length))
    }

    /** The chunks whose dirty bit is set. */
    ghost function Chunks(): set<nat>
      reads this, bitmap
    {
      if bitmap == null then {} else ChunkSet(bitmap[..])
    }

    predicate Room(words: nat) { sectors <= CHUNK_SECTORS * 64 * words }

    constructor (sectors: nat)
      ensures Valid() && bitmap == null && this.sectors == sectors
    {
      bitmap, dirtyCount, this.sectors := null, 0, sectors;
    }

    /** bdrv_set_dirty_tracking. Turning tracking on while it is on resets the count but not the
        bitmap, so the count stays right exactly when the bitmap was off or clear. */
    method SetDirtyTracking(enable: bool)
      requires Valid()
      modifies this
      ensures enable <==> bitmap != null
      ensures bitmap != null && old(bitmap) != null ==> bitmap == old(bitmap)
      ensures enable && old(bitmap) == null ==>
        && fresh(bitmap) && (forall i: nat :: i < 64 * bitmap.Length ==> !BitAt(bitmap[..], i))
        && sectors <= CHUNK_SECTORS * 64 * bitmap.Length < sectors + CHUNK_SECTORS * 64
      ensures Valid() <==> !enable || old(bitmap) == null || old(dirtyCount) == 0
    {
      hide BitAt;
      dirtyCount := 0;
      if enable {
        if bitmap == null {
          var words := (sectors + CHUNK_SECTORS * 64 - 1) / (CHUNK_SECTORS * 64);
          var zeros := new Word[words](_ => 0);
          bitmap := zeros;
          forall i: nat | i < 64 * words ensures !BitAt(bitmap[..], i) { ZeroWord(bitmap[..], i); }
          CountZero(bitmap[..], 64 * words);
        }
      } else {
        bitmap := null;
      }
    }

    /** set_dirty_bitmap: exactly the chunks that the sectors touch get the value. (An empty request
        counts as touching the chunk of the sector before it, unless that is another chunk.) */
    method SetDirtyBitmap(sector: nat, n: nat, dirty: bool)
      requires Valid() && bitmap != null && sector + n <= sectors && 0 < sectors
      modifies this`dirtyCount, bitmap
      ensures Valid()
      ensures forall c: nat :: c < 64 * bitmap.Length ==>
        (BitAt(bitmap[..], c) <==>
          if sector / CHUNK_SECTORS <= c <= TruncDiv(sector + n - 1, CHUNK_SECTORS) then dirty
          else old(BitAt(bitmap[..], c)))
      ensures 0 < n ==>
        var touched := Between(sector / CHUNK_SECTORS, (sector + n - 1) / CHUNK_SECTORS);
        Chunks() == if dirty then old(Chunks()) + touched else old(Chunks()) - touched
    {
      hide BitAt, Count;
      ghost var was := bitmap[..];
      var start, end := TruncDiv(sector, CHUNK_SECTORS), TruncDiv(sector + n - 1, CHUNK_SECTORS);
      ghost var first := start;
      while start <= end
        invariant Valid() && first <= start && (start <= end + 1 || start == first)
        invariant end < 64 * bitmap.Length == 64 * |was|
        invariant forall c: nat :: c < 64 * |was| ==>
          (BitAt(bitmap[..], c) <==> if first <= c < start then dirty else BitAt(was, c))
      {
        SetChunk(start, dirty);
        start := start + 1;
      }
      if 0 < n {
        RangeOfSet(was, bitmap[..], first, end, dirty);
      }
    }

    /** One iteration: the count follows the bit. */
    method SetChunk(c: nat, dirty: bool)
      requires Valid() && bitmap != null && c < 64 * bitmap.Length
      modifies this`dirtyCount, bitmap
      ensures Valid() && Changed(old(bitmap[..]), bitmap[..], c, dirty)
    {
      hide Bit, Shl, And, Or, AndNot, Count;
      ghost var was := bitmap[..];
      var idx, bit := c / 64, c % 64;
      var val: Word := bitmap[idx];
      var mask := Shl(1, bit);
      TestBit(val, bit);
      forall k: nat | k < 64 ensures Bit(Or(val, mask), k) <==> k == bit || Bit(val, k)
                             ensures Bit(AndNot(val, mask), k) <==> k != bit && Bit(val, k)
      {
        SetOrClear(val, bit, k);
      }
      if dirty {
        if And(val, mask) == 0 {
          dirtyCount := dirtyCount + 1;
          val := OrWord(val, mask);
        }
      } else {
        if And(val, mask) != 0 {
          dirtyCount := dirtyCount - 1;
          val := AndNotWord(val, mask);
        }
      }
      ChangeWord(was, c, val, dirty);
      bitmap[idx] := val;
      assert bitmap[..] == was[idx := val];
      CountChange(was, bitmap[..], 64 * |was|, c);
      assert BitAt(was, c) == Bit(was[idx], bit);
    }

    /** bdrv_get_dirty */
    method GetDirty(sector: nat) returns (dirty: bool)
      requires Valid()
      ensures dirty <==> bitmap != null && sector < sectors && BitAt(bitmap[..], sector / CHUNK_SECTORS)
    {
      hide Shl, And, Count;
      var chunk := sector / CHUNK_SECTORS;
      if bitmap != null && sector < sectors {
        TestBit(bitmap[chunk / 64], chunk % 64);
        return And(bitmap[chunk / 64], Shl(1, chunk % 64)) != 0;
      }
      return false;
    }
  }

  /** Tracking that is turned on twice with a write in between ends with a count that is not the number of set
      bits. */
  method CountGoesStale(sectors: nat) returns (t: DirtyTracking)
    requires 0 < sectors
    ensures !t.Valid()
  {
    hide BitAt, Count;
    t := new DirtyTracking(sectors);
    t.SetDirtyTracking(true);
    t.SetDirtyBitmap(0, 1, true);
    CountPositive(t.bitmap[..], 64 * t.bitmap.Length, 0);
    t.SetDirtyTracking(true);
  }

  lemma ZeroWord(words: seq<Word>, i: nat)
    requires i < 64 * |words| && words[i / 64] == 0
    ensures !BitAt(words, i)
  {
    BitZero(i % 64);
  }
}
