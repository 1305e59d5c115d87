/** The aio_bitmap of vmm/block-migration.c: one bit per chunk with a dirty-phase read under way. */
module BlkInflight {
  import opened Common
  import opened Bits
  import opened Bitops
  import opened DirtyBitmap

  class AioBitmap {
    const words: array<Word>
    const length: nat  // of the device, in bytes

    /** There is a bit for every chunk. */
    ghost predicate Valid() { length <= 512 * CHUNK_SECTORS * 64 * words.Length }

    /** The chunks that are marked in flight. */
    ghost function Chunks(): set<nat>
      reads words
    {
      ChunkSet(words[..])
    }

    constructor (length: nat)
      ensures Valid() && fresh(words) && this.length == length
      ensures forall i: nat :: i < 64 * words.Length ==> !BitAt(words[..], i)
    {
      hide BitAt;
      this.length := length;
      words := new Word[length / (512 * CHUNK_SECTORS * 64) + 1](_ => 0);
      new;
      forall i: nat | i < 64 * words.Length ensures !BitAt(words[..], i) { ZeroWord(words[..], i); }
    }

    /** bmds_set_aio_inflight: exactly the chunks that the sectors touch get the value. */
    method SetInflight(sector: nat, n: nat, value: bool)
      requires Valid() && 0 < n && 512 * (sector + n) <= length
      modifies words
      ensures forall c: nat :: c < 64 * words.Length ==>
        (BitAt(words[..], c) <==>
          if sector / CHUNK_SECTORS <= c <= (sector + n - 1) / CHUNK_SECTORS then value else old(BitAt(words[..], c)))
      ensures var touched := Between(sector / CHUNK_SECTORS, (sector + n - 1) / CHUNK_SECTORS);
        Chunks() == if value then old(Chunks()) + touched else old(Chunks()) - touched
    {
      hide BitAt;
      ghost var was := words[..];
      var start, end := sector / CHUNK_SECTORS, (sector + n - 1) / CHUNK_SECTORS;
      ghost var first := start;
      while start <= end
        invariant first <= start <= end + 1 && end < 64 * words.Length == 64 * |was|
        invariant forall c: nat :: c < 64 * |was| ==>
          (BitAt(words[..], c) <==> if first <= c < start then value else BitAt(was, c))
      {
        SetChunk(start, value);
        start := start + 1;
      }
      RangeOfSet(was, words[..], first, end, value);
    }

    method SetChunk(c: nat, value: bool)
      requires c < 64 * words.Length
      modifies words
      ensures Changed(old(words[..]), words[..], c, value)
    {
      hide Bit, Shl, Or, AndNot;
      ghost var was := words[..];
      var idx, bit := c / 64, c % 64;
      var val: Word := words[idx];
      forall k: nat | k < 64
        ensures Bit(Or(val, Shl(1, bit)), k) <==> k == bit || Bit(val, k)
        ensures Bit(AndNot(val, Shl(1, bit)), k) <==> k != bit && Bit(val, k)
      {
        SetOrClear(val, bit, k);
      }
      if value {
        val := OrWord(val, Shl(1, bit));
      } else {
        val := AndNotWord(val, Shl(1, bit));
      }
      ChangeWord(was, c, val, value);
      words[idx] := val;
      assert words[..] == was[idx := val];
    }

    /** bmds_aio_inflight */
    method Inflight(sector: nat) returns (b: bool)
      requires Valid()
      ensures b <==> 512 * sector < length && BitAt(words[..], sector / CHUNK_SECTORS)
    {
      hide Shl, And;
      var chunk := sector / CHUNK_SECTORS;
      if 512 * sector < length {
        TestBit(words[chunk / 64], chunk % 64);
        return And(words[chunk / 64], Shl(1, chunk % 64)) != 0;
      }
      return false;
    }
  }
}
