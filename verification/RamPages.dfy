/** The pages of the RAM block list, in the order in which ram_save_block of vmm/arch_init.c walks them. */
module RamPages {
  import opened RamStream
  import Bits

  datatype Block = Block(id: seq<Byte>, offset: nat, length: nat)

  datatype Cursor = Cursor(block: nat, offset: nat)

  ghost predicate Apart(a: Block, b: Block) {
    a.id != b.id && (a.offset + a.length <= b.offset || b.offset + b.length <= a.offset)
  }

  ghost predicate GoodBlock(b: Block) {
    GoodId(b.id) && 0 < b.length <= Bits.ULONG_MAX && b.length % PAGE_SIZE == 0
  }

  ghost predicate ValidBlocks(bs: seq<Block>) {
    && 0 < |bs|
    && (forall i :: 0 <= i < |bs| ==> GoodBlock(bs[i]))
    && (forall i, j :: 0 <= i < j < |bs| ==> Apart(bs[i], bs[j]))
  }

  ghost predicate ValidCursor(bs: seq<Block>, c: Cursor) {
    c.block < |bs| && c.offset < bs[c.block].length && c.offset % PAGE_SIZE == 0
  }

  function Addr(bs: seq<Block>, c: Cursor): nat
    requires c.block < |bs|
  {
    bs[c.block].offset + c.offset
  }

  /** Where ram_save_block goes after a page that is clean. */
  function Next(bs: seq<Block>, c: Cursor): Cursor
    requires c.block < |bs|
  {
    if c.offset + PAGE_SIZE < bs[c.block].length then Cursor(c.block, c.offset + PAGE_SIZE)
    else if c.block + 1 < |bs| then Cursor(c.block + 1, 0)
    else Cursor(0, 0)
  }

  // ---------- Page numbers ----------

  /** The number of pages before block k. */
  ghost function Base(bs: seq<Block>, k: nat): nat
    requires k <= |bs|
  {
    if k == 0 then 0 else Base(bs, k - 1) + bs[k - 1].length / PAGE_SIZE
  }

  ghost function Pages(bs: seq<Block>): nat { Base(bs, |bs|) }

  ghost function Index(bs: seq<Block>, c: Cursor): nat
    requires c.block <= |bs|
  {
    Base(bs, c.block) + c.offset / PAGE_SIZE
  }

  /** The page with number i, looked for among the blocks before k. */
  ghost function PageBelow(bs: seq<Block>, k: nat, i: nat): (c: Cursor)
    requires k <= |bs| && i < Base(bs, k)
    requires forall j :: 0 <= j < |bs| ==> bs[j].length % PAGE_SIZE == 0
    ensures ValidCursor(bs, c) && c.block < k && Index(bs, c) == i
  {
    if i < Base(bs, k - 1) then PageBelow(bs, k - 1, i)
    else Cursor(k - 1, (i - Base(bs, k - 1)) * PAGE_SIZE)
  }

  ghost function PageAt(bs: seq<Block>, i: nat): (c: Cursor)
    requires ValidBlocks(bs) && i < Pages(bs)
    ensures ValidCursor(bs, c) && Index(bs, c) == i
  {
    PageBelow(bs, |bs|, i)
  }

  lemma {:induction false} BaseMonotone(bs: seq<Block>, j: nat, k: nat)
    requires j <= k <= |bs|
    ensures Base(bs, j) <= Base(bs, k)
    decreases k
  {
    if j < k {
      BaseMonotone(bs, j, k - 1);
    }
  }

  /** Page numbers are below the number of pages and identify the page. */
  lemma IndexBelow(bs: seq<Block>, c: Cursor)
    requires ValidBlocks(bs) && ValidCursor(bs, c)
    ensures Base(bs, c.block) <= Index(bs, c) < Base(bs, c.block + 1) <= Pages(bs)
  {
    assert GoodBlock(bs[c.block]);
    BaseMonotone(bs, c.block + 1, |bs|);
  }

  lemma IndexInjective(bs: seq<Block>, c: Cursor, d: Cursor)
    requires ValidBlocks(bs) && ValidCursor(bs, c) && ValidCursor(bs, d) && Index(bs, c) == Index(bs, d)
    ensures c == d
  {
    hide ValidBlocks;
    IndexBelow(bs, c);
    IndexBelow(bs, d);
    if c.block < d.block {
      BaseMonotone(bs, c.block + 1, d.block);
    } else if d.block < c.block {
      BaseMonotone(bs, d.block + 1, c.block);
    }
  }

  lemma PageAtIndex(bs: seq<Block>, c: Cursor)
    requires ValidBlocks(bs) && ValidCursor(bs, c)
    ensures Index(bs, c) < Pages(bs) && PageAt(bs, Index(bs, c)) == c
  {
    IndexBelow(bs, c);
    IndexInjective(bs, PageAt(bs, Index(bs, c)), c);
  }

  /** The i-th page after the page with number start, walking around the end. */
  ghost function Around(bs: seq<Block>, start: nat, i: nat): (k: nat)
    requires start < Pages(bs) && i <= Pages(bs)
    ensures k < Pages(bs)
  {
    if start + i < Pages(bs) then start + i else start + i - Pages(bs)
  }

  lemma FirstPage(bs: seq<Block>)
    requires ValidBlocks(bs)
    ensures ValidCursor(bs, Cursor(0, 0)) && Index(bs, Cursor(0, 0)) == 0 && 0 < Pages(bs)
  {
    assert GoodBlock(bs[0]);
    IndexBelow(bs, Cursor(0, 0));
  }

  lemma NextIndex(bs: seq<Block>, c: Cursor)
    requires ValidBlocks(bs) && ValidCursor(bs, c)
    ensures ValidCursor(bs, Next(bs, c))
    ensures Index(bs, Next(bs, c)) == if Index(bs, c) + 1 < Pages(bs) then Index(bs, c) + 1 else 0
  {
    IndexBelow(bs, c);
    FirstPage(bs);
    assert GoodBlock(bs[c.block]);
    if c.offset + PAGE_SIZE < bs[c.block].length {
      IndexBelow(bs, Next(bs, c));
    } else if c.block + 1 < |bs| {
      assert GoodBlock(bs[c.block + 1]);
      IndexBelow(bs, Cursor(c.block + 1, 0));
    }
  }

  /** One step of the walk is one step around. */
  lemma NextAround(bs: seq<Block>, start: nat, i: nat)
    requires ValidBlocks(bs) && start < Pages(bs) && i < Pages(bs)
    ensures Next(bs, PageAt(bs, Around(bs, start, i))) == PageAt(bs, Around(bs, start, i + 1))
  {
    hide Next, Pages, Index, PageAt, ValidBlocks;
    var c := PageAt(bs, Around(bs, start, i));
    NextIndex(bs, c);
    PageAtIndex(bs, Next(bs, c));
  }

  /** Blocks are disjoint, so the address identifies the page. */
  lemma AddrUnique(bs: seq<Block>, c: Cursor, d: Cursor)
    requires ValidBlocks(bs) && ValidCursor(bs, c) && ValidCursor(bs, d) && Addr(bs, c) == Addr(bs, d)
    ensures c == d
  {
    assert c.block < d.block ==> Apart(bs[c.block], bs[d.block]);
    assert d.block < c.block ==> Apart(bs[d.block], bs[c.block]);
  }

  /** Every page is somewhere on the way around. */
  lemma AroundReaches(bs: seq<Block>, start: nat, k: nat) returns (i: nat)
    requires start < Pages(bs) && k < Pages(bs)
    ensures i < Pages(bs) && Around(bs, start, i) == k
  {
    i := if start <= k then k - start else k + Pages(bs) - start;
  }

  // ---------- Dirty pages ----------

  ghost predicate DirtyAt(bs: seq<Block>, dirty: set<nat>, i: nat)
    requires ValidBlocks(bs) && i < Pages(bs)
  {
    Addr(bs, PageAt(bs, i)) in dirty
  }

  /** How many of the first n pages are dirty. */
  ghost function DirtyBelow(bs: seq<Block>, dirty: set<nat>, n: nat): nat
    requires ValidBlocks(bs) && n <= Pages(bs)
  {
    if n == 0 then 0 else DirtyBelow(bs, dirty, n - 1) + if DirtyAt(bs, dirty, n - 1) then 1 else 0
  }

  ghost function DirtyPages(bs: seq<Block>, dirty: set<nat>): nat
    requires ValidBlocks(bs)
  {
    DirtyBelow(bs, dirty, Pages(bs))
  }

  ghost predicate NoneDirty(bs: seq<Block>, dirty: set<nat>)
    requires ValidBlocks(bs)
  {
    forall i :: 0 <= i < Pages(bs) ==> !DirtyAt(bs, dirty, i)
  }

  lemma {:induction false} CountNone(bs: seq<Block>, dirty: set<nat>, n: nat)
    requires ValidBlocks(bs) && n <= Pages(bs)
    ensures DirtyBelow(bs, dirty, n) == 0 <==> forall i :: 0 <= i < n ==> !DirtyAt(bs, dirty, i)
    decreases n
  {
    hide ValidBlocks, Pages, DirtyAt;
    if n > 0 {
      CountNone(bs, dirty, n - 1);
    }
  }

  lemma DirtyAfterClean(bs: seq<Block>, dirty: set<nat>, k: nat, i: nat)
    requires ValidBlocks(bs) && k < Pages(bs) && i < Pages(bs)
    ensures DirtyAt(bs, dirty - {Addr(bs, PageAt(bs, k))}, i) <==> i != k && DirtyAt(bs, dirty, i)
  {
    hide ValidBlocks, Pages, PageAt;
    if Addr(bs, PageAt(bs, k)) == Addr(bs, PageAt(bs, i)) {
      AddrUnique(bs, PageAt(bs, k), PageAt(bs, i));
    }
  }

  /** Cleaning one dirty page takes exactly one off the count. */
  lemma {:induction false} CountClean(bs: seq<Block>, dirty: set<nat>, k: nat, n: nat)
    requires ValidBlocks(bs) && n <= Pages(bs) && k < Pages(bs) && DirtyAt(bs, dirty, k)
    ensures DirtyBelow(bs, dirty - {Addr(bs, PageAt(bs, k))}, n) == DirtyBelow(bs, dirty, n) - if k < n then 1 else 0
    decreases n
  {
    hide ValidBlocks, Pages, DirtyAt, PageAt;
    if n > 0 {
      CountClean(bs, dirty, k, n - 1);
      DirtyAfterClean(bs, dirty, k, n - 1);
    }
  }
}
