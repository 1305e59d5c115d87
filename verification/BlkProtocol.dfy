/** Live migration of block devices as a protocol: the sender of vmm/block-migration.c, the asynchronous
    reads that it waits for, a running guest, and the destination that loads what was sent. */
module BlkProtocol {
  import opened Common
  import opened Buffers
  import opened RamStream
  import opened BlkStream
  import opened BlkLoad

  /** A chunk of a device. */
  datatype Key = Key(dev: nat, chunk: nat)

  /** A read of a chunk: outstanding, or done and waiting in blk_list. The driver may fetch the data at any
      time between the submission and the completion. */
  datatype Item = Item(key: Key, data: Option<seq<Byte>>, failed: bool)

  /** dirty holds the chunks with their dirty bit set, cursor each device's cur_sector, inflight the bits of
      the aio_bitmaps, pending the outstanding reads in the order of submission, queue is blk_list and recs
      what was written to the stream. lost tells that a block in blk_list was overtaken by a later
      synchronous one, or dropped. */
  datatype Mig = Mig(names: seq<seq<Byte>>, disks: seq<seq<Byte>>, dirty: set<Key>, cursor: seq<nat>,
                     inflight: set<Key>, pending: seq<Item>, queue: seq<Item>, recs: seq<Rec>, lost: bool)

  // ---------- Chunks ----------

  predicate HasChunk(disks: seq<seq<Byte>>, x: Key) {
    x.dev < |disks| && BLOCK_SIZE * x.chunk < |disks[x.dev]|
  }

  /** The end of chunk k; the last chunk may be short. */
  function ChunkEnd(length: nat, k: nat): nat {
    if BLOCK_SIZE * k + BLOCK_SIZE <= length then BLOCK_SIZE * k + BLOCK_SIZE else length
  }

  function ChunkOf(disk: seq<Byte>, k: nat): (c: seq<Byte>)
    requires BLOCK_SIZE * k < |disk|
    ensures 0 < |c| <= BLOCK_SIZE && |c| == ChunkEnd(|disk|, k) - BLOCK_SIZE * k
  {
    disk[BLOCK_SIZE * k..ChunkEnd(|disk|, k)]
  }

  /** The buffer holds the chunk, with anything after it. */
  ghost predicate Holds(buf: seq<Byte>, disk: seq<Byte>, k: nat) {
    BLOCK_SIZE * k < |disk| && |buf| == BLOCK_SIZE && buf[..|ChunkOf(disk, k)|] == ChunkOf(disk, k)
  }

  ghost predicate GoodDisk(name: seq<Byte>, disk: seq<Byte>) {
    GoodId(name) && 0 < |disk| < 0x8000_0000_0000_0000 && |disk| % SECTOR_SIZE == 0
  }

  ghost predicate ValidDisks(names: seq<seq<Byte>>, disks: seq<seq<Byte>>) {
    && |names| == |disks|
    && (forall d :: 0 <= d < |disks| ==> GoodDisk(names[d], disks[d]))
    && (forall d, e :: 0 <= d < e < |names| ==> names[d] != names[e])
  }

  ghost predicate SameSizes(a: seq<seq<Byte>>, b: seq<seq<Byte>>) {
    |a| == |b| && forall d :: 0 <= d < |a| ==> |a[d]| == |b[d]|
  }

  function Sectors(disk: seq<Byte>): nat { |disk| / SECTOR_SIZE }

  // ---------- The state ----------

  ghost predicate GoodItem(disks: seq<seq<Byte>>, it: Item) {
    HasChunk(disks, it.key) && (it.data.Some? ==> |it.data.value| == BLOCK_SIZE)
  }

  ghost predicate GoodItems(disks: seq<seq<Byte>>, items: seq<Item>) {
    forall i :: 0 <= i < |items| ==> GoodItem(disks, items[i])
  }

  ghost predicate Waiting(items: seq<Item>) {
    forall i :: 0 <= i < |items| ==> !items[i].failed
  }

  ghost predicate Done(items: seq<Item>) {
    forall i :: 0 <= i < |items| ==> items[i].failed || items[i].data.Some?
  }

  ghost predicate GoodCursor(disks: seq<seq<Byte>>, cursor: seq<nat>) {
    |cursor| == |disks| && forall d :: 0 <= d < |disks| ==>
      cursor[d] <= Sectors(disks[d]) && (cursor[d] % CHUNK_SECTORS == 0 || cursor[d] == Sectors(disks[d]))
  }

  ghost predicate Marked(inflight: set<Key>, pending: seq<Item>) {
    forall x :: x in inflight ==> exists i :: 0 <= i < |pending| && pending[i].key == x
  }

  ghost predicate ValidMig(s: Mig)
    ensures ValidMig(s) ==> WellFormedRecs(s.recs) && |s.names| == |s.disks|
  {
    && ValidDisks(s.names, s.disks)
    && GoodCursor(s.disks, s.cursor)
    && GoodItems(s.disks, s.pending) && Waiting(s.pending)
    && GoodItems(s.disks, s.queue) && Done(s.queue)
    && Marked(s.inflight, s.pending)
    && WellFormedRecs(s.recs)
  }

  /** Before the first section: tracking was just turned on, nothing was read. */
  ghost predicate Begun(s: Mig) {
    && ValidMig(s)
    && s.cursor == seq(|s.disks|, d => 0)
    && s.dirty == {} && s.inflight == {} && s.pending == [] && s.queue == [] && s.recs == [] && !s.lost
  }

  // ---------- Steps ----------

  datatype Event =
    | Guest(disks: seq<seq<Byte>>, dirty: set<Key>)
    | SubmitBulk(dev: nat)
    | SubmitDirty(key: Key)
    | Sample(i: nat, buf: seq<Byte>)
    | Complete(i: nat, failed: bool)
    | Flush
    | SendSync(key: Key, buf: seq<Byte>)
    | Put(rec: Rec)
    | Cleanup

  /** The guest changes no chunk without setting its dirty bit, and clears none. */
  ghost predicate GuestMay(s: Mig, disks: seq<seq<Byte>>, dirty: set<Key>) {
    && SameSizes(s.disks, disks) && s.dirty <= dirty
    && forall x :: x !in dirty && HasChunk(s.disks, x) ==>
         ChunkOf(disks[x.dev], x.chunk) == ChunkOf(s.disks[x.dev], x.chunk)
  }

  /** Reads of one chunk sample at completion or complete in the order of submission: a read does not
      complete while an earlier one of the same chunk is outstanding that already has its data. */
  predicate InOrder(pending: seq<Item>, i: nat)
    requires i < |pending|
  {
    forall j :: 0 <= j < i && pending[j].key == pending[i].key ==> pending[j].data.None?
  }

  ghost predicate Enabled(s: Mig, e: Event) { Possible(s, e) && (e.Complete? ==> InOrder(s.pending, e.i)) }

  /** Whether the code can take the step, leaving the order of completions to the driver. */
  ghost predicate Possible(s: Mig, e: Event) {
    match e
    case Guest(disks, dirty) => GuestMay(s, disks, dirty)
    case SubmitBulk(d) => d < |s.disks| && d < |s.cursor| && s.cursor[d] < Sectors(s.disks[d])
    case SubmitDirty(x) => HasChunk(s.disks, x) && x in s.dirty && x !in s.inflight
    case Sample(i, buf) =>
      && i < |s.pending| && s.pending[i].data.None?
      && var x := s.pending[i].key; HasChunk(s.disks, x) && Holds(buf, s.disks[x.dev], x.chunk)
    case Complete(i, failed) => i < |s.pending| && (failed || s.pending[i].data.Some?)
    case Flush => s.queue != [] && !s.queue[0].failed
    case SendSync(x, buf) =>
      s.pending == [] && HasChunk(s.disks, x) && x in s.dirty && Holds(buf, s.disks[x.dev], x.chunk)
    case Put(rec) => WellFormedRec(rec) && !rec.DeviceBlock?
    case Cleanup => true
  }

  function Block(names: seq<seq<Byte>>, x: Key, buf: seq<Byte>): Rec
    requires x.dev < |names|
  {
    DeviceBlock(CHUNK_SECTORS * x.chunk, names[x.dev], buf)
  }

  function Remove<T>(s: seq<T>, i: nat): (r: seq<T>)
    requires i < |s|
    ensures |r| == |s| - 1
  {
    s[..i] + s[i + 1..]
  }

  /** The chunk that the bulk phase reads next, and where its cursor goes. */
  function BulkKey(s: Mig, d: nat): Key
    requires d < |s.cursor|
  {
    Key(d, s.cursor[d] / CHUNK_SECTORS)
  }

  function NextCursor(disk: seq<Byte>, cur: nat): nat {
    var sector := cur / CHUNK_SECTORS * CHUNK_SECTORS;
    if Sectors(disk) - sector < CHUNK_SECTORS then Sectors(disk) else sector + CHUNK_SECTORS
  }

  ghost function After(s: Mig, e: Event): Mig
    requires ValidMig(s) && Possible(s, e)
  {
    match e
    case Guest(disks, dirty) => s.(disks := disks, dirty := dirty)
    case SubmitBulk(d) =>
      s.(pending := s.pending + [Item(BulkKey(s, d), None, false)],
         dirty := s.dirty - {BulkKey(s, d)},
         cursor := s.cursor[d := NextCursor(s.disks[d], s.cursor[d])])
    case SubmitDirty(x) => s.(pending := s.pending + [Item(x, None, false)], dirty := s.dirty - {x},
                              inflight := s.inflight + {x})
    case Sample(i, buf) => s.(pending := s.pending[i := s.pending[i].(data := Some(buf))])
    case Complete(i, failed) =>
      s.(pending := Remove(s.pending, i), queue := s.queue + [s.pending[i].(failed := failed)],
         inflight := s.inflight - {s.pending[i].key})
    case Flush =>
      assert GoodItem(s.disks, s.queue[0]);
      s.(queue := s.queue[1..], recs := s.recs + [Block(s.names, s.queue[0].key, s.queue[0].data.value)])
    case SendSync(x, buf) =>
      s.(recs := s.recs + [Block(s.names, x, buf)], dirty := s.dirty - {x}, lost := s.lost || s.queue != [])
    case Put(rec) => s.(recs := s.recs + [rec])
    case Cleanup => s.(queue := [], lost := s.lost || s.queue != [] || s.pending != [])
  }

  // ---------- The newest read of a chunk ----------

  ghost function Newest(items: seq<Item>, x: Key): (it: Option<Item>)
    ensures it.Some? ==> it.value in items && it.value.key == x
  {
    if items == [] then None
    else if items[|items| - 1].key == x then Some(items[|items| - 1])
    else Newest(items[..|items| - 1], x)
  }

  lemma NewestAppend(items: seq<Item>, it: Item, x: Key)
    ensures Newest(items + [it], x) == if it.key == x then Some(it) else Newest(items, x)
  {
    assert (items + [it])[..|items|] == items;
  }

  lemma {:induction false} NewestTail(items: seq<Item>, x: Key)
    requires items != []
    ensures Newest(items, x) ==
      var n := Newest(items[1..], x); if n.Some? then n else if items[0].key == x then Some(items[0]) else None
    decreases |items|
  {
    var n := |items| - 1;
    if n > 0 {
      assert items[1..][..n - 1] == items[..n][1..];
      NewestTail(items[..n], x);
    } else {
      assert items[..0] == [];
    }
  }

  /** Giving one read its data changes the newest read of a chunk at most to that read. */
  lemma {:induction false} NewestUpdate(items: seq<Item>, i: nat, it: Item, x: Key)
    requires i < |items| && it.key == items[i].key
    ensures var n := Newest(items[i := it], x);
      n == Newest(items, x) || (it.key == x && n == Some(it) && Newest(items, x).Some?)
    decreases |items|
  {
    var n := |items| - 1;
    if i < n {
      assert items[i := it][..n] == items[..n][i := it];
      NewestUpdate(items[..n], i, it, x);
    } else {
      assert items[i := it][..n] == items[..n];
    }
  }

  ghost predicate EarlierRead(items: seq<Item>, i: nat, x: Key, it: Item)
    requires i <= |items|
  {
    exists j :: 0 <= j < i && items[j].key == x && items[j] == it
  }

  /** Taking one read out changes the newest read only if it was the newest, and then to an earlier one. */
  lemma {:induction false} NewestRemove(items: seq<Item>, i: nat, x: Key)
    requires i < |items|
    ensures var n := Newest(Remove(items, i), x);
      || n == Newest(items, x)
      || (items[i].key == x && Newest(items, x) == Some(items[i]) && (n.None? || EarlierRead(items, i, x, n.value)))
    decreases |items|
  {
    var n := |items| - 1;
    if i < n {
      assert Remove(items, i)[..n - 1] == Remove(items[..n], i);
      NewestRemove(items[..n], i, x);
      assert forall j :: 0 <= j < i ==> items[..n][j] == items[j];
    } else {
      assert Remove(items, i) == items[..n];
      var m := Newest(items[..n], x);
      if m.Some? {
        var j :| 0 <= j < n && items[..n][j] == m.value;
        assert items[j] == m.value;
      }
    }
  }

  /** Is the newest in the queue and the outstanding reads together. */
  ghost function NewestOf(s: Mig, x: Key): Option<Item> {
    var it := Newest(s.pending, x); if it.Some? then it else Newest(s.queue, x)
  }

  // ---------- The destination ----------

  ghost predicate Knows(names: seq<seq<Byte>>, disks: seq<seq<Byte>>, r: Dest) {
    && |names| == |disks| && |r.names| == |r.disks|
    && forall d :: 0 <= d < |names| ==> HasCopy(names[d], |disks[d]|, r)
  }

  ghost predicate HasCopy(name: seq<Byte>, length: nat, r: Dest)
    requires |r.names| == |r.disks|
  {
    var i := Find(r.names, name); i.Some? && |r.disks[i.value]| == length
  }

  /** The destination's copy of device d. */
  ghost function CopyOf(s: Mig, r: Dest, d: nat): (i: nat)
    requires Knows(s.names, s.disks, r) && d < |s.disks|
    ensures i < |r.disks| && |r.disks[i]| == |s.disks[d]| && Find(r.names, s.names[d]) == Some(i)
    ensures r.names[i] == s.names[d]
  {
    assert HasCopy(s.names[d], |s.disks[d]|, r);
    Find(r.names, s.names[d]).value
  }

  ghost predicate Covered(s: Mig, x: Key) {
    x.dev < |s.cursor| && CHUNK_SECTORS * x.chunk < s.cursor[x.dev]
  }

  /** A read is as good as the present contents: it will fetch them, or holds them, or it failed. */
  ghost predicate Fresh(disks: seq<seq<Byte>>, it: Item) {
    it.failed || it.data.None? || (HasChunk(disks, it.key) && Holds(it.data.value, disks[it.key.dev], it.key.chunk))
  }

  ghost predicate SameChunk(s: Mig, r: Dest, x: Key)
    requires Knows(s.names, s.disks, r) && HasChunk(s.disks, x)
  {
    ChunkOf(r.disks[CopyOf(s, r, x.dev)], x.chunk) == ChunkOf(s.disks[x.dev], x.chunk)
  }

  /** The newest read of the chunk that is outstanding or queued is fresh or, when there is none, the
      destination is up to date. */
  ghost predicate Current(s: Mig, r: Dest, x: Key)
    requires Knows(s.names, s.disks, r) && HasChunk(s.disks, x)
  {
    var it := NewestOf(s, x); if it.Some? then Fresh(s.disks, it.value) else SameChunk(s, r, x)
  }

  /** Every chunk that the bulk phase has passed and that is clean is current. */
  ghost predicate InStep(s: Mig, r: Dest) {
    && ValidMig(s) && ValidDest(r) && Knows(s.names, s.disks, r)
    && (!s.lost ==> forall x :: HasChunk(s.disks, x) && Covered(s, x) && x !in s.dirty ==> Current(s, r, x))
  }

  // ---------- Steps lead from valid states to valid states ----------

  lemma GuestKeepsValid(s: Mig, disks: seq<seq<Byte>>, dirty: set<Key>)
    requires ValidMig(s) && GuestMay(s, disks, dirty)
    ensures ValidMig(s.(disks := disks, dirty := dirty))
  {
    hide Done, Marked, WellFormedRecs;
    forall d | 0 <= d < |disks| ensures GoodDisk(s.names[d], disks[d]) {
      assert GoodDisk(s.names[d], s.disks[d]);
    }
    forall i | 0 <= i < |s.pending| ensures GoodItem(disks, s.pending[i]) {
      assert GoodItem(s.disks, s.pending[i]);
    }
    forall i | 0 <= i < |s.queue| ensures GoodItem(disks, s.queue[i]) {
      assert GoodItem(s.disks, s.queue[i]);
    }
  }

  /** The bulk phase reads a chunk of the device, and covers that chunk and no other. */
  lemma BulkCovers(s: Mig, d: nat)
    requires ValidMig(s) && Enabled(s, SubmitBulk(d))
    ensures HasChunk(s.disks, BulkKey(s, d))
    ensures CHUNK_SECTORS * BulkKey(s, d).chunk == s.cursor[d]
    ensures var c := NextCursor(s.disks[d], s.cursor[d]);
      && s.cursor[d] < c <= Sectors(s.disks[d]) && c <= s.cursor[d] + CHUNK_SECTORS
      && (c % CHUNK_SECTORS == 0 || c == Sectors(s.disks[d]))
  {
    hide GoodItems, Done, Marked, WellFormedRecs;
    assert GoodDisk(s.names[d], s.disks[d]);
  }

  lemma PendingMore(s: Mig, it: Item)
    requires ValidMig(s) && GoodItem(s.disks, it) && !it.failed
    ensures GoodItems(s.disks, s.pending + [it]) && Waiting(s.pending + [it])
    ensures Marked(s.inflight, s.pending + [it]) && Marked(s.inflight + {it.key}, s.pending + [it])
  {
    hide ValidDisks, GoodCursor, Done, WellFormedRecs, GoodItem;
    var more := s.pending + [it];
    forall x | x in s.inflight + {it.key} ensures exists i :: 0 <= i < |more| && more[i].key == x {
      if x in s.inflight {
        var i :| 0 <= i < |s.pending| && s.pending[i].key == x;
        assert more[i].key == x;
      } else {
        assert more[|s.pending|].key == x;
      }
    }
    assert forall x :: x in s.inflight ==> x in s.inflight + {it.key};
  }

  lemma BulkKeepsValid(s: Mig, d: nat)
    requires ValidMig(s) && Enabled(s, SubmitBulk(d))
    ensures ValidMig(After(s, SubmitBulk(d)))
  {
    hide ValidDisks, Done, WellFormedRecs, GoodItems, Marked, NextCursor, BulkKey, HasChunk;
    BulkCovers(s, d);
    PendingMore(s, Item(BulkKey(s, d), None, false));
  }

  lemma DirtyKeepsValid(s: Mig, x: Key)
    requires ValidMig(s) && Enabled(s, SubmitDirty(x))
    ensures ValidMig(After(s, SubmitDirty(x)))
  {
    hide ValidDisks, Done, WellFormedRecs, GoodItems, Marked, GoodCursor, HasChunk;
    PendingMore(s, Item(x, None, false));
  }

  lemma SampleKeepsValid(s: Mig, i: nat, buf: seq<Byte>)
    requires ValidMig(s) && Enabled(s, Sample(i, buf))
    ensures ValidMig(After(s, Sample(i, buf)))
  {
    hide ValidDisks, Done, WellFormedRecs, GoodCursor, HasChunk;
    var p := s.pending[i := s.pending[i].(data := Some(buf))];
    forall x | x in s.inflight ensures exists j :: 0 <= j < |p| && p[j].key == x {
      var j :| 0 <= j < |s.pending| && s.pending[j].key == x;
      assert p[j].key == x;
    }
  }

  lemma CompleteKeepsValid(s: Mig, i: nat, failed: bool)
    requires ValidMig(s) && Enabled(s, Complete(i, failed))
    ensures ValidMig(After(s, Complete(i, failed)))
  {
    hide ValidDisks, WellFormedRecs, GoodCursor, HasChunk, InOrder;
    var p, x := Remove(s.pending, i), s.pending[i].key;
    forall y | y in s.inflight - {x} ensures exists j :: 0 <= j < |p| && p[j].key == y {
      var j :| 0 <= j < |s.pending| && s.pending[j].key == y;
      assert p[if j < i then j else j - 1].key == y;
    }
    forall j | 0 <= j < |p| ensures GoodItem(s.disks, p[j]) {
      assert p[j] == s.pending[if j < i then j else j + 1];
    }
  }

  lemma BlockWellFormed(names: seq<seq<Byte>>, disks: seq<seq<Byte>>, x: Key, buf: seq<Byte>)
    requires ValidDisks(names, disks) && HasChunk(disks, x) && |buf| == BLOCK_SIZE
    ensures WellFormedRec(Block(names, x, buf))
  {
    assert GoodDisk(names[x.dev], disks[x.dev]);
  }

  lemma PutKeepsRecs(recs: seq<Rec>, rec: Rec)
    requires WellFormedRecs(recs) && WellFormedRec(rec)
    ensures WellFormedRecs(recs + [rec])
  {}

  lemma FlushKeepsValid(s: Mig)
    requires ValidMig(s) && Enabled(s, Flush)
    ensures ValidMig(After(s, Flush))
  {
    hide ValidDisks, WellFormedRecs, GoodCursor, HasChunk, Marked, WellFormedRec;
    assert GoodItem(s.disks, s.queue[0]);
    var x, buf := s.queue[0].key, s.queue[0].data.value;
    assert x.dev < |s.names| by { InRange(s, x); }
    BlockWellFormed(s.names, s.disks, x, buf);
    PutKeepsRecs(s.recs, Block(s.names, x, buf));
    assert forall j :: 0 <= j < |s.queue| - 1 ==> s.queue[1..][j] == s.queue[j + 1];
  }

  lemma InRange(s: Mig, x: Key)
    requires ValidMig(s) && HasChunk(s.disks, x)
    ensures x.dev < |s.names| == |s.disks|
  {}

  lemma SyncKeepsValid(s: Mig, x: Key, buf: seq<Byte>)
    requires ValidMig(s) && Enabled(s, SendSync(x, buf))
    ensures ValidMig(After(s, SendSync(x, buf)))
  {
    hide ValidDisks, WellFormedRecs, GoodCursor, HasChunk, Marked, WellFormedRec, GoodItems, Done;
    InRange(s, x);
    BlockWellFormed(s.names, s.disks, x, buf);
    PutKeepsRecs(s.recs, Block(s.names, x, buf));
  }

  lemma StepKeepsValid(s: Mig, e: Event)
    requires ValidMig(s) && Enabled(s, e)
    ensures ValidMig(After(s, e))
  {
    match e {
      case Guest(disks, dirty) => GuestKeepsValid(s, disks, dirty);
      case SubmitBulk(d) => BulkKeepsValid(s, d);
      case SubmitDirty(x) => DirtyKeepsValid(s, x);
      case Sample(i, buf) => SampleKeepsValid(s, i, buf);
      case Complete(i, failed) => CompleteKeepsValid(s, i, failed);
      case Flush => FlushKeepsValid(s);
      case SendSync(x, buf) => SyncKeepsValid(s, x, buf);
      case Put(rec) => PutKeepsRecs(s.recs, rec);
      case Cleanup =>
    }
  }

  // ---------- Every step keeps sender and destination in step ----------

  lemma GuestKeepsStep(s: Mig, r: Dest, disks: seq<seq<Byte>>, dirty: set<Key>)
    requires InStep(s, r) && GuestMay(s, disks, dirty)
    ensures InStep(s.(disks := disks, dirty := dirty), r)
  {
    hide ValidMig, Find, Newest, ChunkOf;
    var n := s.(disks := disks, dirty := dirty);
    GuestKeepsValid(s, disks, dirty);
    assert Knows(n.names, n.disks, r);
    if !s.lost {
      forall x | HasChunk(n.disks, x) && Covered(n, x) && x !in dirty ensures Current(n, r, x) {
        assert HasChunk(s.disks, x);
        assert Current(s, r, x);
      }
    }
  }

  /** A new read of a chunk, not yet fetched, makes the chunk current and disturbs no other. */
  lemma SubmitKeepsStep(s: Mig, n: Mig, r: Dest, x: Key)
    requires InStep(s, r) && HasChunk(s.disks, x) && ValidMig(n)
    requires n == s.(pending := s.pending + [Item(x, None, false)], dirty := s.dirty - {x}, cursor := n.cursor,
                     inflight := n.inflight)
    requires forall y :: HasChunk(s.disks, y) && y != x && Covered(n, y) ==> Covered(s, y)
    ensures InStep(n, r)
  {
    hide ValidMig, Find, Newest, ChunkOf, Covered, Knows, CopyOf;
    if !s.lost {
      forall y | HasChunk(n.disks, y) && Covered(n, y) && y !in n.dirty ensures Current(n, r, y) {
        NewestAppend(s.pending, Item(x, None, false), y);
        if y != x {
          assert Current(s, r, y);
        }
      }
    }
  }

  lemma SampleKeepsStep(s: Mig, r: Dest, i: nat, buf: seq<Byte>)
    requires InStep(s, r) && Enabled(s, Sample(i, buf))
    ensures InStep(After(s, Sample(i, buf)), r)
  {
    hide ValidMig, Find, Newest, ChunkOf, Covered, Knows, CopyOf;
    SampleKeepsValid(s, i, buf);
    var n := After(s, Sample(i, buf));
    if !s.lost {
      forall y | HasChunk(n.disks, y) && Covered(n, y) && y !in n.dirty ensures Current(n, r, y) {
        assert Covered(s, y) by { SameCursor(s, n, y); }
        assert Current(s, r, y);
        NewestUpdate(s.pending, i, n.pending[i], y);
      }
    }
  }

  lemma SameCursor(s: Mig, n: Mig, y: Key)
    requires n.cursor == s.cursor
    ensures Covered(s, y) == Covered(n, y)
  {}

  /** A completed read moves behind the queued ones; it was the newest of its chunk, or is still behind a
      newer one, or leaves a read to come that has not been fetched. */
  lemma CompleteKeepsStep(s: Mig, r: Dest, i: nat, failed: bool)
    requires InStep(s, r) && Enabled(s, Complete(i, failed))
    ensures InStep(After(s, Complete(i, failed)), r)
  {
    hide ValidMig, Find, Newest, ChunkOf, Covered, Knows, CopyOf, Remove, InOrder, HasChunk;
    CompleteKeepsValid(s, i, failed);
    var n := After(s, Complete(i, failed));
    if !s.lost {
      forall y | HasChunk(n.disks, y) && Covered(n, y) && y !in n.dirty ensures Current(n, r, y) {
        assert Covered(s, y) by { SameCursor(s, n, y); }
        assert Current(s, r, y);
        NewestRemove(s.pending, i, y);
        NewestAppend(s.queue, s.pending[i].(failed := failed), y);
        var m := Newest(n.pending, y);
        assert !s.pending[i].failed by { PendingAt(s, i); }
        if m != Newest(s.pending, y) && m.Some? {
          assert m.value.data.None? by { EarlierUnfetched(s.pending, i, y, m.value); }
        } else if m == Newest(s.pending, y) && m.None? {
          assert s.pending[i].key != y by { NewestNone(s.pending, y, i); }
        }
      }
    }
  }

  lemma {:induction false} NewestNone(items: seq<Item>, x: Key, i: nat)
    requires i < |items| && Newest(items, x).None?
    ensures items[i].key != x
    decreases |items|
  {
    if i < |items| - 1 {
      NewestNone(items[..|items| - 1], x, i);
    }
  }

  lemma PendingAt(s: Mig, i: nat)
    requires ValidMig(s) && i < |s.pending|
    ensures !s.pending[i].failed
  {}

  lemma EarlierUnfetched(items: seq<Item>, i: nat, x: Key, it: Item)
    requires i < |items| && InOrder(items, i) && items[i].key == x && EarlierRead(items, i, x, it)
    ensures it.data.None?
  {}

  // ---------- Blocks that arrive ----------

  ghost function Stored(s: Mig, r: Dest, x: Key, buf: seq<Byte>): (n: Dest)
    requires Knows(s.names, s.disks, r) && HasChunk(s.disks, x) && |buf| == BLOCK_SIZE
    ensures n.names == r.names && |n.disks| == |r.disks|
    ensures forall i :: 0 <= i < |r.disks| ==> |n.disks[i]| == |r.disks[i]|
  {
    var i := CopyOf(s, r, x.dev);
    var c := ChunkOf(s.disks[x.dev], x.chunk);
    r.(disks := r.disks[i := Splice(r.disks[i], BLOCK_SIZE * x.chunk, buf[..|c|])])
  }

  /** The sector count that the destination works out is the length of the chunk, also for the last one. */
  lemma ApplyBlock(s: Mig, r: Dest, x: Key, buf: seq<Byte>)
    requires ValidMig(s) && ValidDest(r) && Knows(s.names, s.disks, r) && HasChunk(s.disks, x) && |buf| == BLOCK_SIZE
    ensures x.dev < |s.names| && ApplyRec(r, Block(s.names, x, buf)) == Some(Stored(s, r, x, buf))
  {
    hide Find, Splice, GoodCursor, GoodItems, Done, Marked, WellFormedRecs, Knows;
    InRange(s, x);
    assert GoodDisk(s.names[x.dev], s.disks[x.dev]) by { DiskAt(s, x.dev); }
    var i := CopyOf(s, r, x.dev);
    ChunkSectors(|r.disks[i]|, x.chunk);
  }

  lemma DiskAt(s: Mig, d: nat)
    requires ValidMig(s) && d < |s.disks|
    ensures d < |s.names| && GoodDisk(s.names[d], s.disks[d])
  {}

  lemma ChunkSectors(length: nat, k: nat)
    requires length % SECTOR_SIZE == 0 && BLOCK_SIZE * k < length
    ensures var total, sector := length / SECTOR_SIZE, CHUNK_SECTORS * k;
      && total > 0 && sector <= total && SECTOR_SIZE * sector == BLOCK_SIZE * k
      && var n := if total - sector < CHUNK_SECTORS then total - sector else CHUNK_SECTORS;
         SECTOR_SIZE * n == ChunkEnd(length, k) - BLOCK_SIZE * k
  {}

  lemma StoredKnows(s: Mig, r: Dest, x: Key, buf: seq<Byte>, d: nat)
    requires ValidMig(s) && Knows(s.names, s.disks, r) && HasChunk(s.disks, x) && |buf| == BLOCK_SIZE && d < |s.disks|
    ensures Knows(s.names, s.disks, Stored(s, r, x, buf)) && CopyOf(s, Stored(s, r, x, buf), d) == CopyOf(s, r, d)
  {
    hide ValidMig, Find, Splice, ChunkOf;
    var n := Stored(s, r, x, buf);
    forall e | 0 <= e < |s.names| ensures HasCopy(s.names[e], |s.disks[e]|, n) {
      assert HasCopy(s.names[e], |s.disks[e]|, r);
    }
  }

  lemma SpliceChunk(disk: seq<Byte>, k: nat, data: seq<Byte>, j: nat)
    requires BLOCK_SIZE * k < |disk| && BLOCK_SIZE * j < |disk| && |data| == |ChunkOf(disk, k)|
    ensures ChunkOf(Splice(disk, BLOCK_SIZE * k, data), j) == if j == k then data else ChunkOf(disk, j)
  {
    var n := Splice(disk, BLOCK_SIZE * k, data);
    if j != k {
      assert j < k || k < j;
      forall p | BLOCK_SIZE * j <= p < ChunkEnd(|disk|, j) ensures n[p] == disk[p] {
        SpliceAt(disk, BLOCK_SIZE * k, data, p);
      }
    }
  }

  lemma CopiesDiffer(s: Mig, r: Dest, d: nat, e: nat)
    requires ValidMig(s) && Knows(s.names, s.disks, r) && d < |s.disks| && e < |s.disks| && d != e
    ensures CopyOf(s, r, d) != CopyOf(s, r, e)
  {
    hide GoodCursor, GoodItems, Done, Marked, WellFormedRecs, Find;
    assert d < e ==> s.names[d] != s.names[e];
    assert e < d ==> s.names[e] != s.names[d];
  }

  /** An arriving block changes its chunk of the destination and no other. */
  lemma StoredChunk(s: Mig, r: Dest, x: Key, buf: seq<Byte>, y: Key)
    requires ValidMig(s) && Knows(s.names, s.disks, r) && HasChunk(s.disks, x) && HasChunk(s.disks, y)
    requires |buf| == BLOCK_SIZE
    ensures Knows(s.names, s.disks, Stored(s, r, x, buf))
    ensures ChunkOf(Stored(s, r, x, buf).disks[CopyOf(s, r, y.dev)], y.chunk) ==
      if x == y then buf[..|ChunkOf(s.disks[x.dev], x.chunk)|] else ChunkOf(r.disks[CopyOf(s, r, y.dev)], y.chunk)
  {
    hide ValidMig, Find, Splice, ChunkOf, Knows;
    StoredKnows(s, r, x, buf, x.dev);
    var i := CopyOf(s, r, x.dev);
    if x.dev != y.dev {
      CopiesDiffer(s, r, x.dev, y.dev);
    } else {
      SpliceChunk(r.disks[i], x.chunk, buf[..|ChunkOf(s.disks[x.dev], x.chunk)|], y.chunk);
    }
  }

  lemma SameCopy(s: Mig, n: Mig, r: Dest, d: nat)
    requires n.names == s.names && n.disks == s.disks && Knows(s.names, s.disks, r) && d < |s.disks|
    ensures CopyOf(s, r, d) == CopyOf(n, r, d)
  {}

  lemma StoredSame(s: Mig, n: Mig, r: Dest, x: Key, buf: seq<Byte>, y: Key)
    requires ValidMig(s) && n.names == s.names && n.disks == s.disks && Knows(s.names, s.disks, r)
    requires HasChunk(s.disks, x) && HasChunk(s.disks, y) && |buf| == BLOCK_SIZE
    ensures var r' := Stored(s, r, x, buf);
      && Knows(n.names, n.disks, r')
      && SameChunk(n, r', y) == if x == y then Holds(buf, s.disks[x.dev], x.chunk) else SameChunk(s, r, y)
  {
    hide ValidMig, Find, Splice, ChunkOf, Knows, CopyOf, Stored;
    var r' := Stored(s, r, x, buf);
    StoredKnows(s, r, x, buf, y.dev);
    StoredChunk(s, r, x, buf, y);
    SameCopy(s, n, r', y.dev);
  }

  lemma StoredValid(s: Mig, r: Dest, x: Key, buf: seq<Byte>)
    requires ValidMig(s) && ValidDest(r) && Knows(s.names, s.disks, r) && HasChunk(s.disks, x) && |buf| == BLOCK_SIZE
    ensures ValidDest(Stored(s, r, x, buf)) && Knows(s.names, s.disks, Stored(s, r, x, buf))
  {
    StoredKnows(s, r, x, buf, x.dev);
  }

  /** The head of blk_list is sent: if it was the newest of its chunk the destination is now up to date. */
  lemma FlushKeepsStep(s: Mig, r: Dest)
    requires InStep(s, r) && Enabled(s, Flush)
    ensures GoodItem(s.disks, s.queue[0]) && s.queue[0].data.Some?
    ensures InStep(After(s, Flush), Stored(s, r, s.queue[0].key, s.queue[0].data.value))
  {
    hide ValidMig, Find, Newest, ChunkOf, Covered, Knows, CopyOf, HasChunk, Stored, SameChunk, Holds;
    QueueHead(s);
    var n, head := After(s, Flush), s.queue[0];
    var x, buf := head.key, head.data.value;
    FlushKeepsValid(s);
    StoredValid(s, r, x, buf);
    var r' := Stored(s, r, x, buf);
    if !s.lost {
      forall y | HasChunk(n.disks, y) && Covered(n, y) && y !in n.dirty ensures Current(n, r', y) {
        assert Covered(s, y) by { SameCursor(s, n, y); }
        assert Current(s, r, y);
        NewestTail(s.queue, y);
        StoredSame(s, n, r, x, buf, y);
      }
    }
  }

  lemma QueueHead(s: Mig)
    requires ValidMig(s) && Enabled(s, Flush)
    ensures GoodItem(s.disks, s.queue[0]) && s.queue[0].data.Some? && s.queue[0].key.dev < |s.names|
  {
    assert GoodItem(s.disks, s.queue[0]);
  }

  lemma SyncKeepsStep(s: Mig, r: Dest, x: Key, buf: seq<Byte>)
    requires InStep(s, r) && Enabled(s, SendSync(x, buf))
    ensures InStep(After(s, SendSync(x, buf)), Stored(s, r, x, buf))
  {
    hide ValidMig, Find, ChunkOf, Covered, Knows, CopyOf, HasChunk, Stored, SameChunk;
    InRange(s, x);
    var n := After(s, SendSync(x, buf));
    SyncKeepsValid(s, x, buf);
    StoredValid(s, r, x, buf);
    var r' := Stored(s, r, x, buf);
    if !n.lost {
      forall y | HasChunk(n.disks, y) && Covered(n, y) && y !in n.dirty ensures Current(n, r', y) {
        assert Covered(s, y) by { SameCursor(s, n, y); }
        assert y != x ==> Current(s, r, y);
        StoredSame(s, n, r, x, buf, y);
      }
    }
  }

  lemma PutKeepsStep(s: Mig, n: Mig, r: Dest)
    requires InStep(s, r) && ValidMig(n) && n == s.(recs := n.recs)
    ensures InStep(n, r)
  {
    hide ValidMig, Find, ChunkOf, Knows, HasChunk;
    if !n.lost {
      forall y | HasChunk(n.disks, y) && Covered(n, y) && y !in n.dirty ensures Current(n, r, y) {
        assert Covered(s, y);
        assert Current(s, r, y);
        SameCopy(s, n, r, y.dev) by { HasDev(s, y); }
      }
    }
  }

  lemma HasDev(s: Mig, y: Key)
    requires HasChunk(s.disks, y)
    ensures y.dev < |s.disks|
  {}

  lemma CleanupKeepsStep(s: Mig, r: Dest)
    requires InStep(s, r)
    ensures InStep(After(s, Cleanup), r)
  {
    hide Find, ChunkOf, Knows, HasChunk, ValidDisks, GoodCursor, WellFormedRecs, Marked, GoodItems;
    var n := After(s, Cleanup);
    assert GoodItems(s.disks, []) by { NoItems(s.disks); }
    assert ValidMig(n);
    if !n.lost {
      assert n == s;
    }
  }

  lemma NoItems(disks: seq<seq<Byte>>) ensures GoodItems(disks, []) {}

  // ---------- The invariant ----------

  /** What was written so far loads, and leaves the destination in step with the sender. */
  ghost predicate Inv(s: Mig, r0: Dest) {
    ValidDest(r0) && ValidMig(s) && var m := ApplyRecs(r0, s.recs); m.Some? && InStep(s, m.value)
  }

  lemma BlockKeepsInv(s: Mig, n: Mig, r0: Dest, x: Key, buf: seq<Byte>)
    requires Inv(s, r0) && HasChunk(s.disks, x) && |buf| == BLOCK_SIZE && x.dev < |s.names|
    requires n.recs == s.recs + [Block(s.names, x, buf)]
    requires InStep(n, Stored(s, ApplyRecs(r0, s.recs).value, x, buf))
    ensures Inv(n, r0)
  {
    hide InStep, ApplyRecs, ValidMig, Knows, HasChunk, ApplyRec, Stored, WellFormedRecs, WellFormedRec;
    var r := ApplyRecs(r0, s.recs).value;
    InStepFacts(s, r);
    InStepFacts(n, Stored(s, r, x, buf));
    ApplyBlock(s, r, x, buf);
    BlockWellFormed(s.names, s.disks, x, buf);
    OneMoreRec(r0, s.recs, Block(s.names, x, buf));
  }

  lemma InStepFacts(s: Mig, r: Dest)
    requires InStep(s, r)
    ensures ValidMig(s) && ValidDest(r) && Knows(s.names, s.disks, r) && WellFormedRecs(s.recs)
    ensures ValidDisks(s.names, s.disks)
  {}

  /** Every step of the protocol keeps the invariant. */
  lemma StepKeepsInv(s: Mig, e: Event, r0: Dest)
    requires Inv(s, r0) && Enabled(s, e)
    ensures Inv(After(s, e), r0)
  {
    hide InStep, ApplyRecs, ValidMig, Stored, GuestMay, HasChunk, Holds, InOrder, WellFormedRec, WellFormedRecs,
         NextCursor, BulkKey, Remove;
    var r := ApplyRecs(r0, s.recs).value;
    InStepFacts(s, r);
    StepKeepsValid(s, e);
    var n := After(s, e);
    match e {
      case Guest(disks, dirty) => GuestKeepsStep(s, r, disks, dirty);
      case SubmitBulk(d) =>
        BulkCoversOnly(s, d);
        SubmitKeepsStep(s, n, r, BulkKey(s, d));
      case SubmitDirty(x) =>
        SubmitKeepsStep(s, n, r, x);
      case Sample(i, buf) => SampleKeepsStep(s, r, i, buf);
      case Complete(i, failed) => CompleteKeepsStep(s, r, i, failed);
      case Flush =>
        FlushKeepsStep(s, r);
        BlockKeepsInv(s, n, r0, s.queue[0].key, s.queue[0].data.value) by { QueueHead(s); }
      case SendSync(x, buf) =>
        SyncKeepsStep(s, r, x, buf);
        BlockKeepsInv(s, n, r0, x, buf) by { InRange(s, x); HoldsLength(s, x, buf); }
      case Put(rec) =>
        PutKeepsStep(s, n, r);
        OneMoreRec(r0, s.recs, rec);
      case Cleanup => CleanupKeepsStep(s, r);
    }
  }

  lemma HoldsLength(s: Mig, x: Key, buf: seq<Byte>)
    requires HasChunk(s.disks, x) && Holds(buf, s.disks[x.dev], x.chunk)
    ensures |buf| == BLOCK_SIZE
  {}

  lemma BulkCoversOnly(s: Mig, d: nat)
    requires ValidMig(s) && Enabled(s, SubmitBulk(d))
    ensures HasChunk(s.disks, BulkKey(s, d))
    ensures forall y :: HasChunk(s.disks, y) && y != BulkKey(s, d) && Covered(After(s, SubmitBulk(d)), y) ==>
      Covered(s, y)
  {
    hide ValidMig, NextCursor, BulkKey, HasChunk;
    BulkCovers(s, d);
    var n := After(s, SubmitBulk(d));
    forall y | HasChunk(s.disks, y) && y != BulkKey(s, d) && Covered(n, y) ensures Covered(s, y) {
      assert BulkKey(s, d).dev == d by { BulkDev(s, d); }
      assert y == Key(y.dev, y.chunk) && BulkKey(s, d) == Key(d, BulkKey(s, d).chunk);
    }
  }

  lemma BulkDev(s: Mig, d: nat)
    requires d < |s.cursor|
    ensures BulkKey(s, d).dev == d
  {}

  // ---------- Whole runs ----------

  ghost predicate Step(s: Mig, n: Mig)
    requires ValidMig(s)
  {
    exists e :: Enabled(s, e) && n == After(s, e)
  }

  ghost predicate IsRunOf(run: seq<Mig>, s: Mig)
    ensures IsRunOf(run, s) ==> ValidMig(s)
  {
    && 0 < |run| && run[|run| - 1] == s
    && Begun(run[0])
    && (forall k :: 0 <= k < |run| ==> ValidMig(run[k]))
    && forall k :: 0 <= k < |run| - 1 ==> Step(run[k], run[k + 1])
  }

  lemma BeginsInStep(s: Mig, r0: Dest)
    requires Begun(s) && ValidDest(r0) && Knows(s.names, s.disks, r0)
    ensures Inv(s, r0)
  {
    hide ValidMig, Knows, HasChunk, Current;
    NoRecs(r0);
    assert forall x :: !Covered(s, x);
  }

  lemma StepKeepsDevices(s: Mig, n: Mig, r0: Dest)
    requires ValidMig(s) && Step(s, n)
    ensures n.names == s.names && (Knows(s.names, s.disks, r0) <==> Knows(n.names, n.disks, r0))
  {
    hide ValidMig, HasChunk, ChunkOf, Holds, InOrder, Find;
    var e :| Enabled(s, e) && n == After(s, e);
    if e.Guest? {
      assert Knows(s.names, s.disks, r0) <==> Knows(n.names, n.disks, r0);
    }
  }

  /** Whatever the interleaving, sender and destination are in step after every run. */
  lemma {:induction false} EveryRunInStep(run: seq<Mig>, s: Mig, r0: Dest)
    requires IsRunOf(run, s) && ValidDest(r0) && Knows(s.names, s.disks, r0)
    ensures Inv(s, r0)
    decreases |run|
  {
    hide ValidMig, Begun, Knows, Inv, Possible, InOrder;
    var n := |run| - 1;
    if n == 0 {
      BeginsInStep(s, r0);
    } else {
      var before := run[..n];
      assert before[|before| - 1] == run[n - 1] && Step(run[n - 1], run[n - 1 + 1]);
      assert IsRunOf(before, run[n - 1]);
      StepKeepsDevices(run[n - 1], s, r0);
      EveryRunInStep(before, run[n - 1], r0);
      var e :| Enabled(run[n - 1], e) && s == After(run[n - 1], e);
      StepKeepsInv(run[n - 1], e, r0);
    }
  }

  /** The migration is complete: the bulk phase has passed every device, no chunk is dirty, no read is
      outstanding or waiting, and no block was lost. */
  ghost predicate Finished(s: Mig)
    requires ValidMig(s)
  {
    && s.pending == [] && s.queue == [] && !s.lost
    && (forall x :: HasChunk(s.disks, x) ==> x !in s.dirty)
    && forall d :: 0 <= d < |s.disks| ==> s.cursor[d] == Sectors(s.disks[d])
  }

  lemma {:induction false} SameUpTo(a: seq<Byte>, b: seq<Byte>, k: nat)
    requires |a| == |b| && BLOCK_SIZE * k <= |a| + BLOCK_SIZE
    requires forall j :: 0 <= j < k && BLOCK_SIZE * j < |a| ==> ChunkOf(a, j) == ChunkOf(b, j)
    ensures var n := if BLOCK_SIZE * k <= |a| then BLOCK_SIZE * k else |a|; a[..n] == b[..n]
    decreases k
  {
    if k > 0 {
      SameUpTo(a, b, k - 1);
      var lo := BLOCK_SIZE * (k - 1);
      if lo < |a| {
        var hi := ChunkEnd(|a|, k - 1);
        assert ChunkOf(a, k - 1) == ChunkOf(b, k - 1);
        assert a[..hi] == a[..lo] + a[lo..hi] && b[..hi] == b[..lo] + b[lo..hi];
      }
    }
  }

  /** The destination has the sender's devices, with the same contents. */
  ghost predicate SameDisks(s: Mig, r: Dest) {
    Knows(s.names, s.disks, r) && forall d :: 0 <= d < |s.disks| ==> r.disks[CopyOf(s, r, d)] == s.disks[d]
  }

  lemma FinishedMeansEqual(s: Mig, r: Dest, d: nat)
    requires InStep(s, r) && Finished(s) && d < |s.disks|
    ensures r.disks[CopyOf(s, r, d)] == s.disks[d]
  {
    hide ValidMig, Knows, CopyOf, ChunkOf, Find;
    var a, b := r.disks[CopyOf(s, r, d)], s.disks[d];
    DiskAt(s, d);
    var k := (|b| + BLOCK_SIZE - 1) / BLOCK_SIZE;
    forall j | 0 <= j < k && BLOCK_SIZE * j < |a| ensures ChunkOf(a, j) == ChunkOf(b, j) {
      var x := Key(d, j);
      assert Newest([], x).None?;
      assert Current(s, r, x) by { assert Covered(s, x) by { CoveredAtEnd(s, x); } }
    }
    SameUpTo(a, b, k);
    assert a[..|a|] == a && b[..|b|] == b;
  }

  lemma CoveredAtEnd(s: Mig, x: Key)
    requires ValidMig(s) && HasChunk(s.disks, x) && s.cursor[x.dev] == Sectors(s.disks[x.dev])
    ensures Covered(s, x)
  {
    DiskAt(s, x.dev);
  }

  /** Block migration is correct over whole runs. However guest writes, bulk and dirty reads, their
      completions and the sending of blocks were interleaved, once the migration is finished and its last
      section has ended, loading the stream makes every device of the destination equal the guest's. */
  lemma DestinationEqualsSource(run: seq<Mig>, s: Mig, r0: Dest)
    requires IsRunOf(run, s) && Finished(s) && s.recs != [] && s.recs[|s.recs| - 1].End?
    requires ValidDest(r0) && Knows(s.names, s.disks, r0)
    ensures var n := LoadStream(EncodeRecs(s.recs), r0); n.Some? && SameDisks(s, n.value)
  {
    hide IsRunOf, ValidMig, Knows, CopyOf, InStep, ApplyRecs, EncodeRecs, LoadStream, Finished, WellFormedRecs;
    EveryRunInStep(run, s, r0);
    LoadEncodedStream(s.recs, r0);
    var r := ApplyRecs(r0, s.recs).value;
    InStepFacts(s, r);
    forall d | 0 <= d < |s.disks| ensures r.disks[CopyOf(s, r, d)] == s.disks[d] {
      FinishedMeansEqual(s, r, d);
    }
  }
}
