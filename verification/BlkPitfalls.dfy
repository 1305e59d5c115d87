/** Why block migration needs its assumptions: a run of vmm/block-migration.c with reads that complete out of
    order, and a last stage under a rate limit, that finish with a destination that differs from the
    source. */
module BlkPitfalls {
  import opened Common
  import opened RamStream
  import opened BlkStream
  import opened BlkLoad
  import opened BlkProtocol
  import opened BlkDelivery
  import opened BlkSave

  /** Every step is one that the code can take, with completions in any order. */
  ghost predicate IsLooseRun(run: seq<Mig>)
    ensures IsLooseRun(run) ==> run != [] && ValidMig(run[|run| - 1])
  {
    && 0 < |run| && Begun(run[0])
    && (forall k :: 0 <= k < |run| ==> ValidMig(run[k]))
    && forall k :: 0 <= k < |run| - 1 ==> LooseStep(run[k], run[k + 1])
  }

  ghost predicate LooseStep(s: Mig, n: Mig)
    requires ValidMig(s)
  {
    exists e :: Possible(s, e) && n == After(s, e)
  }

  /** A device of one sector, and a buffer that holds it. */
  ghost predicate OneSector(name: seq<Byte>, a: seq<Byte>) { GoodId(name) && |a| == SECTOR_SIZE }

  function Padded(a: seq<Byte>): (buf: seq<Byte>)
    requires |a| == SECTOR_SIZE
    ensures |buf| == BLOCK_SIZE && buf[..SECTOR_SIZE] == a
  {
    a + seq(BLOCK_SIZE - SECTOR_SIZE, i => 0)
  }

  function Small(name: seq<Byte>, a: seq<Byte>, dirty: set<Key>, cursor: nat, inflight: set<Key>,
                 pending: seq<Item>, queue: seq<Item>, recs: seq<Rec>): Mig
  {
    Mig([name], [a], dirty, [cursor], inflight, pending, queue, recs, false)
  }

  const X := Key(0, 0)

  lemma SmallValid(name: seq<Byte>, a: seq<Byte>, dirty: set<Key>, cursor: nat, inflight: set<Key>,
                   pending: seq<Item>, queue: seq<Item>, recs: seq<Rec>)
    requires OneSector(name, a) && cursor <= 1 && WellFormedRecs(recs) && Done(queue) && Waiting(pending)
    requires Marked(inflight, pending)
    requires forall i :: 0 <= i < |pending| ==>
      pending[i].key == X && (pending[i].data.Some? ==> |pending[i].data.value| == BLOCK_SIZE)
    requires forall i :: 0 <= i < |queue| ==>
      queue[i].key == X && (queue[i].data.Some? ==> |queue[i].data.value| == BLOCK_SIZE)
    ensures ValidMig(Small(name, a, dirty, cursor, inflight, pending, queue, recs))
  {
    hide WellFormedRecs, Done, Waiting, Marked;
    assert HasChunk([a], X);
  }

  lemma OneChunk(a: seq<Byte>)
    requires |a| == SECTOR_SIZE
    ensures HasChunk([a], X) && ChunkOf(a, 0) == a && Holds(Padded(a), a, 0) && Sectors(a) == 1 && NextCursor(a, 0) == 1
  {}

  /** The bulk phase reads the only chunk, and the driver fetches it. */
  lemma BulkRun(name: seq<Byte>, a: seq<Byte>) returns (run: seq<Mig>)
    requires OneSector(name, a)
    ensures IsLooseRun(run)
    ensures run[|run| - 1] == Small(name, a, {}, 1, {}, [Item(X, Some(Padded(a)), false)], [], [])
  {
    hide ValidMig, Padded, NextCursor, Sectors, Holds, HasChunk, ChunkOf;
    OneChunk(a);
    var s0 := Small(name, a, {}, 0, {}, [], [], []);
    var s1 := Small(name, a, {}, 1, {}, [Item(X, None, false)], [], []);
    var s2 := Small(name, a, {}, 1, {}, [Item(X, Some(Padded(a)), false)], [], []);
    SmallValid(name, a, {}, 0, {}, [], [], []);
    SmallValid(name, a, {}, 1, {}, s1.pending, [], []);
    SmallValid(name, a, {}, 1, {}, s2.pending, [], []);
    assert Begun(s0);
    assert Possible(s0, SubmitBulk(0)) && s1 == After(s0, SubmitBulk(0));
    assert Possible(s1, Sample(0, Padded(a))) && s2 == After(s1, Sample(0, Padded(a)));
    run := [s0, s1, s2];
    assert LooseStep(s0, s1) && LooseStep(s1, s2);
  }

  lemma MoreRun(run: seq<Mig>, e: Event, n: Mig) returns (more: seq<Mig>)
    requires IsLooseRun(run) && ValidMig(n) && Possible(run[|run| - 1], e) && n == After(run[|run| - 1], e)
    ensures IsLooseRun(more) && more[|more| - 1] == n && more[0] == run[0]
  {
    hide ValidMig, Begun, Possible;
    more := run + [n];
    forall k | 0 <= k < |more| - 1 ensures LooseStep(more[k], more[k + 1]) {
      if k < |run| - 1 {
        assert LooseStep(run[k], run[k + 1]);
      }
    }
  }

  /** The bulk phase does not mark its reads in flight, so the dirty phase may read the same chunk while
      the bulk read is outstanding. */
  lemma BothReadsRun(name: seq<Byte>, a: seq<Byte>, b: seq<Byte>) returns (run: seq<Mig>)
    requires OneSector(name, a) && OneSector(name, b)
    ensures IsLooseRun(run)
    ensures run[|run| - 1] ==
      Small(name, b, {}, 1, {X}, [Item(X, Some(Padded(a)), false), Item(X, Some(Padded(b)), false)], [], [])
  {
    hide ValidMig, Padded, NextCursor, Sectors, Holds, HasChunk, ChunkOf, IsLooseRun;
    OneChunk(a);
    OneChunk(b);
    var first := Item(X, Some(Padded(a)), false);
    var p1, p2 := [first, Item(X, None, false)], [first, Item(X, Some(Padded(b)), false)];
    assert Marked({X}, p1) by { assert p1[0].key == X; }
    assert Marked({X}, p2) by { assert p2[0].key == X; }
    SmallValid(name, b, {X}, 1, {}, [first], [], []);
    SmallValid(name, b, {}, 1, {X}, p1, [], []);
    SmallValid(name, b, {}, 1, {X}, p2, [], []);
    run := BulkRun(name, a);
    var s := run[|run| - 1];
    assert GuestMay(s, [b], {X}) by { OnlyChunk(a); }
    run := MoreRun(run, Guest([b], {X}), Small(name, b, {X}, 1, {}, [first], [], []));
    run := MoreRun(run, SubmitDirty(X), Small(name, b, {}, 1, {X}, p1, [], []));
    run := MoreRun(run, Sample(1, Padded(b)), Small(name, b, {}, 1, {X}, p2, [], []));
  }

  lemma OnlyChunk(a: seq<Byte>)
    requires |a| == SECTOR_SIZE
    ensures forall x :: HasChunk([a], x) ==> x == X
  {}

  /** The driver completes the later read first. */
  lemma ReorderedRun(name: seq<Byte>, a: seq<Byte>, b: seq<Byte>) returns (run: seq<Mig>)
    requires OneSector(name, a) && OneSector(name, b)
    ensures IsLooseRun(run)
    ensures run[|run| - 1] ==
      Small(name, b, {}, 1, {}, [], [Item(X, Some(Padded(b)), false), Item(X, Some(Padded(a)), false)], [])
  {
    hide ValidMig, Padded, IsLooseRun;
    var ia, ib := Item(X, Some(Padded(a)), false), Item(X, Some(Padded(b)), false);
    SmallValid(name, b, {}, 1, {}, [ia], [ib], []);
    SmallValid(name, b, {}, 1, {}, [], [ib, ia], []);
    run := BothReadsRun(name, a, b);
    run := MoreRun(run, Complete(1, false), Small(name, b, {}, 1, {}, [ia], [ib], []));
    run := MoreRun(run, Complete(0, false), Small(name, b, {}, 1, {}, [], [ib, ia], []));
  }

  /** If the later read of a chunk completes first, and the earlier one had been fetched before the guest's
      write, the migration finishes and some destination does not get the guest's contents. */
  lemma OutOfOrderIsStale(name: seq<Byte>, a: seq<Byte>, b: seq<Byte>) returns (run: seq<Mig>)
    requires OneSector(name, a) && OneSector(name, b) && a != b
    ensures IsLooseRun(run)
    ensures var s := run[|run| - 1];
      Finished(s) && Ended(s) && s.disks == [b] && !Delivered(s, EncodeRecs(s.recs))
  {
    hide ValidMig, Padded, Sectors, HasChunk, IsLooseRun, WellFormedRecs, WellFormedRec, LastBlock, Delivered,
         EncodeRecs, Holds;
    var ra, rb := Block([name], X, Padded(a)), Block([name], X, Padded(b));
    var ia := Item(X, Some(Padded(a)), false);
    OneChunk(b);
    SmallRecs(name, a, b);
    SmallValid(name, b, {}, 1, {}, [], [ia], [rb]);
    SmallValid(name, b, {}, 1, {}, [], [], [rb, ra]);
    SmallValid(name, b, {}, 1, {}, [], [], [rb, ra, End]);
    run := ReorderedRun(name, a, b);
    run := MoreRun(run, Flush, Small(name, b, {}, 1, {}, [], [ia], [rb]));
    run := MoreRun(run, Flush, Small(name, b, {}, 1, {}, [], [], [rb, ra]));
    run := MoreRun(run, Put(End), Small(name, b, {}, 1, {}, [], [], [rb, ra, End]));
    var s := run[|run| - 1];
    LooseRunOwnsBlocks(run, s);
    assert !CurrentBlock(s, X) by { NotHeld(a, b); }
    DeliveredExactly(s);
  }

  lemma NotHeld(a: seq<Byte>, b: seq<Byte>)
    requires |a| == |b| == SECTOR_SIZE && a != b
    ensures !Holds(Padded(a), b, 0)
  {
    hide Padded;
    assert ChunkOf(b, 0) == b;
  }

  lemma {:induction false} LooseRunOwnsBlocks(run: seq<Mig>, s: Mig)
    requires IsLooseRun(run) && run[|run| - 1] == s
    ensures OwnBlocks(s)
    decreases |run|
  {
    hide ValidMig, OwnBlocks, Possible;
    var n := |run| - 1;
    if n == 0 {
      NothingWritten(s);
    } else {
      var before := run[..n];
      assert before[|before| - 1] == run[n - 1] && LooseStep(run[n - 1], run[n - 1 + 1]);
      assert IsLooseRun(before);
      LooseRunOwnsBlocks(before, run[n - 1]);
      var e :| Possible(run[n - 1], e) && s == After(run[n - 1], e);
      StepKeepsOwn(run[n - 1], e);
    }
  }

  lemma SmallRecs(name: seq<Byte>, a: seq<Byte>, b: seq<Byte>)
    requires OneSector(name, a) && OneSector(name, b)
    ensures var ra, rb := Block([name], X, Padded(a)), Block([name], X, Padded(b));
      && WellFormedRecs([]) && WellFormedRecs([rb]) && WellFormedRecs([rb, ra]) && WellFormedRecs([rb, ra, End])
      && WellFormedRec(End) && LastBlock([name], [rb, ra, End], X) == Some(Padded(a))
  {
    hide Padded, LastBlock;
    var ra, rb := Block([name], X, Padded(a)), Block([name], X, Padded(b));
    assert WellFormedRec(ra) && WellFormedRec(rb);
    OneMoreBlock([name], [rb], ra, X);
    assert [rb] + [ra] == [rb, ra];
    OneMoreBlock([name], [rb, ra], End, X);
    assert [rb, ra] + [End] == [rb, ra, End];
  }

  /** A chunk that was never sent and whose only read is still queued. */
  lemma NeedsQueue(s: Mig, x: Key)
    requires ValidMig(s) && HasChunk(s.disks, x) && x !in s.dirty && Newest(s.queue, x).Some?
    requires LastBlock(s.names, s.recs, x).None?
    ensures !QueueNotNeeded(s)
  {
    assert !CurrentBlock(s, x);
  }

  /** Stage 3 under a rate limiter that answers 1: the only block is still queued, the flush stops before it
      and the cleanup drops it. Nothing is dirty or outstanding, the call reports success, and some
      destination ends up with other contents. */
  method RateLimitedStage3(name: seq<Byte>, a: seq<Byte>) returns (b: BlockSender, ret: int)
    requires OneSector(name, a)
    ensures b.Valid() && ret >= 0 && NoDirtyChunk(b.st) && b.st.pending == [] && Ended(b.st) && b.st.disks == [a]
    ensures !Delivered(b.st, b.out)
  {
    hide BlockSender.Valid, ValidMig, Flushed, FlushFails, QueueNotNeeded, Delivered, LastBlock, WellFormedRecs,
         Sectors, NextCursor;
    SmallDisks(name, a);
    b := new BlockSender([name], [a], []);
    var zeros: seq<Byte> := seq(BLOCK_SIZE, i => 0);
    EmptyQueue(k => 0);
    ghost var mid;
    ret, mid := b.SaveLive(1, true, k => 0, 0, k => None, k => 0, k => false, zeros, k => false, k => 0);
    ReadOnlyChunk(b, zeros);
    ghost var s := b.st;
    StopsAtOnce(s.queue, k => 1);
    NeedsQueue(s, X) by { OneQueued(s, name, a); }
    ret, mid := b.SaveLive(3, true, k => 1, 0, k => None, k => 0, k => false, zeros, k => false, k => 0);
  }

  lemma EmptyQueue(rate: nat -> int)
    ensures Flushed([], rate, 0) == 0 && !FlushFails([], rate)
  {}

  lemma StopsAtOnce(queue: seq<Item>, rate: nat -> int)
    requires rate(0) != 0
    ensures Flushed(queue, rate, 0) == 0 && !FlushFails(queue, rate)
  {}

  lemma SmallDisks(name: seq<Byte>, a: seq<Byte>)
    requires OneSector(name, a)
    ensures ValidDisks([name], [a])
  {
    assert GoodDisk(name, a);
  }

  lemma OneQueued(s: Mig, name: seq<Byte>, a: seq<Byte>)
    requires OneSector(name, a) && ValidMig(s) && s.disks == [a] && s.recs == [End] && |s.queue| == 1
    requires s.queue[0].key == X
    ensures HasChunk(s.disks, X) && Newest(s.queue, X).Some? && LastBlock(s.names, s.recs, X).None?
  {
    assert [End][..0] == [];
  }

  /** The bulk phase reads the only chunk of the only device, and the read completes. */
  method ReadOnlyChunk(b: BlockSender, zeros: seq<Byte>)
    requires b.Valid() && b.Counts() && b.st.pending == [] && b.st.queue == [] && |zeros| == BLOCK_SIZE
    requires |b.st.disks| == 1 && |b.st.disks[0]| == SECTOR_SIZE && b.st.cursor == [0] && b.answers == []
    modifies b
    ensures b.Valid() && b.Counts() && b.bulkCompleted && old(b.run) <= b.run && b.error == old(b.error)
    ensures b.answers == []
    ensures b.st.pending == []
    ensures b.st == old(b.st).(cursor := b.st.cursor, dirty := old(b.st).dirty - {X}, inflight := b.st.inflight,
                               queue := b.st.queue)
    ensures |b.st.queue| == 1 && b.st.queue[0].key == X
  {
    hide BlockSender.Valid, ValidMig, Sectors, NextCursor;
    OneChunk(b.st.disks[0]);
    NotDone(b);
    ghost var s := b.st;
    var done := b.SaveDeviceBulk(0);
    assert b.st == After(s, SubmitBulk(0));
    assert AllTrue(b.bulkDone) by { NowDone(b); }
    b.MarkBulkCompleted();
    b.Fetch(0, zeros);
    b.ReadCb(0, 0);
  }

  lemma NotDone(b: BlockSender)
    requires b.Valid() && |b.st.disks| == 1 && b.st.cursor == [0] && Sectors(b.st.disks[0]) == 1
    ensures !b.bulkDone[0]
  {
    CursorAt(b.st, b.curDirty, b.bulkDone, 0);
  }

  lemma NowDone(b: BlockSender)
    requires b.Valid() && |b.st.disks| == 1 && b.st.cursor == [1] && Sectors(b.st.disks[0]) == 1
    ensures AllTrue(b.bulkDone)
  {
    CursorAt(b.st, b.curDirty, b.bulkDone, 0);
  }
}
