/** The sending side of block migration as vmm/block-migration.c runs it, for devices without a shared
    base image. */
module BlkSave {
  import opened Common
  import opened Answers
  import opened RamStream
  import opened BlkStream
  import opened BlkLoad
  import opened BlkProtocol
  import opened BlkDelivery
  import Bits

  lemma ExtendRun(run: seq<Mig>, s: Mig, e: Event)
    requires IsRunOf(run, s) && Enabled(s, e)
    ensures IsRunOf(run + [After(s, e)], After(s, e))
  {
    hide ValidMig, Begun, Possible, InOrder, After;
    StepKeepsValid(s, e);
    var more := run + [After(s, e)];
    assert Step(s, After(s, e));
    forall k | 0 <= k < |more| - 1 ensures Step(more[k], more[k + 1]) {
      if k < |run| - 1 {
        assert Step(run[k], run[k + 1]);
      }
    }
  }

  /** The per-device flag says that the bulk phase has reached the end. */
  ghost predicate Cursors(s: Mig, curDirty: seq<nat>, bulkDone: seq<bool>) {
    && |s.cursor| == |curDirty| == |bulkDone| == |s.disks|
    && forall d :: 0 <= d < |s.disks| ==>
         curDirty[d] % CHUNK_SECTORS == 0 && (bulkDone[d] <==> s.cursor[d] == Sectors(s.disks[d]))
  }

  ghost predicate AllTrue(flags: seq<bool>) { forall d :: 0 <= d < |flags| ==> flags[d] }

  /** Chunk x lies before its device's dirty cursor. */
  predicate Below(curDirty: seq<nat>, x: Key) { x.dev < |curDirty| && CHUNK_SECTORS * x.chunk < curDirty[x.dev] }

  /** block_mig_state: st holds the devices with their dirty bits, cursors and in-flight marks, the
      outstanding reads, blk_list and the records handed to the stream, out their bytes. answers is what
      the drivers will say to the reads that they are asked for; after that they accept every read. */
  class BlockSender {
    var st: Mig
    var curDirty: seq<nat>
    var bulkDone: seq<bool>
    var bulkCompleted: bool
    var submitted: int
    var readDone: int
    var transferred: int
    var out: seq<Byte>
    var error: int
    var answers: seq<int>
    ghost var issued: int
    ghost var run: seq<Mig>

    /** init_blk_migration over the writable devices that are not empty, and set_dirty_tracking. */
    constructor (names: seq<seq<Byte>>, disks: seq<seq<Byte>>, answers: seq<int>)
      requires ValidDisks(names, disks)
      ensures Valid() && Counts() && Begun(st) && st.names == names && st.disks == disks && run == [st]
      ensures error == 0 && !bulkCompleted && this.answers == answers
    {
      hide ValidDisks;
      st := Mig(names, disks, {}, seq(|disks|, d => 0), {}, [], [], [], false);
      curDirty, bulkDone, bulkCompleted := seq(|disks|, d => 0), seq(|disks|, d => false), false;
      submitted, readDone, transferred, out, error, issued := 0, 0, 0, [], 0, 0;
      this.answers := answers;
      new;
      Starts(names, disks);
      run := [st];
    }

    /** The bytes written encode the records of a run of the protocol that leads to the present state. */
    ghost predicate Valid()
      reads this`st, this`run, this`out, this`curDirty, this`bulkDone, this`bulkCompleted
      ensures Valid() ==> ValidMig(st) && |curDirty| == |bulkDone| == |st.disks| == |st.cursor|
    {
      && IsRunOf(run, st)
      && out == EncodeRecs(st.recs)
      && Cursors(st, curDirty, bulkDone)
      && (bulkCompleted ==> AllTrue(bulkDone))
    }

    /** Reads submitted are outstanding, waiting in blk_list or transferred. */
    ghost predicate Counts()
      reads this`st, this`submitted, this`readDone, this`transferred, this`issued
    {
      submitted == |st.pending| && readDone == |st.queue| && issued == submitted + readDone + transferred
    }

    // ---------- Asynchronous reads ----------

    /** The driver fetches the data of an outstanding read; junk is what else is in the buffer. */
    method Fetch(i: nat, junk: seq<Byte>)
      requires Valid() && Counts() && i < |st.pending| && st.pending[i].data.None? && |junk| == BLOCK_SIZE
      modifies this`st, this`run
      ensures Valid() && Counts() && old(run) <= run
      ensures |st.pending| == |old(st).pending| && st.pending[i].data.Some?
      ensures st.pending[i].key == old(st).pending[i].key
      ensures var x := st.pending[i].key;
        x.dev < |st.disks| && Holds(st.pending[i].data.value, st.disks[x.dev], x.chunk)
      ensures st == old(st).(pending := old(st).pending[i := st.pending[i]])
    {
      hide IsRunOf, EncodeRecs, ValidMig, AllTrue;
      var x := st.pending[i].key;
      assert HasChunk(st.disks, x) by { PendingChunk(st, i); }
      var c := ChunkOf(st.disks[x.dev], x.chunk);
      var buf := c + junk[|c|..];
      ExtendRun(run, st, Sample(i, buf));
      st := st.(pending := st.pending[i := st.pending[i].(data := Some(buf))]);
      run := run + [st];
    }

    /** blk_mig_read_cb: a read is done and waits in blk_list. */
    method ReadCb(i: nat, ret: int)
      requires Valid() && Counts() && i < |st.pending| && InOrder(st.pending, i)
      requires ret >= 0 ==> st.pending[i].data.Some?
      modifies this`st, this`submitted, this`readDone, this`run
      ensures Valid() && Counts() && old(run) <= run && submitted >= 0
      ensures ValidMig(old(st)) && Enabled(old(st), Complete(i, ret < 0)) && st == After(old(st), Complete(i, ret < 0))
    {
      hide IsRunOf, EncodeRecs, ValidMig, AllTrue;
      ExtendRun(run, st, Complete(i, ret < 0));
      var blk := st.pending[i].(failed := ret < 0);
      st := st.(pending := Remove(st.pending, i), queue := st.queue + [blk], inflight := st.inflight - {blk.key});
      submitted := submitted - 1;
      readDone := readDone + 1;
      run := run + [st];
    }

    /** One of the outstanding reads completes; the driver picks which, among those that may. */
    method CompleteOne(choice: nat, fails: bool, junk: seq<Byte>)
      requires Valid() && Counts() && st.pending != [] && |junk| == BLOCK_SIZE
      modifies this`st, this`submitted, this`readDone, this`run
      ensures Valid() && Counts() && old(run) <= run
      ensures Completed(old(st), st, if MayPick(old(st).pending, choice) then choice else 0, fails)
    {
      hide Valid, Remove, ValidMig;
      ghost var s := st;
      var i := choice;
      if i >= |st.pending| || !InOrder(st.pending, i) {
        i := 0;
      }
      if !fails && st.pending[i].data.None? {
        Fetch(i, junk);
        RemoveUpdated(s.pending, i, st.pending[i]);
      }
      ReadCb(i, if fails then -EIO else 0);
    }

    /** The driver completes up to n reads between two calls of block_save_live. */
    method CompleteSome(n: nat, pick: nat -> nat, fails: nat -> bool, junk: seq<Byte>)
      requires Valid() && Counts() && |junk| == BLOCK_SIZE
      modifies this`st, this`submitted, this`readDone, this`run
      ensures Valid() && Counts() && old(run) <= run
      ensures st == old(st).(pending := st.pending, inflight := st.inflight, queue := st.queue)
      ensures |st.pending| == if n < |old(st).pending| then |old(st).pending| - n else 0
      ensures old(st).queue <= st.queue
      ensures multiset(Keys(st.queue)) + multiset(Keys(st.pending)) ==
        multiset(Keys(old(st).queue)) + multiset(Keys(old(st).pending))
    {
      hide Valid, ValidMig, Counts, Completed, Keys;
      var k := 0;
      while k < n && st.pending != []
        invariant Valid() && Counts() && old(run) <= run
        invariant st == old(st).(pending := st.pending, inflight := st.inflight, queue := st.queue)
        invariant k <= n && |st.queue| == |old(st).queue| + k && |st.pending| == |old(st).pending| - k
        invariant old(st).queue <= st.queue
        invariant multiset(Keys(st.queue)) + multiset(Keys(st.pending)) ==
          multiset(Keys(old(st).queue)) + multiset(Keys(old(st).pending))
      {
        ghost var s := st;
        CompleteOne(pick(k), fails(k), junk);
        CompletedKeys(s, st, if MayPick(s.pending, pick(k)) then pick(k) else 0, fails(k));
        k := k + 1;
      }
    }

    /** qemu_aio_flush waits for all outstanding reads; the driver picks their order and which fail. */
    method AioFlush(pick: nat -> nat, fails: nat -> bool, junk: seq<Byte>)
      requires Valid() && Counts() && |junk| == BLOCK_SIZE
      modifies this`st, this`submitted, this`readDone, this`run
      ensures Valid() && Counts() && old(run) <= run
      ensures st == old(st).(pending := [], inflight := {}, queue := st.queue)
      ensures |st.queue| == |old(st).queue| + |old(st).pending| && old(st).queue <= st.queue
      ensures multiset(Keys(st.queue)) == multiset(Keys(old(st).queue)) + multiset(Keys(old(st).pending))
      ensures forall j: nat :: j < |old(st).pending| ==> st.queue[|old(st).queue| + j].failed == fails(j)
    {
      hide Valid, ValidMig, Counts, Completed, Keys;
      var n := 0;
      while st.pending != []
        invariant Valid() && Counts() && old(run) <= run
        invariant |st.queue| + |st.pending| == |old(st).queue| + |old(st).pending|
        invariant old(st).queue <= st.queue && n == |st.queue| - |old(st).queue|
        invariant forall j: nat :: j < n ==> st.queue[|old(st).queue| + j].failed == fails(j)
        invariant multiset(Keys(st.queue)) + multiset(Keys(st.pending)) ==
          multiset(Keys(old(st).queue)) + multiset(Keys(old(st).pending))
        invariant st == old(st).(pending := st.pending, inflight := st.inflight, queue := st.queue)
        decreases |st.pending|
      {
        ghost var s := st;
        CompleteOne(pick(n), fails(n), junk);
        CompletedKeys(s, st, if MayPick(s.pending, pick(n)) then pick(n) else 0, fails(n));
        n := n + 1;
      }
      NoKeys(st.pending);
      NoneInflight(st);
    }

    /** The answer to one read: bdrv_aio_readv gives no request, or bdrv_read fails. */
    method AskDriver() returns (answer: int)
      modifies this`answers
      ensures answers == Rest(old(answers)) && (answer < 0 <==> Refuses(old(answers)))
      ensures answer < 0 ==> answer == old(answers)[0]
    {
      answer := 0;
      if answers != [] {
        answer, answers := answers[0], answers[1..];
      }
    }

    // ---------- The bulk phase ----------

    /** mig_save_device_bulk: reads the next chunk of the device, and tells whether it was the last. If the
        read is refused nothing changes but the error. */
    method SaveDeviceBulk(d: nat) returns (done: bool)
      requires Valid() && Counts() && d < |st.disks| && !bulkDone[d]
      modifies this`st, this`submitted, this`run, this`issued, this`bulkDone, this`answers, this`error
      ensures Valid() && Counts() && old(run) <= run
      ensures Asked(old(answers), answers, old(error), error, true)
      ensures Refuses(old(answers)) ==>
        st == old(st) && bulkDone == old(bulkDone) && !done && issued == old(issued) && error == -EIO
      ensures !Refuses(old(answers)) ==>
        && ValidMig(old(st)) && Enabled(old(st), SubmitBulk(d)) && st == After(old(st), SubmitBulk(d))
        && bulkDone == old(bulkDone)[d := done] && issued == old(issued) + 1
    {
      hide Valid, ValidMig, After, Enabled;
      var answer := AskDriver();
      if answer < 0 {
        error := -EIO;
        return false;
      }
      done := ReadChunk(d);
    }

    /** The accepted read of mig_save_device_bulk. */
    method ReadChunk(d: nat) returns (done: bool)
      requires Valid() && Counts() && d < |st.disks| && !bulkDone[d]
      modifies this`st, this`submitted, this`run, this`issued, this`bulkDone
      ensures Valid() && Counts() && old(run) <= run && issued == old(issued) + 1
      ensures ValidMig(old(st)) && Enabled(old(st), SubmitBulk(d)) && st == After(old(st), SubmitBulk(d))
      ensures bulkDone == old(bulkDone)[d := done]
    {
      hide IsRunOf, EncodeRecs, ValidMig, After, Enabled, Sectors, Cursors;
      CursorAt(st, curDirty, bulkDone, d);
      SubmitsBulk(st, d);
      ExtendRun(run, st, SubmitBulk(d));
      var total := Sectors(st.disks[d]);
      var sector := st.cursor[d] / CHUNK_SECTORS * CHUNK_SECTORS;
      var n := if total - sector < CHUNK_SECTORS then total - sector else CHUNK_SECTORS;
      var x := Key(d, sector / CHUNK_SECTORS);
      done := sector + n >= total;
      CursorMoves(st, curDirty, bulkDone, d, sector + n);
      bulkDone := bulkDone[d := done];
      st := st.(pending := st.pending + [Item(x, None, false)], dirty := st.dirty - {x},
                cursor := st.cursor[d := sector + n]);
      submitted, issued := submitted + 1, issued + 1;
      run := run + [st];
    }

    /** A progress or end record. */
    method PutMark(rec: Rec)
      requires Valid() && WellFormedRec(rec) && !rec.DeviceBlock?
      modifies this`st, this`out, this`run
      ensures Valid() && old(run) <= run && st == old(st).(recs := old(st).recs + [rec])
      ensures old(Counts()) ==> Counts()
    {
      hide IsRunOf, EncodeRecs, ValidMig, AllTrue, Be;
      ExtendRun(run, st, Put(rec));
      RecBytes(st.recs, rec);
      out := out + if rec.Progress? then Be(Bits.Or(SECTOR_SIZE * rec.percent, FLAG_PROGRESS), 8) else Be(FLAG_END, 8);
      st := st.(recs := st.recs + [rec]);
      run := run + [st];
    }

    /** blk_mig_save_bulked_block: one more chunk of the first device that is not done. */
    method SaveBulkedBlock(progress: Option<nat>) returns (more: bool)
      requires Valid() && Counts() && (progress.Some? ==> progress.value <= 100)
      modifies this`st, this`out, this`submitted, this`run, this`issued, this`bulkDone, this`answers, this`error
      ensures Valid() && Counts() && old(run) <= run
      ensures more <==> !old(AllTrue(bulkDone))
      ensures !more ==> AllTrue(bulkDone)
      ensures Asked(old(answers), answers, old(error), error, more)
      ensures old(CleanBelow()) ==> CleanBelow()
      ensures st == old(st).(pending := st.pending, dirty := st.dirty, cursor := st.cursor, recs := st.recs)
      ensures st.dirty <= old(st).dirty
      ensures issued == old(issued) + if more && !Refuses(old(answers)) then 1 else 0
      ensures |old(bulkDone)| == |old(st).cursor|
      ensures st.recs == old(st).recs + ProgressMark(progress)
      ensures more && Refuses(old(answers)) ==> st == old(st).(recs := st.recs)
      ensures more && !Refuses(old(answers)) ==> exists d ::
        && 0 <= d < |old(bulkDone)| && !old(bulkDone)[d] && AllTrue(old(bulkDone)[..d])
        && st.pending == old(st).pending + [Item(BulkKey(old(st), d), None, false)]
    {
      hide Valid, ValidMig, Enabled, Sectors, BulkKey;
      more := false;
      var d := 0;
      while d < |st.disks|
        invariant d <= |st.disks| && Valid() && Counts() && st == old(st) && !more
        invariant issued == old(issued) && old(run) <= run && bulkDone == old(bulkDone)
        invariant answers == old(answers) && error == old(error)
        invariant forall e :: 0 <= e < d ==> bulkDone[e]
      {
        if !bulkDone[d] {
          var done := SaveDeviceBulk(d);
          more := true;
          break;
        }
        d := d + 1;
      }
      if progress.Some? {
        PutMark(Progress(progress.value));
      }
    }

    // ---------- Sending blocks ----------

    /** blk_send. */
    method SendBlock(x: Key, buf: seq<Byte>)
      requires x.dev < |st.names| && WellFormedRec(Block(st.names, x, buf))
      modifies this`out
      ensures out == old(out) + EncodeRec(Block(st.names, x, buf))
    {
      hide Be, EncodeId;
      var sector := CHUNK_SECTORS * x.chunk;
      out := out + Be(Bits.Or(SECTOR_SIZE * sector, FLAG_DEVICE_BLOCK), 8);
      out := out + EncodeId(st.names[x.dev]);
      out := out + buf;
    }

    /** The head of blk_list goes out. */
    method FlushHead()
      requires Valid() && Counts() && st.queue != [] && !st.queue[0].failed
      modifies this`st, this`out, this`readDone, this`transferred, this`run
      ensures Valid() && Counts() && old(run) <= run && readDone >= 0
      ensures ValidMig(old(st)) && st == After(old(st), Flush)
    {
      hide IsRunOf, EncodeRecs, ValidMig, AllTrue, WellFormedRec, EncodeRec, Cursors;
      QueueHead(st);
      var x, buf := st.queue[0].key, st.queue[0].data.value;
      BlockWellFormed(st.names, st.disks, x, buf) by { ValidDisksOf(st); }
      ExtendRun(run, st, Flush);
      RecBytes(st.recs, Block(st.names, x, buf));
      SendBlock(x, buf);
      SameCursors(st, curDirty, bulkDone);
      st := st.(queue := st.queue[1..], recs := st.recs + [Block(st.names, x, buf)]);
      readDone, transferred := readDone - 1, transferred + 1;
      run := run + [st];
    }

    /** flush_blks sends the queued blocks in order up to the first non-zero answer of the rate limiter or
        the first read that failed; only the latter is an error. */
    method FlushBlks(rate: nat -> int)
      requires Valid() && Counts()
      modifies this`st, this`out, this`readDone, this`transferred, this`run, this`error
      ensures Valid() && Counts() && old(run) <= run && ValidMig(old(st))
      ensures st == AfterFlush(old(st), rate)
      ensures transferred == old(transferred) + Flushed(old(st).queue, rate, 0)
      ensures error == if FlushFails(old(st).queue, rate) then -EIO else old(error)
    {
      hide Valid, ValidMig;
      ghost var s := st;
      var k := 0;
      while st.queue != []
        invariant error == old(error)
        invariant Valid() && Counts() && old(run) <= run
        invariant k <= |s.queue| && Flushed(s.queue, rate, k) == Flushed(s.queue, rate, 0)
        invariant (forall j :: 0 <= j < k ==> !s.queue[j].failed) && st == FlushN(s, k)
        invariant transferred == old(transferred) + k
        decreases |s.queue| - k
      {
        if rate(k) != 0 {
          break;
        }
        if st.queue[0].failed {
          error := -EIO;
          break;
        }
        FlushHead();
        k := k + 1;
      }
    }

    // ---------- The dirty phase ----------

    /** No chunk before the dirty cursors is dirty. */
    ghost predicate CleanBelow()
      reads this`st, this`curDirty
    {
      forall x :: HasChunk(st.disks, x) && Below(curDirty, x) ==> x !in st.dirty
    }

    /** The walk of mig_save_device_dirty: the cursor goes on to the next dirty chunk or past the end. Where
        a chunk is marked in flight, all outstanding reads are waited for. */
    method NextDirty(d: nat, pick: nat -> nat, fails: nat -> bool, junk: seq<Byte>) returns (sector: nat)
      requires Valid() && Counts() && CleanBelow() && d < |st.disks| && |junk| == BLOCK_SIZE
      modifies this`st, this`submitted, this`readDone, this`run, this`curDirty
      ensures Valid() && Counts() && CleanBelow() && old(run) <= run
      ensures d < |curDirty| && curDirty == old(curDirty)[d := sector] && sector % CHUNK_SECTORS == 0
      ensures sector < Sectors(st.disks[d]) ==>
        var x := Key(d, sector / CHUNK_SECTORS); HasChunk(st.disks, x) && x in st.dirty && x !in st.inflight
      ensures st == old(st).(pending := st.pending, inflight := st.inflight, queue := st.queue)
      ensures |st.pending| + |st.queue| == |old(st).pending| + |old(st).queue| && old(st).queue <= st.queue
      ensures old(st).pending == [] ==> st == old(st)
    {
      hide Valid, ValidMig, Sectors;
      sector := curDirty[d];
      DirtyCursorAt(this, d);
      while sector < Sectors(st.disks[d])
        invariant Valid() && Counts() && CleanBelow() && old(run) <= run
        invariant |curDirty| == |old(curDirty)| && curDirty == old(curDirty)[d := sector] && sector % CHUNK_SECTORS == 0
        invariant st == old(st).(pending := st.pending, inflight := st.inflight, queue := st.queue)
        invariant |st.pending| + |st.queue| == |old(st).pending| + |old(st).queue| && old(st).queue <= st.queue
        invariant old(st).pending == [] ==> st == old(st)
      {
        var x := Key(d, sector / CHUNK_SECTORS);
        SectorHasChunk(st, d, sector);
        if x in st.inflight {
          assert st.pending != [] by { if st.pending == [] { NoneInflight(st); assert false; } }
          AioFlush(pick, fails, junk);
        }
        if x in st.dirty {
          return;
        }
        sector := sector + CHUNK_SECTORS;
        MoveDirtyCursor(d, sector);
      }
    }

    method MoveDirtyCursor(d: nat, sector: nat)
      requires Valid() && CleanBelow() && d < |curDirty| && sector == curDirty[d] + CHUNK_SECTORS
      requires Key(d, curDirty[d] / CHUNK_SECTORS) !in st.dirty
      modifies this`curDirty
      ensures Valid() && CleanBelow() && |curDirty| == |old(curDirty)| && curDirty == old(curDirty)[d := sector]
    {
      hide IsRunOf, EncodeRecs, ValidMig, AllTrue, HasChunk;
      CursorAt(st, curDirty, bulkDone, d);
      ghost var was := curDirty;
      curDirty := curDirty[d := sector];
      forall x | HasChunk(st.disks, x) && Below(curDirty, x) ensures x !in st.dirty {
        assert x.dev == d ==> x == Key(d, x.chunk);
      }
    }

    method SubmitDirtyRead(x: Key)
      requires Valid() && Counts() && CleanBelow() && Enabled(st, SubmitDirty(x))
      modifies this`st, this`submitted, this`run, this`issued, this`answers, this`error
      ensures Valid() && Counts() && CleanBelow() && old(run) <= run
      ensures Asked(old(answers), answers, old(error), error, true)
      ensures Refuses(old(answers)) ==> st == old(st) && issued == old(issued) && error == -EIO
      ensures !Refuses(old(answers)) ==>
        ValidMig(old(st)) && st == After(old(st), SubmitDirty(x)) && issued == old(issued) + 1
    {
      hide IsRunOf, EncodeRecs, ValidMig, AllTrue, HasChunk, Cursors;
      var answer := AskDriver();
      if answer < 0 {
        error := -EIO;
        return;
      }
      ExtendRun(run, st, SubmitDirty(x));
      SameCursors(st, curDirty, bulkDone);
      st := st.(pending := st.pending + [Item(x, None, false)], dirty := st.dirty - {x}, inflight := st.inflight + {x});
      submitted, issued := submitted + 1, issued + 1;
      run := run + [st];
    }

    /** A synchronous read and send; it overtakes whatever is left in blk_list. If the read fails, the chunk
        stays dirty and the error is the driver's. */
    method SendDirty(x: Key, junk: seq<Byte>)
      requires Valid() && Counts() && CleanBelow() && st.pending == [] && |junk| == BLOCK_SIZE
      requires HasChunk(st.disks, x) && x in st.dirty
      modifies this`st, this`out, this`run, this`answers, this`error
      ensures Valid() && Counts() && CleanBelow() && old(run) <= run
      ensures Asked(old(answers), answers, old(error), error, true)
      ensures Refuses(old(answers)) ==> st == old(st) && out == old(out) && error == old(answers)[0]
      ensures !Refuses(old(answers)) ==>
        && st == old(st).(dirty := old(st).dirty - {x}, recs := st.recs, lost := old(st).lost || old(st).queue != [])
        && exists buf :: SentIt(old(st), st, x, buf)
    {
      hide Valid, ValidMig, HasChunk, CleanBelow, SentIt;
      var answer := AskDriver();
      if answer < 0 {
        error := answer;
      } else {
        SendChunk(x, junk);
      }
    }

    /** The successful read of SendDirty. */
    method SendChunk(x: Key, junk: seq<Byte>)
      requires Valid() && Counts() && CleanBelow() && st.pending == [] && |junk| == BLOCK_SIZE
      requires HasChunk(st.disks, x) && x in st.dirty
      modifies this`st, this`out, this`run
      ensures Valid() && Counts() && CleanBelow() && old(run) <= run
      ensures st == old(st).(dirty := old(st).dirty - {x}, recs := st.recs, lost := old(st).lost || old(st).queue != [])
      ensures exists buf :: SentIt(old(st), st, x, buf)
    {
      hide IsRunOf, EncodeRecs, ValidMig, AllTrue, WellFormedRec, EncodeRec, Cursors, HasChunk;
      var c := ChunkOfKey(st, x);
      var buf := c + junk[|c|..];
      ExtendRun(run, st, SendSync(x, buf));
      BlockWellFormed(st.names, st.disks, x, buf) by { ValidDisksOf(st); }
      RecBytes(st.recs, Block(st.names, x, buf));
      SendBlock(x, buf);
      SameCursors(st, curDirty, bulkDone);
      st := st.(recs := st.recs + [Block(st.names, x, buf)], dirty := st.dirty - {x},
                lost := st.lost || st.queue != []);
      run := run + [st];
      assert SentIt(old(st), st, x, buf);
    }

    /** mig_save_device_dirty: one more dirty chunk of the device, or none is left on it. */
    method SaveDeviceDirty(d: nat, isAsync: bool, pick: nat -> nat, fails: nat -> bool, junk: seq<Byte>)
      returns (done: bool)
      requires Valid() && Counts() && CleanBelow() && d < |st.disks| && |junk| == BLOCK_SIZE
      requires !isAsync ==> st.pending == []
      modifies this`st, this`submitted, this`readDone, this`run, this`curDirty, this`issued, this`out,
               this`answers, this`error
      ensures Valid() && Counts() && CleanBelow() && old(run) <= run
      ensures d < |curDirty| && curDirty == old(curDirty)[d := curDirty[d]]
      ensures done <==> curDirty[d] >= Sectors(st.disks[d])
      ensures Asked(old(answers), answers, old(error), error, !done)
      ensures Took(old(st), st, done || Refuses(old(answers)), isAsync)
      ensures !done && !Refuses(old(answers)) ==> st.dirty == old(st).dirty - {Key(d, curDirty[d] / CHUNK_SECTORS)}
      ensures isAsync ==>
        var n := if done || Refuses(old(answers)) then 0 else 1;
        issued == old(issued) + n && |st.pending| + |st.queue| == |old(st).pending| + |old(st).queue| + n
    {
      hide Valid, ValidMig, Sectors, HasChunk, CleanBelow;
      var sector := NextDirty(d, pick, fails, junk);
      done := sector >= Sectors(st.disks[d]);
      if !done {
        var x := Key(d, sector / CHUNK_SECTORS);
        if isAsync {
          ghost var m := st;
          SubmitDirtyRead(x);
          if !Refuses(old(answers)) {
            assert QueuedRead(m, st, x);
            assert QueuedRead(old(st), st, x);
          }
        } else {
          ghost var m := st;
          SendDirty(x, junk);
          if !Refuses(old(answers)) {
            ghost var buf :| SentIt(m, st, x, buf);
            assert SentIt(old(st), st, x, buf);
          }
        }
      }
    }

    /** blk_mig_save_dirty_block: one more dirty chunk, of the first device that has one. */
    method SaveDirtyBlock(isAsync: bool, pick: nat -> nat, fails: nat -> bool, junk: seq<Byte>) returns (more: bool)
      requires Valid() && Counts() && CleanBelow() && |junk| == BLOCK_SIZE && (!isAsync ==> st.pending == [])
      modifies this`st, this`submitted, this`readDone, this`run, this`curDirty, this`issued, this`out,
               this`answers, this`error
      ensures Valid() && Counts() && CleanBelow() && old(run) <= run
      ensures Asked(old(answers), answers, old(error), error, more)
      ensures Took(old(st), st, !more || Refuses(old(answers)), isAsync)
      ensures !more ==> NoDirtyChunk(st)
      ensures more && !Refuses(old(answers)) ==> exists d: nat ::
        FirstWithDirty(st, curDirty, d) && st.dirty == old(st).dirty - {Key(d, curDirty[d] / CHUNK_SECTORS)}
      ensures isAsync ==>
        var n := if more && !Refuses(old(answers)) then 1 else 0;
        |st.pending| + |st.queue| == |old(st).pending| + |old(st).queue| + n
    {
      hide Valid, ValidMig, Sectors, HasChunk, CleanBelow, Took, Counts;
      var d := 0;
      TookNothing(st, isAsync);
      while d < |st.disks|
        invariant d <= |st.disks| && Valid() && Counts() && CleanBelow() && old(run) <= run
        invariant Took(old(st), st, true, isAsync) && |curDirty| == |st.disks|
        invariant answers == old(answers) && error == old(error)
        invariant !isAsync ==> st.pending == []
        invariant isAsync ==> |st.pending| + |st.queue| == |old(st).pending| + |old(st).queue|
        invariant forall e :: 0 <= e < d ==> curDirty[e] >= Sectors(st.disks[e])
      {
        ghost var m := st;
        var done := SaveDeviceDirty(d, isAsync, pick, fails, junk);
        TookTwice(old(st), m, st, done || Refuses(old(answers)), isAsync);
        if !done {
          assert FirstWithDirty(st, curDirty, d);
          return true;
        }
        d := d + 1;
      }
      PassedAll(this);
      return false;
    }

    /** The loop of stage 3: it ends, and leaves no dirty chunk on any device. */
    method SaveAllDirty(pick: nat -> nat, fails: nat -> bool, junk: seq<Byte>)
      requires Valid() && Counts() && CleanBelow() && |junk| == BLOCK_SIZE && st.pending == []
      modifies this`st, this`submitted, this`readDone, this`run, this`curDirty, this`issued, this`out,
               this`answers, this`error
      ensures Valid() && Counts() && old(run) <= run
      ensures NoDirtyChunk(st) && st.pending == [] && st.queue == old(st).queue
      ensures ValidMig(old(st)) && SentSince(old(st), st) && BlocksSince(old(st), st)
      ensures Answered(old(answers), answers, old(error), error)
      ensures old(st).queue == [] ==> st.lost == old(st).lost
    {
      hide Valid, ValidMig, CleanBelow, Counts, HasChunk, SentSince, BlocksSince, NoDirtyChunk, Took, Answered;
      hide FirstWithDirty;
      var more := true;
      SentNone(st);
      NoBlocks(st);
      NoneAsked(answers, error);
      while more
        invariant Valid() && Counts() && CleanBelow() && old(run) <= run
        invariant st.pending == [] && st.queue == old(st).queue && SentSince(old(st), st) && BlocksSince(old(st), st)
        invariant old(st).queue == [] ==> st.lost == old(st).lost
        invariant Answered(old(answers), answers, old(error), error)
        invariant !more ==> NoDirtyChunk(st)
        decreases |answers|, st.dirty, more
      {
        ghost var m, a, e := st, answers, error;
        more := SaveDirtyBlock(false, pick, fails, junk);
        TookSync(m, st, !more || Refuses(a));
        SentBy(old(st), m, st, !more || Refuses(a));
        AskedMore(old(answers), a, answers, old(error), e, error, more);
      }
    }

    method ResetDirtyCursor()
      requires Valid()
      modifies this`curDirty
      ensures Valid() && CleanBelow()
    {
      hide IsRunOf, EncodeRecs, ValidMig, AllTrue;
      curDirty := seq(|st.disks|, d => 0);
    }

    /** blk_mig_cleanup drops what is left in blk_list. */
    method CleanUp()
      requires Valid()
      modifies this`st, this`run
      ensures Valid() && old(run) <= run
      ensures st == Dropped(old(st))
    {
      hide IsRunOf, EncodeRecs, ValidMig, AllTrue, Cursors;
      ExtendRun(run, st, Cleanup);
      SameCursors(st, curDirty, bulkDone);
      st := st.(queue := [], lost := st.lost || st.queue != [] || st.pending != []);
      run := run + [st];
    }

    // ---------- block_save_live ----------

    /** The loop of stage 2: reads are submitted until enough data is under way for the rate limit, first
        for the bulk phase and then for dirty chunks. */
    method SubmitReads(limit: nat, progress: nat -> Option<nat>, pick: nat -> nat, fails: nat -> bool, junk: seq<Byte>)
      requires Valid() && Counts() && CleanBelow() && |junk| == BLOCK_SIZE
      requires forall k :: progress(k).Some? ==> progress(k).value <= 100
      modifies this`st, this`submitted, this`readDone, this`run, this`curDirty, this`issued, this`out,
               this`bulkDone, this`bulkCompleted, this`answers, this`error
      ensures Valid() && Counts() && old(run) <= run
      ensures Submits(old(st), st, old(bulkCompleted), bulkCompleted, progress)
      ensures Answered(old(answers), answers, old(error), error)
      ensures (issued - transferred) * BLOCK_SIZE < limit ==> bulkCompleted && NoDirtyChunk(st)
      ensures issued == old(issued) || (issued - 1 - transferred) * BLOCK_SIZE < limit
    {
      hide Valid, ValidMig, CleanBelow, AllTrue, NoDirtyChunk, Answered, FirstWithDirty, Took, Submits, Marks;
      var n := 0;
      ghost var marks := 0;
      NoneAsked(answers, error);
      NoneSubmitted(st, bulkCompleted, progress);
      while (submitted + readDone) * BLOCK_SIZE < limit
        invariant Valid() && Counts() && CleanBelow() && old(run) <= run
        invariant Submits(old(st), st, old(bulkCompleted), bulkCompleted, progress)
        invariant st.recs == old(st).recs + Marks(progress, marks) && (!bulkCompleted ==> marks == n)
        invariant issued == old(issued) || (issued - 1 - transferred) * BLOCK_SIZE < limit
        invariant Answered(old(answers), answers, old(error), error)
        decreases |answers|, limit - (submitted + readDone) * BLOCK_SIZE, !bulkCompleted
      {
        ghost var a, e, m := answers, error, st;
        if !bulkCompleted {
          var more := SaveBulkedBlock(progress(n));
          marks := n + 1;
          BulkSubmitted(old(st), m, st, old(bulkCompleted), !more, progress, n);
          AskedMore(old(answers), a, answers, old(error), e, error, more);
          if !more {
            MarkBulkCompleted();
          }
        } else {
          var more := SaveDirtyBlock(true, pick, fails, junk);
          DirtySubmitted(old(st), m, st, old(bulkCompleted), !more || Refuses(a), progress);
          AskedMore(old(answers), a, answers, old(error), e, error, more);
          if !more {
            break;
          }
        }
        n := n + 1;
      }
    }

    method MarkBulkCompleted()
      requires Valid() && AllTrue(bulkDone)
      modifies this`bulkCompleted
      ensures Valid() && bulkCompleted
    {
      hide IsRunOf, EncodeRecs, ValidMig, AllTrue, Cursors;
      bulkCompleted := true;
    }

    /** block_save_live. What was written in earlier stages is kept in balance; stage 3 delivers if and only
        if no clean chunk needs a block that the flush leaves in the queue. A read that the driver refuses
        fails the call. rate and again are the answers of the rate limiter to the two flushes; mid is the state
        after the reads of stage 2 were submitted. */
    method SaveLive(stage: int, enabled: bool, rate: nat -> int, limit: nat, progress: nat -> Option<nat>,
                    pick: nat -> nat, fails: nat -> bool, junk: seq<Byte>, quick: nat -> bool, again: nat -> int)
      returns (ret: int, ghost mid: Mig)
      requires Valid() && Counts() && error == 0 && |junk| == BLOCK_SIZE
      requires forall k :: progress(k).Some? ==> progress(k).value <= 100
      requires stage == 3 && enabled ==> bulkCompleted && st.pending == []
      modifies this
      ensures Valid() && old(run) <= run && st.disks == old(st).disks && ValidMig(old(st))
      ensures 0 <= stage < 3 && ret >= 0 ==> Counts() && error == 0 && SameDevices(old(st), st)
      ensures |answers| <= |old(answers)| && (ret < 0 ==> error == ret) && (ret >= 0 ==> error == 0)
      ensures stage < 0 ==> ret == 0 && st == Dropped(old(st))
      ensures stage >= 0 && !enabled ==> ret == 1 && st == old(st).(recs := old(st).recs + [End])
      ensures stage >= 0 && ret >= 0 ==> Ended(st)
      ensures stage >= 0 && enabled && FlushFails(old(st).queue, rate) ==>
        ret == -EIO && st == Dropped(AfterFlush(old(st), rate))
      ensures stage == 2 && enabled && !FlushFails(old(st).queue, rate) ==>
        && SubmitsStage(AfterFlush(old(st), rate), mid, st, old(bulkCompleted), bulkCompleted, again, ret,
                        AllGood(Used(old(answers), answers)), progress)
        && UnderWay(mid, issued - old(transferred) - Flushed(old(st).queue, rate, 0), limit, bulkCompleted)
        && NoMore(issued - old(transferred) - Flushed(old(st).queue, rate, 0), issued - old(issued), limit)
      ensures 0 <= stage && enabled && ret >= 0 ==> ret == if stage == 2 && CanFinish(st, bulkCompleted, quick) then 1
          else 0
      ensures 0 <= stage < 2 && enabled && ret >= 0 ==>
        var n := AfterFlush(old(st), rate); st == n.(recs := n.recs + [End])
      ensures 0 <= stage && stage != 2 && enabled ==>
        (ret < 0 <==> FlushFails(old(st).queue, rate) || !AllGood(Used(old(answers), answers)))
      ensures stage == 3 && enabled && ret >= 0 ==> NoDirtyChunk(st) && st.pending == [] && st.queue == []
      ensures stage == 3 && enabled && ret >= 0 ==> EndsWith(AfterFlush(old(st), rate), st, [Progress(100), End])
      ensures stage == 3 && enabled && ret >= 0 && !old(st).lost ==>
        (Delivered(st, out) <==> QueueNotNeeded(AfterFlush(old(st), rate)))
    {
      hide Valid, ValidMig, CleanBelow, AllTrue, Counts, NoDirtyChunk, Delivered, QueueNotNeeded, FlushFails, Flushed,
           AfterFlush, Submits, SubmitsStage, UnderWay, NoMore, CanFinish, EndsWith;
      NoneAsked(answers, error);
      mid := st;
      if stage < 0 {
        CleanUp();
        return 0, mid;
      }
      if !enabled {
        PutMark(End);
        return 1, mid;
      }
      FlushBlks(rate);
      if error != 0 {
        CleanUp();
        return error, mid;
      }
      ResetDirtyCursor();
      if stage == 3 {
        FinalStage(pick, fails, junk);
        return error, mid;
      }
      ret, mid := EarlyStage(stage == 2, again, limit, progress, pick, fails, junk, quick);
    }

    /** Stages 1 and 2, once the queue was flushed. */
    method EarlyStage(submit: bool, rate: nat -> int, limit: nat, progress: nat -> Option<nat>,
                      pick: nat -> nat, fails: nat -> bool, junk: seq<Byte>, quick: nat -> bool)
      returns (ret: int, ghost mid: Mig)
      requires Valid() && Counts() && CleanBelow() && error == 0 && |junk| == BLOCK_SIZE
      requires forall k :: progress(k).Some? ==> progress(k).value <= 100
      modifies this
      ensures Valid() && old(run) <= run && st.disks == old(st).disks
      ensures ret >= 0 ==> Counts() && error == 0 && SameDevices(old(st), st) && Ended(st)
      ensures |answers| <= |old(answers)| && (ret < 0 ==> error == ret)
      ensures submit ==>
        && SubmitsStage(old(st), mid, st, old(bulkCompleted), bulkCompleted, rate, ret,
                        AllGood(Used(old(answers), answers)), progress)
        && UnderWay(mid, issued - old(transferred), limit, bulkCompleted)
        && NoMore(issued - old(transferred), issued - old(issued), limit)
      ensures ret >= 0 ==> ret == if submit && CanFinish(st, bulkCompleted, quick) then 1 else 0
      ensures !submit ==> ret == 0 && answers == old(answers) && st == old(st).(recs := old(st).recs + [End])
    {
      hide Valid, ValidMig, CleanBelow, AllTrue, Counts, NoDirtyChunk, FlushFails, Flushed;
      NoneAsked(answers, error);
      mid := st;
      if submit {
        SubmitReads(limit, progress, pick, fails, junk);
        mid := st;
        FlushBlks(rate);
        if error != 0 {
          CleanUp();
          return error, mid;
        }
      }
      PutMark(End);
      var remaining := |st.dirty|;
      ret := if submit && bulkCompleted && (remaining == 0 || quick(remaining)) then 1 else 0;
    }

    /** Stage 3, once the queue was flushed. After an error the section is left without its end. */
    method FinalStage(pick: nat -> nat, fails: nat -> bool, junk: seq<Byte>)
      requires Valid() && Counts() && CleanBelow() && |junk| == BLOCK_SIZE && st.pending == [] && bulkCompleted
      modifies this`st, this`submitted, this`readDone, this`run, this`curDirty, this`issued, this`out,
               this`answers, this`error
      ensures Valid() && old(run) <= run && st.disks == old(st).disks
      ensures NoDirtyChunk(st) && st.pending == [] && st.queue == [] && ValidMig(old(st)) && (error == 0 ==> Ended(st))
      ensures EndsWith(old(st), st, if error == 0 then [Progress(100), End] else [Progress(100)])
      ensures Answered(old(answers), answers, old(error), error)
      ensures error == 0 && !old(st).lost ==> (Delivered(st, out) <==> QueueNotNeeded(old(st)))
    {
      hide Valid, ValidMig, CleanBelow, AllTrue, Counts, HasChunk, Delivered, QueueNotNeeded, AllCurrent, SentSince,
           EndsWith, BlocksSince;
      ghost var s := st;
      assert IsRunOf(run, s) && AllCovered(s) by { BulkCovered(this); }
      ghost var before := run;
      SaveAllDirty(pick, fails, junk);
      ghost var n := st;
      assert n.disks == s.disks by { SinceSameDisks(s, n); }
      CleanUp();
      PutMark(Progress(100));
      if error == 0 {
        PutMark(End);
        FinalExact(before, s, n, this);
        assert [Progress(100)] + [End] == [Progress(100), End];
      }
      Tail(s, n, st, if error == 0 then [Progress(100), End] else [Progress(100)]);
    }

    /** The guest runs between two calls of block_save_live. */
    method Guest(disks: seq<seq<Byte>>, dirty: set<Key>)
      requires Valid() && Counts() && GuestMay(st, disks, dirty)
      modifies this`st, this`run
      ensures Valid() && Counts() && old(run) <= run && st == old(st).(disks := disks, dirty := dirty)
    {
      hide IsRunOf, EncodeRecs, ValidMig, AllTrue;
      ExtendRun(run, st, BlkProtocol.Guest(disks, dirty));
      st := st.(disks := disks, dirty := dirty);
      run := run + [st];
    }
  }

  predicate MayPick(pending: seq<Item>, i: nat) { i < |pending| && InOrder(pending, i) }

  ghost function Keys(items: seq<Item>): (keys: seq<Key>)
    ensures |keys| == |items|
  {
    seq(|items|, i requires 0 <= i < |items| => items[i].key)
  }

  /** Read i has moved from the outstanding ones to the end of blk_list, with the chunk's present contents if
      it had none yet and does not fail. */
  ghost predicate Completed(s: Mig, n: Mig, i: nat, fails: bool) {
    && i < |s.pending| && n.pending == Remove(s.pending, i) && n.inflight == s.inflight - {s.pending[i].key}
    && n == s.(pending := n.pending, inflight := n.inflight, queue := n.queue)
    && |n.queue| == |s.queue| + 1 && s.queue <= n.queue
    && var it := n.queue[|s.queue|];
       && it.key == s.pending[i].key && it.failed == fails
       && (s.pending[i].data.Some? ==> it.data == s.pending[i].data)
       && (!fails && s.pending[i].data.None? ==>
             it.data.Some? && it.key.dev < |s.disks| && Holds(it.data.value, s.disks[it.key.dev], it.key.chunk))
  }

  lemma CompletedKeys(s: Mig, n: Mig, i: nat, fails: bool)
    requires Completed(s, n, i, fails)
    ensures n == s.(pending := n.pending, inflight := n.inflight, queue := n.queue)
    ensures |n.pending| == |s.pending| - 1 && |n.queue| == |s.queue| + 1 && s.queue <= n.queue
    ensures n.queue[|s.queue|].failed == fails
    ensures multiset(Keys(n.queue)) + multiset(Keys(n.pending)) == multiset(Keys(s.queue)) + multiset(Keys(s.pending))
  {
    hide Holds;
    var x := s.pending[i].key;
    assert Keys(n.queue) == Keys(s.queue) + [x];
    assert Keys(s.pending) == Keys(s.pending[..i]) + ([x] + Keys(s.pending[i + 1..]));
    assert Keys(n.pending) == Keys(s.pending[..i]) + Keys(s.pending[i + 1..]);
  }

  lemma RemoveUpdated(items: seq<Item>, i: nat, it: Item)
    requires i < |items|
    ensures Remove(items[i := it], i) == Remove(items, i)
  {}

  lemma NoKeys(items: seq<Item>)
    requires items == []
    ensures Keys(items) == []
  {}

  ghost predicate AllCovered(s: Mig) { forall x :: HasChunk(s.disks, x) ==> Covered(s, x) }

  lemma BulkCovered(b: BlockSender)
    requires b.Valid() && b.bulkCompleted
    ensures IsRunOf(b.run, b.st) && AllCovered(b.st)
  {
    hide IsRunOf, EncodeRecs, ValidMig, Covered, Sectors;
    forall x | HasChunk(b.st.disks, x) ensures Covered(b.st, x) {
      CursorAt(b.st, b.curDirty, b.bulkDone, x.dev);
      CoveredAtEnd(b.st, x);
    }
  }

  lemma SinceSameDisks(m: Mig, n: Mig)
    requires ValidMig(m) && ValidMig(n) && SentSince(m, n)
    ensures n.disks == m.disks && n.names == m.names
  {}

  /** The exact condition of the last stage, from the state after the flush to the bytes written. */
  lemma FinalExact(run: seq<Mig>, s: Mig, n: Mig, b: BlockSender)
    requires IsRunOf(run, s) && AllCovered(s) && s.pending == []
    requires ValidMig(n) && SentSince(s, n) && NoDirtyChunk(n)
    requires b.Valid() && b.st.names == n.names && b.st.disks == n.disks
    requires b.st.recs == n.recs + [Progress(100)] + [End]
    ensures !s.lost ==> (Delivered(b.st, b.out) <==> QueueNotNeeded(s))
  {
    hide IsRunOf, ValidMig, EncodeRecs, HasChunk, Delivered, QueueNotNeeded, AllCurrent, SentSince, Covered,
         OwnBlocks, WellFormedRecs;
    if !s.lost {
      LastStageExact(run, s, n);
      var n1 := n.(recs := n.recs + [Progress(100)]);
      assert ValidMig(n1) by { StepKeepsValid(n, Put(Progress(100))); }
      MarksKeepCurrent(n, n1, Progress(100));
      MarksKeepCurrent(n1, b.st, End);
      RunOwnsBlocks(b.run, b.st);
      DeliveredExactly(b.st);
    }
  }

  lemma Starts(names: seq<seq<Byte>>, disks: seq<seq<Byte>>)
    requires ValidDisks(names, disks)
    ensures var s := Mig(names, disks, {}, seq(|disks|, d => 0), {}, [], [], [], false);
      && Begun(s) && IsRunOf([s], s) && EncodeRecs([]) == []
      && Cursors(s, seq(|disks|, d => 0), seq(|disks|, d => false))
  {
    forall d | 0 <= d < |disks| ensures Sectors(disks[d]) > 0 {
      assert GoodDisk(names[d], disks[d]);
    }
  }

  /** The same devices, and no block was lost in between. */
  ghost predicate SameDevices(s: Mig, n: Mig) { n.names == s.names && n.disks == s.disks && n.lost == s.lost }

  /** Stage 2 from the first flush to its end: reads are submitted up to mid, the queue is flushed again, and
      the section is ended, unless the flush meets a failed read or the driver refused one. */
  ghost predicate SubmitsStage(s: Mig, mid: Mig, n: Mig, wasBulk: bool, isBulk: bool, rate: nat -> int, ret: int,
                               good: bool, progress: nat -> Option<nat>) {
    && Submits(s, mid, wasBulk, isBulk, progress) && ValidMig(mid)
    && (ret < 0 <==> FlushFails(mid.queue, rate) || !good)
    && var m := AfterFlush(mid, rate);
       n == if ret < 0 then Dropped(m) else m.(recs := m.recs + [End])
  }

  /** What blk_mig_cleanup leaves. */
  ghost function Dropped(s: Mig): Mig { s.(queue := [], lost := s.lost || s.queue != [] || s.pending != []) }

  /** Enough reads are under way for the limit, or there is nothing left to read. */
  ghost predicate UnderWay(s: Mig, n: int, limit: nat, bulk: bool) {
    n * BLOCK_SIZE >= limit || (bulk && NoDirtyChunk(s))
  }

  /** And not one read more than that. */
  ghost predicate NoMore(n: int, submitted: int, limit: nat) {
    submitted == 0 || (n - 1) * BLOCK_SIZE < limit
  }

  /** is_stage2_completed: the bulk phase is over, and what is left to send is nothing or quick to send. */
  ghost predicate CanFinish(s: Mig, bulk: bool, quick: nat -> bool) {
    bulk && (s.dirty == {} || quick(|s.dirty|))
  }

  /** The walk over the devices has stopped at device d, past the end of all in front of it. */
  ghost predicate FirstWithDirty(s: Mig, curDirty: seq<nat>, d: nat) {
    && d < |curDirty| == |s.disks| && curDirty[d] < Sectors(s.disks[d])
    && forall e :: 0 <= e < d ==> curDirty[e] >= Sectors(s.disks[e])
  }

  /** The first k progress marks of the bulk phase. */
  ghost function Marks(progress: nat -> Option<nat>, k: nat): seq<Rec> {
    if k == 0 then [] else Marks(progress, k - 1) + ProgressMark(progress(k - 1))
  }

  ghost function ProgressMark(p: Option<nat>): seq<Rec> { if p.Some? then [Progress(p.value)] else [] }

  /** What submitting reads does: nothing is sent but progress marks, and until the bulk phase is completed no
      chunk is marked as in flight and no read is waited for. */
  ghost predicate Submits(s: Mig, n: Mig, wasBulk: bool, isBulk: bool, progress: nat -> Option<nat>) {
    && SameDevices(s, n) && n.dirty <= s.dirty && s.queue <= n.queue && s.recs <= n.recs
    && (exists k: nat :: n.recs == s.recs + Marks(progress, k))
    && (!isBulk ==> n.inflight == s.inflight && n.queue == s.queue && s.pending <= n.pending)
    && (wasBulk ==> isBulk && n.cursor == s.cursor && n.recs == s.recs)
  }

  lemma NoneSubmitted(s: Mig, isBulk: bool, progress: nat -> Option<nat>)
    ensures Submits(s, s, isBulk, isBulk, progress) && s.recs == s.recs + Marks(progress, 0)
  {
    assert s.recs == s.recs + Marks(progress, 0);
  }

  /** One more read of the bulk phase. */
  lemma BulkSubmitted(s: Mig, m: Mig, n: Mig, wasBulk: bool, isBulk: bool, progress: nat -> Option<nat>, k: nat)
    requires Submits(s, m, wasBulk, false, progress) && m.recs == s.recs + Marks(progress, k)
    requires n == m.(pending := n.pending, dirty := n.dirty, cursor := n.cursor, recs := n.recs)
    requires n.dirty <= m.dirty && n.recs == m.recs + ProgressMark(progress(k)) && (isBulk || m.pending <= n.pending)
    ensures Submits(s, n, wasBulk, isBulk, progress) && n.recs == s.recs + Marks(progress, k + 1)
  {
    assert n.recs == s.recs + Marks(progress, k + 1);
  }

  /** One more read of a dirty chunk. */
  lemma DirtySubmitted(s: Mig, m: Mig, n: Mig, wasBulk: bool, done: bool, progress: nat -> Option<nat>)
    requires Submits(s, m, wasBulk, true, progress) && Took(m, n, done, true)
    ensures Submits(s, n, wasBulk, true, progress) && n.recs == m.recs
  {
    hide Marks, QueuedRead;
  }

  ghost predicate NoDirtyChunk(s: Mig) { forall x :: HasChunk(s.disks, x) ==> x !in s.dirty }

  lemma TookNothing(s: Mig, isAsync: bool) ensures Took(s, s, true, isAsync) {}

  /** One block was written for each chunk that is no longer dirty. */
  ghost predicate BlocksSince(s: Mig, n: Mig) {
    && s.recs <= n.recs && (forall i :: |s.recs| <= i < |n.recs| ==> n.recs[i].DeviceBlock?)
    && |n.recs| + |n.dirty| == |s.recs| + |s.dirty|
  }

  lemma NoBlocks(s: Mig) ensures BlocksSince(s, s) {}

  /** The same, with some records behind the blocks. */
  ghost predicate EndsWith(s: Mig, n: Mig, tail: seq<Rec>) {
    var k := |n.recs| - |tail|; k >= 0 && n.recs[k..] == tail && BlocksSince(s, n.(recs := n.recs[..k]))
  }

  lemma Tail(s: Mig, n: Mig, after: Mig, tail: seq<Rec>)
    requires BlocksSince(s, n) && after.dirty == n.dirty && after.recs == n.recs + tail
    ensures EndsWith(s, after, tail)
  {
    assert after.recs[..|n.recs|] == n.recs;
  }

  lemma SentBy(s: Mig, m: Mig, n: Mig, done: bool)
    requires ValidMig(s) && ValidMig(m) && ValidMig(n) && SentSince(s, m) && Took(m, n, done, false)
    ensures SentSince(s, n) && (BlocksSince(s, m) ==> BlocksSince(s, n))
  {
    hide ValidMig, HasChunk, LastBlock, Holds;
    if done {
      assert forall x :: HasChunk(s.disks, x) ==> (CurrentBlock(n, x) <==> CurrentBlock(m, x));
    } else {
      hide SentSince;
      var x, buf :| SentIt(m, n, x, buf);
      SentOneMore(s, m, n, x, buf);
    }
  }

  lemma TookSync(m: Mig, n: Mig, done: bool)
    requires Took(m, n, done, false)
    ensures n.pending == m.pending && n.queue == m.queue && (m.queue == [] ==> n.lost == m.lost)
    ensures if done then n.dirty == m.dirty else n.dirty < m.dirty
  {}

  lemma TookTwice(s: Mig, m: Mig, n: Mig, done: bool, isAsync: bool)
    requires Took(s, m, true, isAsync) && Took(m, n, done, isAsync)
    ensures Took(s, n, done, isAsync) && |n.disks| == |m.disks| && n.disks == m.disks
    ensures m.dirty == s.dirty && (!isAsync ==> n.pending == m.pending)
  {
    if !done && !isAsync {
      var x, buf :| SentIt(m, n, x, buf);
      assert SentIt(s, n, x, buf);
    }
    if !done && isAsync {
      var x :| QueuedRead(m, n, x);
      assert QueuedRead(s, n, x);
    }
  }

  lemma PassedAll(b: BlockSender)
    requires b.Valid() && b.CleanBelow() && |b.curDirty| == |b.st.disks|
    requires forall e :: 0 <= e < |b.st.disks| ==> b.curDirty[e] >= Sectors(b.st.disks[e])
    ensures NoDirtyChunk(b.st)
  {
    hide IsRunOf, EncodeRecs, AllTrue, ValidMig;
    forall x | HasChunk(b.st.disks, x) ensures x !in b.st.dirty {
      DiskAt(b.st, x.dev);
      assert b.curDirty[x.dev] >= Sectors(b.st.disks[x.dev]);
    }
  }

  /** What a call of mig_save_device_dirty does to the state: unless it found no dirty chunk, one chunk is
      clean that was dirty. A synchronous call leaves blk_list alone. */
  ghost predicate Took(s: Mig, n: Mig, done: bool, isAsync: bool) {
    && n.names == s.names && n.disks == s.disks && n.cursor == s.cursor
    && (done ==> n.dirty == s.dirty && n.recs == s.recs)
    && (!done ==> exists x :: x in s.dirty && n.dirty == s.dirty - {x})
    && (isAsync ==> n.recs == s.recs && n.lost == s.lost && s.queue <= n.queue)
    && (isAsync && !done ==> exists x :: QueuedRead(s, n, x))
    && (!isAsync && !done ==> exists x, buf :: SentIt(s, n, x, buf))
    && (!isAsync ==> n.pending == s.pending && n.queue == s.queue && n.lost == (s.lost || (!done && s.queue != [])))
  }

  /** A read of dirty chunk x was submitted last and marked as in flight, and the chunk is clean now. */
  ghost predicate QueuedRead(s: Mig, n: Mig, x: Key) {
    && x in s.dirty && n.dirty == s.dirty - {x} && x in n.inflight
    && n.pending != [] && n.pending[|n.pending| - 1] == Item(x, None, false)
  }

  /** The present contents of dirty chunk x were written, and it is clean now. */
  ghost predicate SentIt(s: Mig, n: Mig, x: Key, buf: seq<Byte>) {
    && x in s.dirty && HasChunk(s.disks, x) && x.dev < |s.names| && Holds(buf, s.disks[x.dev], x.chunk)
    && n.dirty == s.dirty - {x} && n.recs == s.recs + [Block(s.names, x, buf)]
  }

  function ChunkOfKey(s: Mig, x: Key): (c: seq<Byte>)
    requires HasChunk(s.disks, x) && ValidMig(s)
    ensures x.dev < |s.names| == |s.disks| && |c| <= BLOCK_SIZE
    ensures forall buf: seq<Byte> :: |buf| == BLOCK_SIZE && buf[..|c|] == c ==> Holds(buf, s.disks[x.dev], x.chunk)
  {
    ChunkOf(s.disks[x.dev], x.chunk)
  }

  lemma DirtyCursorAt(b: BlockSender, d: nat)
    requires b.Valid() && d < |b.st.disks|
    ensures d < |b.curDirty| && b.curDirty[d] % CHUNK_SECTORS == 0
  {
    CursorAt(b.st, b.curDirty, b.bulkDone, d);
  }

  lemma SectorHasChunk(s: Mig, d: nat, sector: nat)
    requires ValidMig(s) && d < |s.disks| && sector < Sectors(s.disks[d]) && sector % CHUNK_SECTORS == 0
    ensures HasChunk(s.disks, Key(d, sector / CHUNK_SECTORS))
  {
    DiskAt(s, d);
  }

  /** The flush meets a failed read before the rate limiter stops it. */
  predicate FlushFails(queue: seq<Item>, rate: nat -> int) {
    var k := Flushed(queue, rate, 0); k < |queue| && rate(k) == 0
  }

  lemma ValidDisksOf(s: Mig)
    requires ValidMig(s)
    ensures ValidDisks(s.names, s.disks)
  {}

  lemma SameCursors(s: Mig, curDirty: seq<nat>, bulkDone: seq<bool>)
    requires Cursors(s, curDirty, bulkDone)
    ensures forall n: Mig :: n.disks == s.disks && n.cursor == s.cursor ==> Cursors(n, curDirty, bulkDone)
  {}

  lemma RecBytes(recs: seq<Rec>, rec: Rec)
    requires WellFormedRecs(recs) && WellFormedRec(rec)
    ensures WellFormedRecs(recs + [rec]) && EncodeRecs(recs + [rec]) == EncodeRecs(recs) + EncodeRec(rec)
  {
    OneMoreRec(Dest([], []), recs, rec);
  }

  lemma NoneInflight(s: Mig)
    requires ValidMig(s) && s.pending == []
    ensures s.inflight == {}
  {}

  lemma CursorAt(s: Mig, curDirty: seq<nat>, bulkDone: seq<bool>, d: nat)
    requires Cursors(s, curDirty, bulkDone) && d < |s.disks|
    ensures |s.cursor| == |curDirty| == |bulkDone| == |s.disks|
    ensures curDirty[d] % CHUNK_SECTORS == 0 && (bulkDone[d] <==> s.cursor[d] == Sectors(s.disks[d]))
  {}

  lemma CursorMoves(s: Mig, curDirty: seq<nat>, bulkDone: seq<bool>, d: nat, c: nat)
    requires Cursors(s, curDirty, bulkDone) && d < |s.disks| && c <= Sectors(s.disks[d])
    ensures forall n: Mig :: n.disks == s.disks && n.cursor == s.cursor[d := c] ==>
      Cursors(n, curDirty, bulkDone[d := c >= Sectors(s.disks[d])])
  {}

  /** A device whose bulk phase is not done has a chunk to read at its cursor. */
  lemma SubmitsBulk(s: Mig, d: nat)
    requires ValidMig(s) && d < |s.disks| && s.cursor[d] != Sectors(s.disks[d])
    ensures Enabled(s, SubmitBulk(d)) && s.cursor[d] < Sectors(s.disks[d])
    ensures var sector := s.cursor[d] / CHUNK_SECTORS * CHUNK_SECTORS;
      var x := Key(d, sector / CHUNK_SECTORS);
      var total := Sectors(s.disks[d]);
      var n := if total - sector < CHUNK_SECTORS then total - sector else CHUNK_SECTORS;
      && sector + n <= total
      && After(s, SubmitBulk(d)) ==
           s.(pending := s.pending + [Item(x, None, false)], dirty := s.dirty - {x},
              cursor := s.cursor[d := sector + n])
  {
    hide ValidDisks, GoodItems, Done, Waiting, Marked, WellFormedRecs;
    BulkCovers(s, d);
  }

  lemma PendingChunk(s: Mig, i: nat)
    requires ValidMig(s) && i < |s.pending|
    ensures HasChunk(s.disks, s.pending[i].key)
  {
    assert GoodItem(s.disks, s.pending[i]);
  }
}
