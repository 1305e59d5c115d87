/** When exactly a block stream brings every destination to the sender's contents: a statement about the
    last block that was written for each chunk. */
module BlkDelivery {
  import opened Common
  import opened RamStream
  import opened BlkStream
  import opened BlkLoad
  import opened BlkProtocol

  ghost predicate IsBlockOf(names: seq<seq<Byte>>, rec: Rec, x: Key) {
    x.dev < |names| && rec.DeviceBlock? && rec == Block(names, x, rec.buf)
  }

  /** The contents that were written last for chunk x. */
  ghost function LastBlock(names: seq<seq<Byte>>, recs: seq<Rec>, x: Key): (buf: Option<seq<Byte>>)
    requires WellFormedRecs(recs)
    ensures buf.Some? ==> |buf.value| == BLOCK_SIZE
  {
    if recs == [] then None
    else if IsBlockOf(names, recs[|recs| - 1], x) then
      assert WellFormedRec(recs[|recs| - 1]);
      Some(recs[|recs| - 1].buf)
    else LastBlock(names, recs[..|recs| - 1], x)
  }

  /** The last block written for chunk x holds its present contents. */
  ghost predicate CurrentBlock(s: Mig, x: Key)
    requires ValidMig(s) && HasChunk(s.disks, x)
  {
    var b := LastBlock(s.names, s.recs, x); b.Some? && Holds(b.value, s.disks[x.dev], x.chunk)
  }

  ghost predicate OwnBlock(names: seq<seq<Byte>>, disks: seq<seq<Byte>>, rec: Rec) {
    rec.DeviceBlock? ==> exists x :: HasChunk(disks, x) && IsBlockOf(names, rec, x)
  }

  /** Only chunks of the sender's devices were written. */
  ghost predicate OwnBlocks(s: Mig) { forall i :: 0 <= i < |s.recs| ==> OwnBlock(s.names, s.disks, s.recs[i]) }

  lemma OneMoreBlock(names: seq<seq<Byte>>, recs: seq<Rec>, rec: Rec, x: Key)
    requires WellFormedRecs(recs) && WellFormedRec(rec)
    ensures WellFormedRecs(recs + [rec])
    ensures LastBlock(names, recs + [rec], x) == if IsBlockOf(names, rec, x) then Some(rec.buf)
        else LastBlock(names, recs, x)
  {
    hide WellFormedRec;
    assert (recs + [rec])[..|recs|] == recs;
  }

  /** A block is of one chunk only. */
  lemma BlockOfOne(s: Mig, rec: Rec, x: Key, y: Key)
    requires ValidMig(s) && HasChunk(s.disks, x) && HasChunk(s.disks, y) && IsBlockOf(s.names, rec, x)
    requires IsBlockOf(s.names, rec, y)
    ensures x == y
  {
    hide ValidMig;
    if x.dev != y.dev {
      NamesDiffer(s, x.dev, y.dev);
    }
    assert CHUNK_SECTORS * x.chunk == CHUNK_SECTORS * y.chunk;
  }

  lemma NamesDiffer(s: Mig, d: nat, e: nat)
    requires ValidMig(s) && d < |s.names| && e < |s.names| && d != e
    ensures s.names[d] != s.names[e]
  {
    hide GoodCursor, GoodItems, Done, Waiting, Marked, WellFormedRecs;
    var i, j := if d < e then d else e, if d < e then e else d;
    assert s.names[i] != s.names[j];
  }

  // ---------- Replaying ----------

  /** Chunk y of the destination's copy. */
  ghost function DestChunk(s: Mig, r: Dest, y: Key): (c: seq<Byte>)
    requires Knows(s.names, s.disks, r) && HasChunk(s.disks, y)
  {
    ChunkOf(r.disks[CopyOf(s, r, y.dev)], y.chunk)
  }

  ghost function Expected(s: Mig, r0: Dest, recs: seq<Rec>, y: Key): seq<Byte>
    requires WellFormedRecs(recs) && Knows(s.names, s.disks, r0) && HasChunk(s.disks, y)
  {
    var b := LastBlock(s.names, recs, y);
    if b.None? then DestChunk(s, r0, y) else b.value[..|ChunkOf(s.disks[y.dev], y.chunk)|]
  }

  /** Replaying blocks of the sender's chunks always works, and leaves in each chunk what was written for
      it last. */
  lemma {:induction false} Replay(s: Mig, r0: Dest, recs: seq<Rec>, y: Key)
    requires ValidMig(s) && ValidDest(r0) && Knows(s.names, s.disks, r0) && HasChunk(s.disks, y)
    requires WellFormedRecs(recs) && forall i :: 0 <= i < |recs| ==> OwnBlock(s.names, s.disks, recs[i])
    ensures var n := ApplyRecs(r0, recs);
      && n.Some? && Knows(s.names, s.disks, n.value)
      && DestChunk(s, n.value, y) == Expected(s, r0, recs, y)
    decreases |recs|
  {
    hide ValidMig, Knows, HasChunk, ApplyRecs, ApplyRec, LastBlock, WellFormedRecs, WellFormedRec, OwnBlock, CopyOf,
         ChunkOf, Stored;
    if recs == [] {
      NoRecs(r0);
      assert LastBlock(s.names, recs, y).None? by { NoLastBlock(s.names, y); }
    } else {
      var k := |recs| - 1;
      var before, rec := recs[..k], recs[k];
      assert recs == before + [rec];
      RecsPrefix(recs, k);
      assert WellFormedRec(rec) by { RecAt(recs, k); }
      Replay(s, r0, before, y);
      OneMoreRec(r0, before, rec);
      OneMoreBlock(s.names, before, rec, y);
      ReplayOne(s, r0, before, rec, y);
    }
  }

  lemma NoLastBlock(names: seq<seq<Byte>>, y: Key)
    ensures WellFormedRecs([]) && LastBlock(names, [], y).None?
  {}

  lemma RecAt(recs: seq<Rec>, k: nat)
    requires WellFormedRecs(recs) && k < |recs|
    ensures WellFormedRec(recs[k])
  {}

  lemma ReplayOne(s: Mig, r0: Dest, before: seq<Rec>, rec: Rec, y: Key)
    requires ValidMig(s) && ValidDest(r0) && Knows(s.names, s.disks, r0) && HasChunk(s.disks, y)
    requires WellFormedRecs(before) && WellFormedRec(rec) && OwnBlock(s.names, s.disks, rec)
    requires var m := ApplyRecs(r0, before);
      m.Some? && Knows(s.names, s.disks, m.value) && DestChunk(s, m.value, y) == Expected(s, r0, before, y)
    ensures var n := ApplyRec(ApplyRecs(r0, before).value, rec);
      && n.Some? && Knows(s.names, s.disks, n.value)
      && DestChunk(s, n.value, y) ==
           if IsBlockOf(s.names, rec, y) then rec.buf[..|ChunkOf(s.disks[y.dev], y.chunk)|]
               else Expected(s, r0, before, y)
  {
    hide ValidMig, Knows, HasChunk, ApplyRecs, LastBlock, WellFormedRecs, CopyOf, ChunkOf, Stored, Find, WriteChunk;
    var r := ApplyRecs(r0, before).value;
    if rec.DeviceBlock? {
      var x :| HasChunk(s.disks, x) && IsBlockOf(s.names, rec, x);
      ApplyBlock(s, r, x, rec.buf);
      StoredKnows(s, r, x, rec.buf, y.dev) by { HasDev(s, y); }
      StoredChunk(s, r, x, rec.buf, y);
      if IsBlockOf(s.names, rec, y) {
        BlockOfOne(s, rec, x, y);
      }
    }
  }

  // ---------- The theorem ----------

  /** Every destination that has the sender's devices loads the stream and then has their contents. */
  ghost predicate Delivered(s: Mig, out: seq<Byte>) {
    forall r0 :: ValidDest(r0) && Knows(s.names, s.disks, r0) ==>
      var n := LoadStream(out, r0); n.Some? && SameDisks(s, n.value)
  }

  ghost predicate AllCurrent(s: Mig)
    requires ValidMig(s)
  {
    forall x :: HasChunk(s.disks, x) ==> CurrentBlock(s, x)
  }

  ghost predicate Ended(s: Mig) { s.recs != [] && s.recs[|s.recs| - 1].End? }

  lemma CurrentMeansSame(s: Mig, r0: Dest, y: Key)
    requires ValidMig(s) && OwnBlocks(s) && ValidDest(r0) && Knows(s.names, s.disks, r0) && HasChunk(s.disks, y)
    requires CurrentBlock(s, y)
    ensures var n := ApplyRecs(r0, s.recs); n.Some? && Knows(s.names, s.disks, n.value) && SameChunk(s, n.value, y)
  {
    hide ValidMig, Knows, HasChunk, ApplyRecs, LastBlock, WellFormedRecs, CopyOf, OwnBlock, ChunkOf;
    Replay(s, r0, s.recs, y);
  }

  lemma AllCurrentDelivers(s: Mig, r0: Dest)
    requires ValidMig(s) && OwnBlocks(s) && AllCurrent(s) && ValidDest(r0) && Knows(s.names, s.disks, r0)
    ensures var n := ApplyRecs(r0, s.recs); n.Some? && SameDisks(s, n.value)
  {
    hide ValidMig, Knows, HasChunk, ApplyRecs, LastBlock, WellFormedRecs, CopyOf, OwnBlocks, SameChunk, CurrentBlock;
    ReplayWorks(s, r0);
    var r := ApplyRecs(r0, s.recs).value;
    forall d | 0 <= d < |s.disks| ensures r.disks[CopyOf(s, r, d)] == s.disks[d] {
      forall j | 0 <= BLOCK_SIZE * j < |s.disks[d]| ensures HasChunk(s.disks, Key(d, j)) && SameChunk(s, r, Key(d, j)) {
        assert HasChunk(s.disks, Key(d, j)) by { ChunkKey(s.disks, d, j); }
        CurrentMeansSame(s, r0, Key(d, j));
      }
      SameDevice(s, r, d);
    }
  }

  lemma ChunkKey(disks: seq<seq<Byte>>, d: nat, j: nat)
    requires d < |disks|
    ensures HasChunk(disks, Key(d, j)) <==> BLOCK_SIZE * j < |disks[d]|
  {}

  lemma {:induction false} ReplayKnows(s: Mig, r0: Dest, recs: seq<Rec>)
    requires ValidMig(s) && ValidDest(r0) && Knows(s.names, s.disks, r0)
    requires WellFormedRecs(recs) && forall i :: 0 <= i < |recs| ==> OwnBlock(s.names, s.disks, recs[i])
    ensures var n := ApplyRecs(r0, recs); n.Some? && Knows(s.names, s.disks, n.value)
    decreases |recs|
  {
    hide ValidMig, Knows, HasChunk, ApplyRecs, WellFormedRecs, Stored, Find, WriteChunk;
    if recs == [] {
      NoRecs(r0);
    } else {
      var k := |recs| - 1;
      var before, rec := recs[..k], recs[k];
      assert recs == before + [rec];
      RecsPrefix(recs, k);
      RecAt(recs, k);
      ReplayKnows(s, r0, before);
      OneMoreRec(r0, before, rec);
      var r := ApplyRecs(r0, before).value;
      if rec.DeviceBlock? {
        var x :| HasChunk(s.disks, x) && IsBlockOf(s.names, rec, x);
        ApplyBlock(s, r, x, rec.buf);
        StoredKnows(s, r, x, rec.buf, x.dev) by { HasDev(s, x); }
      }
    }
  }

  lemma ReplayWorks(s: Mig, r0: Dest)
    requires ValidMig(s) && OwnBlocks(s) && ValidDest(r0) && Knows(s.names, s.disks, r0)
    ensures var n := ApplyRecs(r0, s.recs); n.Some? && Knows(s.names, s.disks, n.value)
  {
    hide ValidMig, Knows, ApplyRecs, WellFormedRecs, OwnBlock;
    ReplayKnows(s, r0, s.recs);
  }

  lemma SameDevice(s: Mig, r: Dest, d: nat)
    requires Knows(s.names, s.disks, r) && d < |s.disks|
    requires forall j :: 0 <= BLOCK_SIZE * j < |s.disks[d]| ==>
      HasChunk(s.disks, Key(d, j)) && SameChunk(s, r, Key(d, j))
    ensures r.disks[CopyOf(s, r, d)] == s.disks[d]
  {
    hide Knows, CopyOf, ChunkOf;
    var a, b := r.disks[CopyOf(s, r, d)], s.disks[d];
    var k := (|b| + BLOCK_SIZE - 1) / BLOCK_SIZE;
    forall j | 0 <= j < k && BLOCK_SIZE * j < |a| ensures ChunkOf(a, j) == ChunkOf(b, j) {
      assert SameChunk(s, r, Key(d, j));
    }
    SameUpTo(a, b, k);
    assert a[..|a|] == a && b[..|b|] == b;
  }

  // ---------- The other direction ----------

  lemma {:induction false} FindUnique(ids: seq<seq<Byte>>, i: nat)
    requires i < |ids| && forall j :: 0 <= j < i ==> ids[j] != ids[i]
    ensures Find(ids, ids[i]) == Some(i)
    decreases |ids|
  {
    if i > 0 {
      assert ids[0] != ids[i];
      assert forall j :: 0 <= j < |ids| - 1 ==> ids[1..][j] == ids[j + 1];
      FindUnique(ids[1..], i - 1);
    }
  }

  /** A destination with the sender's devices in the same order. */
  lemma KnowsSameNames(s: Mig, disks: seq<seq<Byte>>)
    requires ValidMig(s) && SameSizes(s.disks, disks)
    ensures var r := Dest(s.names, disks);
      ValidDest(r) && Knows(s.names, s.disks, r) && forall d :: 0 <= d < |disks| ==> CopyOf(s, r, d) == d
  {
    hide ValidMig, Find;
    var r := Dest(s.names, disks);
    forall d | 0 <= d < |disks| ensures Find(s.names, s.names[d]) == Some(d) && HasCopy(s.names[d], |s.disks[d]|, r) {
      forall j | 0 <= j < d ensures s.names[j] != s.names[d] {
        NamesDiffer(s, j, d);
      }
      FindUnique(s.names, d);
    }
  }

  function Flip(b: Byte): Byte { if b == 0 then 1 else 0 }

  /** The sender's disks with one byte of chunk x changed. */
  ghost function OtherDisks(disks: seq<seq<Byte>>, x: Key): (o: seq<seq<Byte>>)
    requires HasChunk(disks, x)
    ensures SameSizes(disks, o)
  {
    var k, disk := BLOCK_SIZE * x.chunk, disks[x.dev];
    var other: seq<Byte> := disk[k := Flip(disk[k])];
    disks[x.dev := other]
  }

  lemma OtherChunk(disks: seq<seq<Byte>>, x: Key)
    requires HasChunk(disks, x)
    ensures ChunkOf(OtherDisks(disks, x)[x.dev], x.chunk) != ChunkOf(disks[x.dev], x.chunk)
  {
    assert ChunkOf(OtherDisks(disks, x)[x.dev], x.chunk)[0] != ChunkOf(disks[x.dev], x.chunk)[0];
  }

  /** If the last block of a chunk is missing or stale, some destination shows it. */
  lemma StaleShows(s: Mig, x: Key) returns (r0: Dest)
    requires ValidMig(s) && OwnBlocks(s) && HasChunk(s.disks, x) && !CurrentBlock(s, x)
    ensures ValidDest(r0) && Knows(s.names, s.disks, r0)
    ensures var n := ApplyRecs(r0, s.recs);
      n.Some? && Knows(s.names, s.disks, n.value) && !SameChunk(s, n.value, x) && !SameDisks(s, n.value)
  {
    hide ValidMig, Knows, ApplyRecs, LastBlock, WellFormedRecs, CopyOf, OwnBlock, ChunkOf, OtherDisks;
    var other := OtherDisks(s.disks, x);
    KnowsSameNames(s, other);
    r0 := Dest(s.names, other);
    OtherChunk(s.disks, x);
    Replay(s, r0, s.recs, x);
    var n := ApplyRecs(r0, s.recs).value;
    assert !SameChunk(s, n, x);
    assert n.disks[CopyOf(s, n, x.dev)] != s.disks[x.dev];
  }

  /** The stream delivers if and only if the last block written for every chunk holds its present
      contents. */
  lemma DeliveredExactly(s: Mig)
    requires ValidMig(s) && OwnBlocks(s) && Ended(s)
    ensures Delivered(s, EncodeRecs(s.recs)) <==> AllCurrent(s)
  {
    hide ValidMig, Knows, HasChunk, ApplyRecs, EncodeRecs, LoadStream, SameDisks, CurrentBlock, OwnBlocks,
         WellFormedRecs;
    if AllCurrent(s) {
      forall r0 | ValidDest(r0) && Knows(s.names, s.disks, r0)
        ensures var n := LoadStream(EncodeRecs(s.recs), r0); n.Some? && SameDisks(s, n.value)
      {
        LoadEncodedStream(s.recs, r0);
        AllCurrentDelivers(s, r0);
      }
    } else {
      var x :| HasChunk(s.disks, x) && !CurrentBlock(s, x);
      var r0 := StaleShows(s, x);
      LoadEncodedStream(s.recs, r0);
    }
  }

  // ---------- Runs write blocks of the sender's chunks only ----------

  lemma OwnMore(s: Mig, n: Mig, x: Key, buf: seq<Byte>)
    requires OwnBlocks(s) && HasChunk(s.disks, x) && x.dev < |s.names| && n.names == s.names && n.disks == s.disks
    requires n.recs == s.recs + [Block(s.names, x, buf)]
    ensures OwnBlocks(n)
  {
    hide HasChunk;
    var rec := Block(s.names, x, buf);
    assert IsBlockOf(s.names, rec, x);
    forall i | 0 <= i < |n.recs| ensures OwnBlock(n.names, n.disks, n.recs[i]) {
      assert i < |s.recs| ==> OwnBlock(s.names, s.disks, s.recs[i]);
    }
  }

  lemma OwnGuest(s: Mig, disks: seq<seq<Byte>>, dirty: set<Key>)
    requires OwnBlocks(s) && GuestMay(s, disks, dirty)
    ensures OwnBlocks(s.(disks := disks, dirty := dirty))
  {
    forall i | 0 <= i < |s.recs| ensures OwnBlock(s.names, disks, s.recs[i]) {
      assert OwnBlock(s.names, s.disks, s.recs[i]);
      if s.recs[i].DeviceBlock? {
        var x :| HasChunk(s.disks, x) && IsBlockOf(s.names, s.recs[i], x);
        assert HasChunk(disks, x);
      }
    }
  }

  lemma StepKeepsOwn(s: Mig, e: Event)
    requires ValidMig(s) && Possible(s, e) && OwnBlocks(s)
    ensures OwnBlocks(After(s, e))
  {
    hide ValidMig, HasChunk, OwnBlock, GuestMay, Holds, WellFormedRec;
    match e {
      case Guest(disks, dirty) => OwnGuest(s, disks, dirty);
      case Flush =>
        QueueHead(s);
        OwnMore(s, After(s, e), s.queue[0].key, s.queue[0].data.value);
      case SendSync(x, buf) =>
        InRange(s, x);
        OwnMore(s, After(s, e), x, buf);
      case Put(rec) =>
        assert OwnBlock(s.names, s.disks, rec) by { NotABlock(s, rec); }
      case SubmitBulk(_) =>
      case SubmitDirty(_) =>
      case Sample(_, _) =>
      case Complete(_, _) =>
      case Cleanup =>
    }
  }

  lemma NotABlock(s: Mig, rec: Rec)
    requires !rec.DeviceBlock?
    ensures OwnBlock(s.names, s.disks, rec)
  {}

  lemma {:induction false} RunOwnsBlocks(run: seq<Mig>, s: Mig)
    requires IsRunOf(run, s)
    ensures OwnBlocks(s)
    decreases |run|
  {
    hide ValidMig, OwnBlocks, InOrder, Possible;
    var n := |run| - 1;
    if n == 0 {
      assert OwnBlocks(s) by { NothingWritten(s); }
    } else {
      var before := run[..n];
      assert before[|before| - 1] == run[n - 1] && Step(run[n - 1], run[n - 1 + 1]);
      assert IsRunOf(before, run[n - 1]);
      RunOwnsBlocks(before, run[n - 1]);
      var e :| Enabled(run[n - 1], e) && s == After(run[n - 1], e);
      StepKeepsOwn(run[n - 1], e);
    }
  }

  lemma NothingWritten(s: Mig)
    requires s.recs == []
    ensures OwnBlocks(s)
  {}

  // ---------- The last stage ----------

  /** How many queued blocks flush_blks sends, from the i-th on: it stops at the end of the queue, at the
      first non-zero answer of the rate limiter, and at the first read that failed. */
  function Flushed(queue: seq<Item>, rate: nat -> int, i: nat): (k: nat)
    requires i <= |queue|
    ensures i <= k <= |queue|
    ensures forall j :: i <= j < k ==> rate(j) == 0 && !queue[j].failed
    ensures k < |queue| ==> rate(k) != 0 || queue[k].failed
    decreases |queue| - i
  {
    if i == |queue| || rate(i) != 0 || queue[i].failed then i else Flushed(queue, rate, i + 1)
  }

  /** Nothing is left in the queue exactly when the answers for its blocks are all 0 and no read failed. */
  lemma FlushedAll(queue: seq<Item>, rate: nat -> int)
    ensures Flushed(queue, rate, 0) == |queue| <==> forall j :: 0 <= j < |queue| ==> rate(j) == 0 && !queue[j].failed
  {}

  /** The state after k blocks of the queue were sent. */
  ghost function FlushN(s: Mig, k: nat): (n: Mig)
    requires ValidMig(s) && k <= |s.queue| && forall j :: 0 <= j < k ==> !s.queue[j].failed
    ensures ValidMig(n) && n == s.(queue := s.queue[k..], recs := n.recs)
  {
    if k == 0 then s
    else
      var m := FlushN(s, k - 1);
      assert m.queue[0] == s.queue[k - 1];
      FlushKeepsValid(m);
      After(m, Flush)
  }

  /** The state after flush_blks. */
  ghost function AfterFlush(s: Mig, rate: nat -> int): (n: Mig)
    requires ValidMig(s)
    ensures ValidMig(n) && n == s.(queue := s.queue[Flushed(s.queue, rate, 0)..], recs := n.recs)
  {
    FlushN(s, Flushed(s.queue, rate, 0))
  }

  /** A clean chunk that the bulk phase has passed and that has no read under way was sent, and is
      current in the stream. */
  lemma CleanIsCurrent(run: seq<Mig>, s: Mig, x: Key)
    requires IsRunOf(run, s) && !s.lost && HasChunk(s.disks, x) && Covered(s, x) && x !in s.dirty
    requires NewestOf(s, x).None?
    ensures CurrentBlock(s, x)
  {
    hide IsRunOf, ValidMig, Knows, HasChunk, ApplyRecs, OwnBlocks, CurrentBlock, SameChunk, SameDisks, Covered;
    RunOwnsBlocks(run, s);
    if !CurrentBlock(s, x) {
      var r0 := StaleShows(s, x);
      EveryRunInStep(run, s, r0);
      CurrentIn(s, ApplyRecs(r0, s.recs).value, x);
      assert false;
    }
  }

  lemma CurrentIn(s: Mig, r: Dest, x: Key)
    requires InStep(s, r) && !s.lost && HasChunk(s.disks, x) && Covered(s, x) && x !in s.dirty && NewestOf(s, x).None?
    ensures SameChunk(s, r, x)
  {
    assert Current(s, r, x);
  }

  /** From m to n dirty chunks were read and sent, one after the other. */
  ghost predicate SentSince(m: Mig, n: Mig)
    requires ValidMig(m) && ValidMig(n)
  {
    && n.names == m.names && n.disks == m.disks && n.dirty <= m.dirty
    && forall x :: HasChunk(m.disks, x) ==>
         && (x in m.dirty && x !in n.dirty ==> CurrentBlock(n, x))
         && (x !in m.dirty ==> LastBlock(n.names, n.recs, x) == LastBlock(m.names, m.recs, x))
  }

  lemma SentNone(m: Mig)
    requires ValidMig(m)
    ensures SentSince(m, m)
  {}

  lemma SentOneMore(m: Mig, n: Mig, n': Mig, x: Key, buf: seq<Byte>)
    requires ValidMig(m) && ValidMig(n) && ValidMig(n') && SentSince(m, n)
    requires HasChunk(n.disks, x) && x in n.dirty && Holds(buf, n.disks[x.dev], x.chunk) && x.dev < |n.names|
    requires n'.names == n.names && n'.disks == n.disks && n'.dirty == n.dirty - {x}
    requires n'.recs == n.recs + [Block(n.names, x, buf)]
    ensures SentSince(m, n')
  {
    hide ValidMig, HasChunk, LastBlock, Holds, WellFormedRecs;
    var rec := Block(n.names, x, buf);
    BlockWellFormed(n.names, n.disks, x, buf) by { DisksOf(n); HoldsLength(n, x, buf); }
    forall y | HasChunk(m.disks, y)
      ensures y in m.dirty && y !in n'.dirty ==> CurrentBlock(n', y)
      ensures y !in m.dirty ==> LastBlock(n'.names, n'.recs, y) == LastBlock(m.names, m.recs, y)
    {
      OneMoreBlock(n.names, n.recs, rec, y);
      if IsBlockOf(n.names, rec, y) {
        BlockOfOne(n, rec, x, y);
      } else {
        assert y != x;
      }
    }
  }

  lemma DisksOf(s: Mig)
    requires ValidMig(s)
    ensures ValidDisks(s.names, s.disks)
  {}

  /** No clean chunk needs a block that is still queued. */
  ghost predicate QueueNotNeeded(m: Mig)
    requires ValidMig(m)
  {
    forall x :: HasChunk(m.disks, x) && x !in m.dirty && Newest(m.queue, x).Some? ==> CurrentBlock(m, x)
  }

  /** After the last stage everything is current if and only if no clean chunk needed a block that was
      dropped. */
  lemma LastStageExact(run: seq<Mig>, m: Mig, n: Mig)
    requires IsRunOf(run, m) && !m.lost && m.pending == [] && forall x :: HasChunk(m.disks, x) ==> Covered(m, x)
    requires ValidMig(n) && SentSince(m, n) && forall x :: HasChunk(n.disks, x) ==> x !in n.dirty
    ensures AllCurrent(n) <==> QueueNotNeeded(m)
  {
    hide IsRunOf, ValidMig, HasChunk, LastBlock, Holds, WellFormedRecs, Covered;
    forall x | HasChunk(m.disks, x) && x !in m.dirty ensures CurrentBlock(n, x) <==> CurrentBlock(m, x) {}
    forall x | HasChunk(m.disks, x) && x !in m.dirty && Newest(m.queue, x).None? ensures CurrentBlock(m, x) {
      CleanIsCurrent(run, m, x);
    }
  }

  /** Records that are no blocks change nothing about what is current. */
  lemma MarksKeepCurrent(n: Mig, n': Mig, rec: Rec)
    requires ValidMig(n) && ValidMig(n') && WellFormedRec(rec) && !rec.DeviceBlock?
    requires n'.names == n.names && n'.disks == n.disks && n'.recs == n.recs + [rec]
    ensures AllCurrent(n') <==> AllCurrent(n)
  {
    hide ValidMig, HasChunk, LastBlock, Holds, WellFormedRecs;
    forall x | HasChunk(n.disks, x) ensures CurrentBlock(n', x) <==> CurrentBlock(n, x) {
      OneMoreBlock(n.names, n.recs, rec, x);
    }
  }
}
