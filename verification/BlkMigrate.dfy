/** A whole block migration: block_save_live of vmm/block-migration.c called for stage 1, for any number of
    stage 2 rounds between which the guest runs and reads complete, and for stage 3 after a last run of the
    guest. */
module BlkMigrate {
  import opened Common
  import opened RamStream
  import opened BlkStream
  import opened BlkProtocol
  import opened BlkDelivery
  import opened BlkSave
  import opened Answers

  /** What the surroundings do around one call: how many reads complete before it and in which order, what
      the rate limiter answers to each flush, the progress to report and the downtime allowed. */
  datatype Round = Round(completions: nat, pick: nat -> nat, fails: nat -> bool, rate: nat -> int, limit: nat,
                         progress: nat -> Option<nat>, quick: nat -> bool, again: nat -> int)

  ghost predicate GoodRound(r: Round) { forall k :: r.progress(k).Some? ==> r.progress(k).value <= 100 }

  type Disks = seq<seq<Byte>>

  /** A guest that sets the dirty bit of every chunk it changes, and clears none. */
  ghost predicate GuestBehaves(writes: (nat, Disks) -> Disks, marks: (nat, Mig) -> set<Key>) {
    forall k, s: Mig :: GuestMay(s, writes(k, s.disks), marks(k, s))
  }

  /** The guest's disks after it has run n times. */
  function GuestDisks(writes: (nat, Disks) -> Disks, disks: Disks, n: nat): Disks {
    if n == 0 then disks else writes(n - 1, GuestDisks(writes, disks, n - 1))
  }

  // ---------- Sections ----------

  /** The number of sections that were ended. */
  ghost function Sections(recs: seq<Rec>): nat {
    if recs == [] then 0 else Sections(recs[..|recs| - 1]) + if recs[|recs| - 1].End? then 1 else 0
  }

  lemma {:induction false} NoSections(a: seq<Rec>, b: seq<Rec>)
    requires a <= b && forall i :: |a| <= i < |b| ==> !b[i].End?
    ensures Sections(b) == Sections(a)
    decreases |b|
  {
    if |b| > |a| {
      NoSections(a, b[..|b| - 1]);
    } else {
      assert a == b;
    }
  }

  lemma OneSection(recs: seq<Rec>)
    ensures Sections(recs + [End]) == Sections(recs) + 1
  {
    assert (recs + [End])[..|recs|] == recs;
  }

  lemma {:induction false} FlushSections(s: Mig, k: nat)
    requires ValidMig(s) && k <= |s.queue| && forall j :: 0 <= j < k ==> !s.queue[j].failed
    ensures Sections(FlushN(s, k).recs) == Sections(s.recs)
  {
    hide ValidMig;
    if k > 0 {
      FlushSections(s, k - 1);
      var m := FlushN(s, k - 1);
      NoSections(m.recs, FlushN(s, k).recs);
    }
  }

  lemma {:induction false} MarkSections(progress: nat -> Option<nat>, k: nat)
    ensures forall i :: 0 <= i < |Marks(progress, k)| ==> !Marks(progress, k)[i].End?
  {
    if k > 0 {
      MarkSections(progress, k - 1);
    }
  }

  /** Stage 1 and stage 2 end one section each. */
  lemma StageSections(s: Mig, mid: Mig, n: Mig, was: bool, now: bool, rate: nat -> int, ret: int, good: bool,
                      progress: nat -> Option<nat>)
    requires ret >= 0 && SubmitsStage(s, mid, n, was, now, rate, ret, good, progress)
    ensures Sections(n.recs) == Sections(s.recs) + 1
  {
    hide ValidMig, Sections, FlushN, Flushed;
    var k: nat :| mid.recs == s.recs + Marks(progress, k);
    MarkSections(progress, k);
    NoSections(s.recs, mid.recs);
    FlushSections(mid, Flushed(mid.queue, rate, 0));
    OneSection(AfterFlush(mid, rate).recs);
  }

  lemma FlushedSections(s: Mig, rate: nat -> int)
    requires ValidMig(s)
    ensures Sections(AfterFlush(s, rate).recs) == Sections(s.recs)
  {
    hide ValidMig, Sections, FlushN;
    FlushSections(s, Flushed(s.queue, rate, 0));
  }

  lemma LastSection(s: Mig, n: Mig)
    requires EndsWith(s, n, [Progress(100), End])
    ensures Sections(n.recs) == Sections(s.recs) + 1
  {
    hide Sections;
    var k := |n.recs| - 2;
    NoSections(s.recs, n.recs[..k]);
    var m := n.recs[..k] + [Progress(100)];
    NoSections(n.recs[..k], m);
    OneSection(m);
    assert n.recs == m + [End];
  }

  /** Nothing is left to drop once the queue is empty. */
  lemma EmptyQueueSafe(s: Mig, rate: nat -> int)
    requires ValidMig(s) && !FlushFails(s.queue, rate) && forall k :: 0 <= k < |s.queue| ==> rate(k) == 0
    ensures QueueNotNeeded(AfterFlush(s, rate))
  {
    hide ValidMig, HasChunk, CurrentBlock;
    var n := AfterFlush(s, rate);
    assert n.queue == [];
  }

  /** If the migration comes to an end, and the rate limiter does not stop the last flush, every
      destination with the devices loads the stream into the guest's contents. It comes to an end unless
      an error is reported or stage 2 has not become short enough. There is a section for each stage, and the
      guest runs after each of them but the last. */
  method Migrate(names: seq<seq<Byte>>, disks: Disks, writes: (nat, Disks) -> Disks, marks: (nat, Mig) -> set<Key>,
                 first: Round, rounds: seq<Round>, last: Round, junk: seq<Byte>, answers: seq<int>)
    returns (b: BlockSender, done: bool, calls: nat)
    requires ValidDisks(names, disks) && GuestBehaves(writes, marks) && |junk| == BLOCK_SIZE
    requires GoodRound(first) && GoodRound(last) && forall k :: 0 <= k < |rounds| ==> GoodRound(rounds[k])
    ensures fresh(b) && b.Valid() && calls <= |rounds|
    ensures done ==> NoDirtyChunk(b.st) && Ended(b.st)
    ensures done ==> b.st.disks == GuestDisks(writes, disks, calls + 1) && Sections(b.st.recs) == calls + 2
    ensures done && (forall k :: last.rate(k) == 0) ==> Delivered(b.st, b.out)
    ensures !done && b.error >= 0 && |rounds| > 0 ==>
      calls == |rounds| && !CanFinish(b.st, b.bulkCompleted, rounds[|rounds| - 1].quick)
  {
    hide BlockSender.Valid, BlockSender.Counts, ValidMig, GuestMay, Flushed, FlushFails, QueueNotNeeded, Delivered,
         NoDirtyChunk, Sections, SubmitsStage, EndsWith, AfterFlush, CanFinish, UnderWay, NoMore;
    b := new BlockSender(names, disks, answers);
    done, calls := false, 0;
    assert Sections(b.st.recs) == 0 by { NothingYet(b.st); }
    var ret := Round1(b, first, junk);
    while calls < |rounds| && ret == 0
      invariant fresh(b) && b.Valid() && calls <= |rounds|
      invariant ret >= 0 ==> b.Counts() && b.error == 0 && !b.st.lost
      invariant ret > 0 ==> b.bulkCompleted
      invariant ret >= 0 ==> b.st.disks == GuestDisks(writes, disks, calls) && Sections(b.st.recs) == calls + 1
      invariant ret < 0 ==> b.error < 0
      invariant ret == 0 && calls > 0 ==> !CanFinish(b.st, b.bulkCompleted, rounds[calls - 1].quick)
      decreases |rounds| - calls
    {
      b.Guest(writes(calls, b.st.disks), marks(calls, b.st));
      ret := Round2(b, rounds[calls], junk);
      calls := calls + 1;
    }
    if ret <= 0 {
      return;
    }
    b.Guest(writes(calls, b.st.disks), marks(calls, b.st));
    done := Round3(b, last, junk);
  }

  lemma NothingYet(s: Mig)
    requires Begun(s)
    ensures Sections(s.recs) == 0
  {}

  /** Stage 1. */
  method Round1(b: BlockSender, r: Round, junk: seq<Byte>) returns (ret: int)
    requires b.Valid() && b.Counts() && b.error == 0 && |junk| == BLOCK_SIZE && GoodRound(r) && !b.st.lost
    modifies b
    ensures b.Valid() && ret <= 0 && (ret < 0 ==> b.error < 0)
    ensures ret >= 0 ==>
      && b.Counts() && b.error == 0 && SameDevices(old(b.st), b.st)
      && Sections(b.st.recs) == Sections(old(b.st).recs) + 1
  {
    hide BlockSender.Valid, BlockSender.Counts, ValidMig, Flushed, FlushFails, QueueNotNeeded, Delivered, NoDirtyChunk,
         Sections, SubmitsStage, EndsWith, AfterFlush, CanFinish, UnderWay, NoMore;
    ghost var s := b.st;
    ghost var mid;
    ret, mid := b.SaveLive(1, true, r.rate, r.limit, r.progress, r.pick, r.fails, junk, r.quick, r.again);
    if ret >= 0 {
      FlushedSections(s, r.rate);
      OneSection(AfterFlush(s, r.rate).recs);
    }
  }

  /** Completions and a stage 2 call. */
  method Round2(b: BlockSender, r: Round, junk: seq<Byte>) returns (ret: int)
    requires b.Valid() && b.Counts() && b.error == 0 && |junk| == BLOCK_SIZE && GoodRound(r) && !b.st.lost
    modifies b
    ensures b.Valid() && (ret < 0 ==> b.error < 0)
    ensures ret >= 0 ==>
      && b.Counts() && b.error == 0 && SameDevices(old(b.st), b.st)
      && Sections(b.st.recs) == Sections(old(b.st).recs) + 1
      && ret == if CanFinish(b.st, b.bulkCompleted, r.quick) then 1 else 0
    ensures ret > 0 ==> b.bulkCompleted
  {
    hide BlockSender.Valid, BlockSender.Counts, ValidMig, Flushed, FlushFails, QueueNotNeeded, Delivered, NoDirtyChunk,
         Sections, SubmitsStage, EndsWith, AfterFlush, UnderWay, NoMore;
    b.CompleteSome(r.completions, r.pick, r.fails, junk);
    ghost var s, was, a := b.st, b.bulkCompleted, b.answers;
    ghost var mid;
    ret, mid := b.SaveLive(2, true, r.rate, r.limit, r.progress, r.pick, r.fails, junk, r.quick, r.again);
    if ret >= 0 {
      FlushedSections(s, r.rate);
      StageSections(AfterFlush(s, r.rate), mid, b.st, was, b.bulkCompleted, r.again, ret,
                    AllGood(Used(a, b.answers)), r.progress);
    }
  }

  /** The wait for outstanding reads, and stage 3. */
  method Round3(b: BlockSender, r: Round, junk: seq<Byte>) returns (done: bool)
    requires b.Valid() && b.Counts() && b.error == 0 && |junk| == BLOCK_SIZE && GoodRound(r) && !b.st.lost
    requires b.bulkCompleted
    modifies b
    ensures b.Valid() && b.st.disks == old(b.st).disks && (done <==> b.error >= 0)
    ensures done ==> NoDirtyChunk(b.st) && Ended(b.st) && Sections(b.st.recs) == Sections(old(b.st).recs) + 1
    ensures done && (forall k :: r.rate(k) == 0) ==> Delivered(b.st, b.out)
  {
    hide BlockSender.Valid, BlockSender.Counts, ValidMig, Flushed, FlushFails, QueueNotNeeded, Delivered, NoDirtyChunk,
         Sections, SubmitsStage, EndsWith, AfterFlush, CanFinish, UnderWay, NoMore;
    b.AioFlush(r.pick, r.fails, junk);
    ghost var s := b.st;
    var ret;
    ghost var mid;
    ret, mid := b.SaveLive(3, true, r.rate, r.limit, r.progress, r.pick, r.fails, junk, r.quick, r.again);
    done := ret >= 0;
    if done {
      FlushedSections(s, r.rate);
      LastSection(AfterFlush(s, r.rate), b.st);
      if forall k :: r.rate(k) == 0 {
        EmptyQueueSafe(s, r.rate);
      }
    }
  }
}
