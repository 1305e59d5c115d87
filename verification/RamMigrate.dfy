/** A whole RAM migration: ram_save_live of vmm/arch_init.c called for stage 1, for any number of stage 2
    rounds between which the guest runs, and for stage 3 after a last run of the guest. */
module RamMigrate {
  import opened RamStream
  import opened RamPages
  import opened RamMigration
  import opened RamSave
  import Bits

  /** Around one call: whether the dirty bitmap can be fetched, what the rate limiter answers, and which
      number of pages fits the allowed downtime. */
  datatype Round = Round(sync: bool, rate: nat -> int, quick: nat -> bool)

  type Ram = seq<seq<Byte>>

  /** A guest that sets the dirty bit of every page it changes, and clears none. */
  ghost predicate GuestBehaves(blocks: seq<Block>, writes: (nat, Ram) -> Ram, marks: (nat, Ram, set<nat>) -> set<nat>) {
    forall k, s: Sender :: ValidSender(s) && s.blocks == blocks ==>
      GuestRuns(s, s.(mem := writes(k, s.mem), dirty := marks(k, s.mem, s.dirty)))
  }

  /** The guest's RAM after it has run n times. */
  function GuestRam(writes: (nat, Ram) -> Ram, mem: Ram, n: nat): Ram {
    if n == 0 then mem else writes(n - 1, GuestRam(writes, mem, n - 1))
  }

  /** The dirty bitmap can be fetched and the stream reports no error. */
  ghost predicate Calm(r: Round) { r.sync && forall k :: r.rate(k) >= 0 }

  /** If nothing fails the migration comes to an end, and if it does every destination that knows the blocks,
      and no other, loads the stream, and then it has the guest's RAM. There is a section for each stage, and
      the guest runs after each of them but the last. */
  method Migrate(blocks: seq<Block>, mem: Ram, dirty: set<nat>, writes: (nat, Ram) -> Ram,
                 marks: (nat, Ram, set<nat>) -> set<nat>, first: Round, rounds: seq<Round>, last: Round)
    returns (m: RamSender, done: bool, calls: nat)
    requires ValidBlocks(blocks) && FitsBlocks(blocks, mem) && Total(Entries(blocks)) <= Bits.ULONG_MAX
    requires GuestBehaves(blocks, writes, marks)
    ensures Calm(first) && Calm(last) && (forall k :: 0 <= k < |rounds| ==> Calm(rounds[k])) ==> done
    ensures fresh(m) && m.blocks == blocks && calls <= |rounds|
    ensures done ==> m.Valid() && NoneDirty(m.blocks, m.dirty) && Delivered(m.Value(), m.out)
    ensures done ==> m.mem == GuestRam(writes, mem, calls + 1) && Sections(m.recs) == calls + 2
  {
    hide ValidBlocks, FitsBlocks, Total, Entries, NoneDirty, Delivered, GuestRuns, RamSender.Valid, RamSender.Ready,
         DirtyPages, Sections;
    m := new RamSender(blocks, mem, dirty);
    done, calls := false, 0;
    var ret := m.SaveLive(1, first.sync, first.rate, first.quick);
    if ret < 0 {
      return;
    }
    while calls < |rounds| && ret == 0
      invariant calls <= |rounds|
      invariant Calm(first) && (forall j :: 0 <= j < calls ==> Calm(rounds[j])) ==> ret >= 0
      invariant fresh(m) && m.blocks == blocks && (ret >= 0 ==> m.Valid() && m.Counted())
      invariant ret >= 0 ==> m.mem == GuestRam(writes, mem, calls) && Sections(m.recs) == calls + 1
      decreases |rounds| - calls
    {
      var r := rounds[calls];
      assert ValidSender(m.Value()) by { SenderValid(m); }
      m.Guest(writes(calls, m.mem), marks(calls, m.mem, m.dirty));
      ret := m.SaveLive(2, r.sync, r.rate, r.quick);
      calls := calls + 1;
    }
    if ret < 0 {
      return;
    }
    assert ValidSender(m.Value()) by { SenderValid(m); }
    m.Guest(writes(calls, m.mem), marks(calls, m.mem, m.dirty));
    ret := m.SaveLive(3, last.sync, last.rate, last.quick);
    done := ret >= 0;
  }

  lemma SenderValid(m: RamSender)
    requires m.Valid()
    ensures ValidSender(m.Value())
  {}
}
