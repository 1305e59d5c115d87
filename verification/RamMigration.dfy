/** Live migration of RAM as a protocol: the sender of vmm/arch_init.c interleaved with a running guest,
    and the destination that loads what was sent. */
module RamMigration {
  import opened Common
  import opened Buffers
  import opened RamStream
  import opened RamPages
  import opened RamLoad
  import Bits

  /** The sender: guest RAM, the migration dirty bits by page address, last_block and last_offset, and
      the records written so far. */
  datatype Sender = Sender(blocks: seq<Block>, mem: seq<seq<Byte>>, dirty: set<nat>, last: Option<Cursor>,
                           recs: seq<Record>)

  ghost predicate FitsBlocks(bs: seq<Block>, mem: seq<seq<Byte>>) {
    |mem| == |bs| && forall b :: 0 <= b < |bs| ==> |mem[b]| == bs[b].length
  }

  ghost predicate ValidSender(s: Sender) {
    && ValidBlocks(s.blocks)
    && FitsBlocks(s.blocks, s.mem)
    && (s.last.Some? ==> ValidCursor(s.blocks, s.last.value))
    && WellFormedAll(s.recs)
  }

  function PageOf(mem: seq<seq<Byte>>, block: nat, offset: nat): (p: seq<Byte>)
    requires block < |mem| && offset + PAGE_SIZE <= |mem[block]|
    ensures |p| == PAGE_SIZE
  {
    mem[block][offset..offset + PAGE_SIZE]
  }

  lemma CursorFits(bs: seq<Block>, mem: seq<seq<Byte>>, c: Cursor)
    requires ValidBlocks(bs) && FitsBlocks(bs, mem) && ValidCursor(bs, c)
    ensures c.block < |mem| && c.offset + PAGE_SIZE <= |mem[c.block]| == bs[c.block].length <= Bits.ULONG_MAX
  {
    assert GoodBlock(bs[c.block]);
  }

  ghost function SourcePage(s: Sender, c: Cursor): (p: seq<Byte>)
    requires ValidSender(s) && ValidCursor(s.blocks, c)
    ensures |p| == PAGE_SIZE
  {
    CursorFits(s.blocks, s.mem, c);
    PageOf(s.mem, c.block, c.offset)
  }

  /** The record that ram_save_block writes for a page. */
  ghost function PageRecord(s: Sender, c: Cursor): (rec: Record)
    requires ValidSender(s) && ValidCursor(s.blocks, c)
  {
    var id := if s.last.Some? && s.last.value.block == c.block then None else Some(s.blocks[c.block].id);
    var data := SourcePage(s, c);
    if data == Filled(data[0]) then Fill(c.offset, id, data[0]) else Page(c.offset, id, data)
  }

  /** A page whose bytes are all the same goes out as that byte, and the id is left out exactly when the
      page before was of the same block. */
  lemma PageRecordForm(s: Sender, c: Cursor)
    requires ValidSender(s) && ValidCursor(s.blocks, c)
    ensures var rec, data := PageRecord(s, c), SourcePage(s, c);
      && (rec.Fill? || rec.Page?) && rec.offset == c.offset
      && (rec.Fill? <==> forall k :: 0 <= k < PAGE_SIZE ==> data[k] == data[PAGE_SIZE - 1])
      && (rec.Fill? ==> rec.ch == data[PAGE_SIZE - 1]) && (rec.Page? ==> rec.data == data)
      && (rec.id == None <==> s.last.Some? && s.last.value.block == c.block)
      && (rec.id.Some? ==> rec.id.value == s.blocks[c.block].id)
  {
    hide ValidSender, ValidCursor, SourcePage;
  }

  lemma PageRecordWellFormed(s: Sender, c: Cursor)
    requires ValidSender(s) && ValidCursor(s.blocks, c)
    ensures WellFormed(PageRecord(s, c)) && !PageRecord(s, c).Eos?
  {
    CursorFits(s.blocks, s.mem, c);
    assert GoodBlock(s.blocks[c.block]);
  }

  // ---------- Steps ----------

  ghost function ScanStart(s: Sender): (k: nat)
    requires ValidSender(s)
    ensures k < Pages(s.blocks)
  {
    FirstPage(s.blocks);
    if s.last.None? then 0 else IndexBelow(s.blocks, s.last.value); Index(s.blocks, s.last.value)
  }

  /** ram_save_block sends the i-th page on its way around, the first that is dirty. */
  ghost predicate Sends(s: Sender, n: Sender, i: nat)
    requires ValidSender(s)
  {
    && i < Pages(s.blocks)
    && DirtyAt(s.blocks, s.dirty, Around(s.blocks, ScanStart(s), i))
    && (forall e :: 0 <= e < i ==> !DirtyAt(s.blocks, s.dirty, Around(s.blocks, ScanStart(s), e)))
    && var c := PageAt(s.blocks, Around(s.blocks, ScanStart(s), i));
       n == s.(dirty := s.dirty - {Addr(s.blocks, c)}, last := Some(c), recs := s.recs + [PageRecord(s, c)])
  }

  /** The guest runs. It may write anywhere in RAM; every page that it changes has its dirty bit set
      afterwards, and it clears no dirty bit. */
  ghost predicate GuestRuns(s: Sender, n: Sender)
    requires ValidSender(s)
  {
    && n == s.(mem := n.mem, dirty := n.dirty)
    && FitsBlocks(s.blocks, n.mem)
    && s.dirty <= n.dirty
    && forall i :: 0 <= i < Pages(s.blocks) && !DirtyAt(s.blocks, n.dirty, i) ==>
         SourcePage(n, PageAt(s.blocks, i)) == SourcePage(s, PageAt(s.blocks, i))
  }

  /** ram_save_live ends its section. */
  ghost predicate EndsSection(s: Sender, n: Sender) { n == s.(recs := s.recs + [Eos]) }

  ghost predicate Step(s: Sender, n: Sender)
    requires ValidSender(s)
  {
    (exists i :: Sends(s, n, i)) || GuestRuns(s, n) || EndsSection(s, n)
  }

  function Entries(bs: seq<Block>): (es: seq<Entry>)
    ensures |es| == |bs| && forall i :: 0 <= i < |bs| ==> es[i] == Entry(bs[i].id, bs[i].length)
  {
    seq(|bs|, i requires 0 <= i < |bs| => Entry(bs[i].id, bs[i].length))
  }

  /** The sender after stage 1 has set all dirty bits and written the header. */
  ghost predicate Begun(s: Sender) {
    && ValidSender(s)
    && s.last.None?
    && s.recs == [Header(Entries(s.blocks))]
    && forall i :: 0 <= i < Pages(s.blocks) ==> DirtyAt(s.blocks, s.dirty, i)
  }

  ghost predicate IsRun(run: seq<Sender>) {
    && 0 < |run|
    && Begun(run[0])
    && (forall k :: 0 <= k < |run| ==> ValidSender(run[k]))
    && forall k :: 0 <= k < |run| - 1 ==> Step(run[k], run[k + 1])
  }

  /** Every step leads from a valid sender to a valid sender, so the states of a run add no assumption. */
  lemma StepKeepsValid(s: Sender, n: Sender)
    requires ValidSender(s) && Step(s, n)
    ensures ValidSender(n) && n.blocks == s.blocks && s.recs <= n.recs
  {
    hide ValidBlocks, FitsBlocks, WellFormed, PageAt, DirtyAt, PageRecord, Around, ScanStart, Addr, Pages;
    if i :| Sends(s, n, i) {
      var c := PageAt(s.blocks, Around(s.blocks, ScanStart(s), i));
      PageRecordWellFormed(s, c);
    } else if EndsSection(s, n) {
      assert WellFormed(Eos) by { EosWellFormed(); }
    }
  }

  lemma EosWellFormed() ensures WellFormed(Eos) {}

  // ---------- The destination ----------

  ghost predicate Knows(bs: seq<Block>, r: Receiver) {
    |r.ids| == |r.mem| && forall b :: 0 <= b < |bs| ==> KnownEntry(r, Entry(bs[b].id, bs[b].length))
  }

  /** The destination's copy of block b. */
  ghost function CopyOf(bs: seq<Block>, r: Receiver, b: nat): (m: nat)
    requires b < |bs| && Knows(bs, r)
    ensures m < |r.mem| && |r.mem[m]| == bs[b].length && r.ids[m] == bs[b].id && Find(r.ids, bs[b].id) == Some(m)
  {
    assert KnownEntry(r, Entry(bs[b].id, bs[b].length));
    Find(r.ids, bs[b].id).value
  }

  ghost function DestPage(bs: seq<Block>, r: Receiver, c: Cursor): (p: seq<Byte>)
    requires ValidBlocks(bs) && Knows(bs, r) && ValidCursor(bs, c)
    ensures |p| == PAGE_SIZE
  {
    assert GoodBlock(bs[c.block]);
    PageOf(r.mem, CopyOf(bs, r, c.block), c.offset)
  }

  /** Sender and receiver are in step: every page that is clean at the sender is up to date at the
      destination, and the block that a CONTINUE record stands for is the sender's last block; while
      nothing was sent the first page is dirty. */
  ghost predicate InStep(s: Sender, r: Receiver) {
    && ValidSender(s) && ValidReceiver(r) && Knows(s.blocks, r)
    && (s.last.Some? ==> r.current == Some(CopyOf(s.blocks, r, s.last.value.block)))
    && (s.last.None? ==> (FirstPage(s.blocks); DirtyAt(s.blocks, s.dirty, 0)))
    && UpToDate(s, r)
  }

  ghost predicate UpToDate(s: Sender, r: Receiver)
    requires ValidSender(s) && Knows(s.blocks, r)
  {
    forall i :: 0 <= i < Pages(s.blocks) && !DirtyAt(s.blocks, s.dirty, i) ==>
      DestPage(s.blocks, r, PageAt(s.blocks, i)) == SourcePage(s, PageAt(s.blocks, i))
  }

  /** The destination after the page at c was stored. */
  ghost function Stored(bs: seq<Block>, r: Receiver, c: Cursor, data: seq<Byte>): (n: Receiver)
    requires ValidBlocks(bs) && Knows(bs, r) && ValidCursor(bs, c) && |data| == PAGE_SIZE
  {
    assert GoodBlock(bs[c.block]);
    var m := CopyOf(bs, r, c.block);
    Receiver(r.ids, r.mem[m := Splice(r.mem[m], c.offset, data)], Some(m))
  }

  /** A CONTINUE record and one with an id both reach the copy of the sender's block. */
  lemma ApplyPageRecord(s: Sender, r: Receiver, c: Cursor)
    requires InStep(s, r) && ValidCursor(s.blocks, c)
    ensures Apply(r, PageRecord(s, c)) == Some(Stored(s.blocks, r, c, SourcePage(s, c)))
  {
    hide ValidBlocks, DirtyAt, UpToDate, Filled, Find, Splice, Knows, KnownEntry, FitsBlocks, WellFormedAll;
    assert GoodBlock(s.blocks[c.block]) by { GoodAt(s.blocks, c.block); }
    var data := SourcePage(s, c);
    var m := CopyOf(s.blocks, r, c.block);
    assert SetPage(r, m, c.offset, data) == Some(Stored(s.blocks, r, c, data));
  }

  lemma GoodAt(bs: seq<Block>, b: nat)
    requires ValidBlocks(bs) && b < |bs|
    ensures GoodBlock(bs[b])
  {}

  /** Storing a page changes no block's place or length. */
  lemma StoredKnows(bs: seq<Block>, r: Receiver, c: Cursor, data: seq<Byte>, b: nat)
    requires ValidBlocks(bs) && Knows(bs, r) && ValidCursor(bs, c) && |data| == PAGE_SIZE && b < |bs|
    ensures Knows(bs, Stored(bs, r, c, data))
    ensures CopyOf(bs, Stored(bs, r, c, data), b) == CopyOf(bs, r, b)
  {
    hide ValidBlocks, Find, Splice;
    var n := Stored(bs, r, c, data);
    forall i | 0 <= i < |bs| ensures KnownEntry(n, Entry(bs[i].id, bs[i].length)) {
      assert KnownEntry(r, Entry(bs[i].id, bs[i].length));
    }
  }

  lemma CopiesDiffer(bs: seq<Block>, r: Receiver, a: nat, b: nat)
    requires ValidBlocks(bs) && Knows(bs, r) && a < |bs| && b < |bs| && a != b
    ensures CopyOf(bs, r, a) != CopyOf(bs, r, b)
  {
    assert a < b ==> Apart(bs[a], bs[b]);
    assert b < a ==> Apart(bs[b], bs[a]);
  }

  /** Storing a page changes that page and no other. */
  lemma StoredPage(bs: seq<Block>, r: Receiver, c: Cursor, data: seq<Byte>, d: Cursor)
    requires ValidBlocks(bs) && Knows(bs, r) && ValidCursor(bs, c) && ValidCursor(bs, d) && |data| == PAGE_SIZE
    ensures Knows(bs, Stored(bs, r, c, data))
    ensures DestPage(bs, Stored(bs, r, c, data), d) == if d == c then data else DestPage(bs, r, d)
  {
    hide ValidBlocks, Find, Splice, Knows, CopyOf;
    StoredKnows(bs, r, c, data, d.block);
    StoredKnows(bs, r, c, data, c.block);
    GoodAt(bs, c.block);
    if c.block != d.block {
      CopiesDiffer(bs, r, c.block, d.block);
    } else if c.offset != d.offset {
      SpliceElsewhere(r.mem[CopyOf(bs, r, c.block)], c.offset, data, d.offset);
    }
  }

  lemma SpliceElsewhere(s: seq<Byte>, pos: nat, data: seq<Byte>, other: nat)
    requires |data| == PAGE_SIZE && pos + PAGE_SIZE <= |s| && other + PAGE_SIZE <= |s|
    requires pos % PAGE_SIZE == 0 && other % PAGE_SIZE == 0 && pos != other
    ensures Splice(s, pos, data)[other..other + PAGE_SIZE] == s[other..other + PAGE_SIZE]
  {
    assert pos + PAGE_SIZE <= other || other + PAGE_SIZE <= pos;
    forall i | other <= i < other + PAGE_SIZE ensures Splice(s, pos, data)[i] == s[i] {
      SpliceAt(s, pos, data, i);
    }
  }

  // ---------- The invariant ----------

  /** What was sent so far loads, and leaves the destination in step with the sender. */
  ghost predicate Inv(s: Sender, r0: Receiver) {
    ValidReceiver(r0) && var m := ApplyAll(r0, s.recs); m.Some? && InStep(s, m.value)
  }

  lemma ApplyOneMore(r: Receiver, recs: seq<Record>, rec: Record)
    requires ValidReceiver(r)
    ensures ApplyAll(r, recs + [rec]) == var m := ApplyAll(r, recs); if m.None? then None else Apply(m.value, rec)
  {
    hide Apply;
    assert (recs + [rec])[..|recs|] == recs;
  }

  lemma SendKeepsStep(s: Sender, n: Sender, i: nat, r: Receiver)
    requires InStep(s, r) && Sends(s, n, i)
    ensures n.recs == s.recs + [n.recs[|s.recs|]]
    ensures Apply(r, n.recs[|s.recs|]).Some? && InStep(n, Apply(r, n.recs[|s.recs|]).value)
  {
    hide ValidBlocks, DirtyAt, UpToDate, Apply, PageRecord, Around, ScanStart, Knows, FitsBlocks, WellFormedAll,
         Pages, SourcePage, Addr, DestPage, PageAt, Stored;
    var c := PageAt(s.blocks, Around(s.blocks, ScanStart(s), i));
    ApplyPageRecord(s, r, c);
    StepKeepsValid(s, n);
    var data := SourcePage(s, c);
    StoredKnows(s.blocks, r, c, data, c.block);
    StoredCurrent(s.blocks, r, c, data);
    SendUpdates(s, n, i, r);
  }

  lemma StoredCurrent(bs: seq<Block>, r: Receiver, c: Cursor, data: seq<Byte>)
    requires ValidBlocks(bs) && Knows(bs, r) && ValidReceiver(r) && ValidCursor(bs, c) && |data| == PAGE_SIZE
    ensures var n := Stored(bs, r, c, data); ValidReceiver(n) && n.current == Some(CopyOf(bs, r, c.block))
  {}

  /** The page that was sent is now clean and up to date; the others are as they were. */
  lemma SendUpdates(s: Sender, n: Sender, i: nat, r: Receiver)
    requires InStep(s, r) && Sends(s, n, i) && ValidSender(n)
    ensures var c := PageAt(s.blocks, Around(s.blocks, ScanStart(s), i));
      var r' := Stored(s.blocks, r, c, SourcePage(s, c));
      Knows(n.blocks, r') && UpToDate(n, r')
  {
    hide ValidBlocks, DirtyAt, Apply, PageRecord, ScanStart, Around, Knows, FitsBlocks, WellFormedAll, Pages, Addr,
         DestPage, PageAt, Stored, PageOf;
    var bs, k := s.blocks, Around(s.blocks, ScanStart(s), i);
    var c := PageAt(bs, k);
    var data := SourcePage(s, c);
    var r' := Stored(bs, r, c, data);
    StoredKnows(bs, r, c, data, c.block);
    forall j | 0 <= j < Pages(bs) && !DirtyAt(bs, n.dirty, j)
      ensures DestPage(bs, r', PageAt(bs, j)) == SourcePage(n, PageAt(bs, j))
    {
      DirtyAfterClean(bs, s.dirty, k, j);
      StoredPage(bs, r, c, data, PageAt(bs, j));
      assert SourcePage(n, PageAt(bs, j)) == SourcePage(s, PageAt(bs, j));
      if j != k {
        IndexDiffers(bs, j, k);
      }
    }
  }

  lemma IndexDiffers(bs: seq<Block>, j: nat, k: nat)
    requires ValidBlocks(bs) && j < Pages(bs) && k < Pages(bs) && j != k
    ensures PageAt(bs, j) != PageAt(bs, k)
  {}

  lemma GuestKeepsStep(s: Sender, n: Sender, r: Receiver)
    requires InStep(s, r) && GuestRuns(s, n)
    ensures InStep(n, r)
  {
    hide ValidBlocks, Knows, FitsBlocks, WellFormedAll, Pages, Addr, DestPage, PageAt, SourcePage, CopyOf;
    FirstPage(s.blocks);
    forall i | 0 <= i < Pages(s.blocks) && !DirtyAt(s.blocks, n.dirty, i)
      ensures DestPage(n.blocks, r, PageAt(n.blocks, i)) == SourcePage(n, PageAt(n.blocks, i))
    {
      assert !DirtyAt(s.blocks, s.dirty, i);
    }
  }

  /** Every step of the protocol keeps sender and destination in step. */
  lemma StepKeepsInv(s: Sender, n: Sender, r0: Receiver)
    requires Inv(s, r0) && Step(s, n)
    ensures Inv(n, r0)
  {
    hide InStep, Sends, GuestRuns, ApplyAll, Apply;
    var r := ApplyAll(r0, s.recs).value;
    assert ValidSender(s) by { InStepValid(s, r); }
    if i :| Sends(s, n, i) {
      SendKeepsStep(s, n, i, r);
      ApplyOneMore(r0, s.recs, n.recs[|s.recs|]);
    } else if GuestRuns(s, n) {
      GuestKeepsStep(s, n, r);
      assert n.recs == s.recs by { GuestSendsNothing(s, n); }
    } else {
      ApplyOneMore(r0, s.recs, Eos);
      ApplyEos(r);
      EndKeepsStep(s, n, r);
    }
  }

  lemma InStepValid(s: Sender, r: Receiver)
    requires InStep(s, r)
    ensures ValidSender(s)
  {}

  lemma GuestSendsNothing(s: Sender, n: Sender)
    requires ValidSender(s) && GuestRuns(s, n)
    ensures n.recs == s.recs
  {}

  lemma EndKeepsStep(s: Sender, n: Sender, r: Receiver)
    requires InStep(s, r) && EndsSection(s, n)
    ensures InStep(n, r)
  {
    hide ValidBlocks, Knows, FitsBlocks, Pages, Addr, DestPage, PageAt, DirtyAt, CopyOf;
    EosWellFormed();
    assert ValidSender(n);
    assert forall i :: 0 <= i < Pages(s.blocks) ==>
      SourcePage(n, PageAt(s.blocks, i)) == SourcePage(s, PageAt(s.blocks, i));
  }

  // ---------- Whole runs ----------

  /** The header is accepted exactly when the destination has every block, at the same length. */
  lemma HeaderAccepted(s: Sender, r0: Receiver)
    requires Begun(s) && ValidReceiver(r0)
    ensures ApplyAll(r0, s.recs) == if Knows(s.blocks, r0) then Some(r0) else None
  {
    hide ValidBlocks, KnownEntry, FitsBlocks, WellFormedAll, DirtyAt, Pages;
    var es := Entries(s.blocks);
    assert s.recs == [] + [Header(es)];
    ApplyOneMore(r0, [], Header(es));
    assert (forall i :: 0 <= i < |es| ==> KnownEntry(r0, es[i])) <==> Knows(s.blocks, r0);
  }

  lemma BeginsInStep(s: Sender, r0: Receiver)
    requires Begun(s) && ValidReceiver(r0) && Knows(s.blocks, r0)
    ensures Inv(s, r0)
  {
    hide ValidBlocks, Knows, FitsBlocks, WellFormedAll, ApplyAll, DirtyAt, Pages;
    HeaderAccepted(s, r0);
    FirstPage(s.blocks);
  }

  ghost predicate IsRunOf(run: seq<Sender>, s: Sender)
    ensures IsRunOf(run, s) ==> ValidSender(s)
  {
    IsRun(run) && run[|run| - 1] == s
  }

  /** Whatever the interleaving, sender and destination are in step after every run. */
  lemma {:induction false} EveryRunInStep(run: seq<Sender>, s: Sender, r0: Receiver)
    requires IsRunOf(run, s) && ValidReceiver(r0) && Knows(s.blocks, r0)
    ensures Inv(s, r0)
    decreases |run|
  {
    hide Inv, Step, ValidSender, Begun, Knows;
    var n := |run| - 1;
    if n == 0 {
      BeginsInStep(s, r0);
    } else {
      var before := run[..n];
      assert before[|before| - 1] == run[n - 1] && Step(run[n - 1], run[n - 1 + 1]);
      assert IsRunOf(before, run[n - 1]);
      StepKeepsValid(run[n - 1], s);
      EveryRunInStep(before, run[n - 1], r0);
      StepKeepsInv(run[n - 1], s, r0);
    }
  }

  /** A destination that lacks a block, or has it at another length, refuses every stream. */
  lemma {:induction false} EveryRunRefused(run: seq<Sender>, s: Sender, r0: Receiver)
    requires IsRunOf(run, s) && ValidReceiver(r0) && !Knows(s.blocks, r0)
    ensures ApplyAll(r0, s.recs).None?
    decreases |run|
  {
    hide Step, ValidSender, Begun, Knows, ApplyAll, Sends, GuestRuns;
    var n := |run| - 1;
    if n == 0 {
      HeaderAccepted(s, r0);
    } else {
      var before := run[..n];
      assert before[|before| - 1] == run[n - 1] && Step(run[n - 1], run[n - 1 + 1]);
      assert IsRunOf(before, run[n - 1]);
      StepKeepsValid(run[n - 1], s);
      EveryRunRefused(before, run[n - 1], r0);
      StepWritesAtMostOne(run[n - 1], s);
      if s.recs != run[n - 1].recs {
        ApplyOneMore(r0, run[n - 1].recs, s.recs[|run[n - 1].recs|]);
      }
    }
  }

  lemma StepWritesAtMostOne(s: Sender, n: Sender)
    requires ValidSender(s) && Step(s, n)
    ensures n.recs == s.recs || (|n.recs| == |s.recs| + 1 && n.recs == s.recs + [n.recs[|s.recs|]])
  {
    hide ValidSender, PageRecord, PageAt, Around, DirtyAt, SourcePage, FitsBlocks;
  }

  lemma {:induction false} SamePages(a: seq<Byte>, b: seq<Byte>, n: nat)
    requires |a| == |b| && n * PAGE_SIZE <= |a|
    requires forall k :: 0 <= k < n ==> SamePage(a, b, k)
    ensures a[..n * PAGE_SIZE] == b[..n * PAGE_SIZE]
    decreases n
  {
    if n > 0 {
      SamePages(a, b, n - 1);
      assert SamePage(a, b, n - 1);
      var lo, hi := (n - 1) * PAGE_SIZE, n * PAGE_SIZE;
      assert a[..hi] == a[..lo] + a[lo..hi] && b[..hi] == b[..lo] + b[lo..hi];
    }
  }

  ghost predicate SamePage(a: seq<Byte>, b: seq<Byte>, k: nat) {
    var lo := k * PAGE_SIZE;
    lo + PAGE_SIZE <= |a| && lo + PAGE_SIZE <= |b| && a[lo..lo + PAGE_SIZE] == b[lo..lo + PAGE_SIZE]
  }

  /** With no page dirty, the destination's copy of each block is the block. */
  lemma CleanMeansEqual(s: Sender, r: Receiver, b: nat)
    requires InStep(s, r) && NoneDirty(s.blocks, s.dirty) && b < |s.blocks|
    ensures r.mem[CopyOf(s.blocks, r, b)] == s.mem[b]
  {
    hide ValidBlocks, Knows, CopyOf, WellFormedAll, DirtyAt, Index;
    var bs := s.blocks;
    GoodAt(bs, b);
    var m := CopyOf(bs, r, b);
    var n := bs[b].length / PAGE_SIZE;
    forall k | 0 <= k < n ensures SamePage(r.mem[m], s.mem[b], k) {
      var c := Cursor(b, k * PAGE_SIZE);
      PageAtIndex(bs, c);
      assert DestPage(bs, r, c) == SourcePage(s, c);
    }
    SamePages(r.mem[m], s.mem[b], n);
  }

  /** The destination has every block of the sender, with the same contents. */
  ghost predicate SameRam(s: Sender, r: Receiver)
    requires ValidSender(s)
  {
    Knows(s.blocks, r) && forall b :: 0 <= b < |s.blocks| ==> r.mem[CopyOf(s.blocks, r, b)] == s.mem[b]
  }

  /** RAM migration is correct over whole runs. However guest writes, sent pages and ends of sections were
      interleaved, once the last section has ended with no page dirty, loading the stream succeeds exactly
      when the destination has the sender's blocks, and then every block of the destination equals the
      guest's. */
  lemma DestinationEqualsSource(run: seq<Sender>, s: Sender, r0: Receiver)
    requires IsRunOf(run, s) && ValidReceiver(r0)
    requires NoneDirty(s.blocks, s.dirty) && s.recs != [] && s.recs[|s.recs| - 1].Eos?
    ensures var n := LoadStream(EncodeAll(s.recs), r0);
      && n.Some? == Knows(s.blocks, r0)
      && (n.Some? ==> SameRam(s, n.value))
  {
    hide Step, ValidSender, Knows, CopyOf, ApplyAll, EncodeAll, LoadStream, NoneDirty, WellFormedAll, Begun;
    assert ValidSender(run[|run| - 1]);
    RecordsWellFormed(s);
    LoadEncodedStream(s.recs, r0);
    if Knows(s.blocks, r0) {
      EveryRunInStep(run, s, r0);
      var r := ApplyAll(r0, s.recs).value;
      forall b | 0 <= b < |s.blocks| ensures r.mem[CopyOf(s.blocks, r, b)] == s.mem[b] {
        CleanMeansEqual(s, r, b);
      }
    } else {
      EveryRunRefused(run, s, r0);
    }
  }

  lemma RecordsWellFormed(s: Sender)
    requires ValidSender(s)
    ensures WellFormedAll(s.recs) && |s.mem| == |s.blocks| && ValidBlocks(s.blocks)
  {}
}
