/** The sending side of RAM migration as vmm/arch_init.c runs it: is_dup_page, ram_save_block,
    ram_save_remaining and ram_save_live. */
module RamSave {
  import opened Common
  import opened RamStream
  import opened RamPages
  import opened RamLoad
  import opened RamMigration
  import Bits

  // ---------- is_dup_page ----------

  /** The k-th 32-bit word of a page, on a little-endian host. */
  function WordAt(page: seq<Byte>, k: nat): nat
    requires |page| == PAGE_SIZE && k < PAGE_SIZE / 4
  {
    var (a: nat, b: nat, c: nat, d: nat) := (page[4 * k], page[4 * k + 1], page[4 * k + 2], page[4 * k + 3]);
    a + 0x100 * b + 0x10000 * c + 0x1000000 * d
  }

  lemma SameWord(a: nat, b: nat, c: nat, d: nat, ch: nat)
    requires a < 256 && b < 256 && c < 256 && d < 256 && ch < 256
    ensures a + 0x100 * b + 0x10000 * c + 0x1000000 * d == 0x1010101 * ch <==> a == b == c == d == ch
  {
    if a + 0x100 * b + 0x10000 * c + 0x1000000 * d == 0x1010101 * ch {
      SameDigit(a, ch, (ch - b) + 0x100 * (ch - c) + 0x10000 * (ch - d));
      SameDigit(b, ch, (ch - c) + 0x100 * (ch - d));
      SameDigit(c, ch, ch - d);
    }
  }

  lemma SameDigit(a: nat, ch: nat, t: int)
    requires a < 256 && ch < 256 && a - ch == 256 * t
    ensures a == ch && t == 0
  {}

  /** Comparing word by word decides whether every byte of the page is ch. */
  method IsDupPage(page: seq<Byte>, ch: Byte) returns (dup: bool)
    requires |page| == PAGE_SIZE
    ensures dup <==> page == Filled(ch)
  {
    hide WordAt;
    var val: nat := 0x1010101 * (ch as nat);
    var i := 0;
    while i < PAGE_SIZE / 4
      invariant i <= PAGE_SIZE / 4
      invariant forall k :: 0 <= k < 4 * i ==> page[k] == ch
    {
      WordSame(page, i, ch);
      if WordAt(page, i) != val {
        return false;
      }
      i := i + 1;
    }
    dup := true;
  }

  lemma WordSame(page: seq<Byte>, k: nat, ch: Byte)
    requires |page| == PAGE_SIZE && k < PAGE_SIZE / 4
    ensures WordAt(page, k) == 0x1010101 * (ch as nat)
       <==> page[4 * k] == ch && page[4 * k + 1] == ch && page[4 * k + 2] == ch && page[4 * k + 3] == ch
  {
    SameWord(page[4 * k], page[4 * k + 1], page[4 * k + 2], page[4 * k + 3], ch);
  }

  // ---------- ram_save_block ----------

  class RamSender {
    const blocks: seq<Block>
    var mem: seq<seq<Byte>>
    var dirty: set<nat>
    var last: Option<Cursor>
    var out: seq<Byte>
    var transferred: nat
    ghost var recs: seq<Record>
    ghost var run: seq<Sender>

    constructor (blocks: seq<Block>, mem: seq<seq<Byte>>, dirty: set<nat>)
      requires ValidBlocks(blocks) && FitsBlocks(blocks, mem) && Total(Entries(blocks)) <= Bits.ULONG_MAX
      ensures Ready() && this.blocks == blocks && this.mem == mem && this.dirty == dirty
      ensures last.None? && out == [] && transferred == 0
    {
      this.blocks, this.mem, this.dirty := blocks, mem, dirty;
      last, out, transferred, recs, run := None, [], 0, [], [];
    }

    ghost function Value(): Sender
      reads this`mem, this`dirty, this`last, this`recs
    {
      Sender(blocks, mem, dirty, last, recs)
    }

    ghost predicate Ready()
      reads this`mem
    {
      ValidBlocks(blocks) && FitsBlocks(blocks, mem) && Total(Entries(blocks)) <= Bits.ULONG_MAX
    }

    /** The bytes written encode the records of a run of the protocol that leads to the present state,
        and while nothing was sent the first page is dirty. */
    ghost predicate Valid()
      reads this`mem, this`dirty, this`last, this`out, this`recs, this`run
      ensures Valid() ==> Ready() && ValidBlocks(blocks)
    {
      && Ready()
      && IsRunOf(run, Value())
      && out == EncodeAll(recs)
      && (last.None? ==> (FirstPage(blocks); DirtyAt(blocks, dirty, 0)))
    }

    /** bytes_transferred counts the page contents that were written. */
    ghost predicate Counted()
      reads this`transferred, this`recs
    {
      transferred == PayloadAll(recs)
    }

    /** The circular walk of ram_save_block: it finds the first dirty page from last on, or none when
        no page is dirty. */
    method Scan() returns (found: bool, c: Cursor, ghost steps: nat)
      requires Valid()
      ensures found <==> !NoneDirty(blocks, dirty)
      ensures found ==>
        && steps < Pages(blocks)
        && c == PageAt(blocks, Around(blocks, ScanStart(Value()), steps))
        && DirtyAt(blocks, dirty, Around(blocks, ScanStart(Value()), steps))
        && forall e :: 0 <= e < steps ==> !DirtyAt(blocks, dirty, Around(blocks, ScanStart(Value()), e))
      ensures !found ==> last == Some(c)
    {
      hide ValidBlocks, FitsBlocks, Pages, PageAt, Around, Addr, IsRunOf, EncodeAll, Next, Index, ScanStart;
      ghost var start := ScanStart(Value());
      c := if last.None? then Cursor(0, 0) else last.value;
      steps := 0;
      StartOfScan(Value());
      while true
        invariant steps < Pages(blocks) && c == PageAt(blocks, Around(blocks, start, steps))
        invariant forall e :: 0 <= e < steps ==> !DirtyAt(blocks, dirty, Around(blocks, start, e))
        decreases Pages(blocks) - steps
      {
        if Addr(blocks, c) in dirty {
          assert DirtyAt(blocks, dirty, Around(blocks, start, steps));
          return true, c, steps;
        }
        assert last.Some?;
        NextAround(blocks, start, steps);
        c := Next(blocks, c);
        steps := steps + 1;
        BackAtStart(Value(), c, steps);
        if Addr(blocks, c) == Addr(blocks, last.value) {
          AllClean(blocks, dirty, start);
          return false, c, steps;
        }
      }
    }

    /** The bytes of a page record, put one field after the other. */
    method PutPage(c: Cursor) returns (bytesSent: nat)
      requires ValidSender(Value()) && ValidCursor(blocks, c)
      modifies this`out
      ensures bytesSent == Payload(PageRecord(Value(), c))
      ensures WellFormed(PageRecord(Value(), c)) && out == old(out) + Encode(PageRecord(Value(), c))
    {
      hide ValidBlocks, FitsBlocks, WellFormedAll, Mark, Filled, EncodeId, Encode, PageRecord, WellFormed;
      CursorFits(blocks, mem, c);
      GoodAt(blocks, c.block);
      PageBytes(Value(), c);
      var cont := last.Some? && last.value.block == c.block;
      var p := PageOf(mem, c.block, c.offset);
      var id := blocks[c.block].id;
      var dup := IsDupPage(p, p[0]);
      out := out + Mark(c.offset, cont, if dup then FLAG_COMPRESS else FLAG_PAGE);
      if !cont {
        out := out + EncodeId(id);
      }
      if dup {
        out := out + [p[0]];
        return 1;
      } else {
        out := out + p;
        return PAGE_SIZE;
      }
    }

    /** ram_save_block sends nothing exactly when no page is dirty. Otherwise it sends the first dirty page
        on its way around and cleans that page only, so one dirty page fewer is left. */
    method SaveBlock() returns (bytesSent: nat)
      requires Valid()
      modifies this`dirty, this`last, this`out, this`recs, this`run
      ensures Valid() && old(run) <= run && old(recs) <= recs
      ensures bytesSent == 0 <==> old(NoneDirty(blocks, dirty))
      ensures bytesSent == 0 ==> Value() == old(Value()) && out == old(out)
      ensures bytesSent != 0 ==> exists i :: Sends(old(Value()), Value(), i)
      ensures bytesSent != 0 ==> |recs| == |old(recs)| + 1 && bytesSent == Payload(recs[|recs| - 1])
      ensures PayloadAll(recs) == old(PayloadAll(recs)) + bytesSent && Sections(recs) == old(Sections(recs))
      ensures bytesSent != 0 ==> DirtyPages(blocks, dirty) == old(DirtyPages(blocks, dirty)) - 1
    {
      hide ValidBlocks, FitsBlocks, WellFormedAll, PageAt, Around, ScanStart, DirtyAt, PageRecord, NoneDirty, Pages,
           Addr, Encode, EncodeAll, IsRunOf, DirtyBelow;
      var found, c, steps := Scan();
      if !found {
        last := Some(c);
        return 0;
      }
      ghost var s := Value();
      ghost var k := Around(blocks, ScanStart(s), steps);
      PageRecordWellFormed(s, c);
      PageRecordForm(s, c);
      PayloadOneMore(recs, PageRecord(s, c));
      CountClean(blocks, dirty, k, Pages(blocks));
      bytesSent := PutPage(c);
      dirty := dirty - {Addr(blocks, c)};
      last := Some(c);
      recs := recs + [PageRecord(s, c)];
      run := run + [Value()];
      assert Sends(s, Value(), steps);
      ExtendRun(old(run), s, Value());
      EncodeOneMore(s.recs, PageRecord(s, c));
    }

    /** ram_save_remaining counts the dirty pages. */
    method Remaining() returns (count: nat)
      requires Ready()
      ensures count == DirtyPages(blocks, dirty)
    {
      hide ValidBlocks, FitsBlocks, Pages, PageAt, Base, ValidCursor, Entries, Total;
      count := 0;
      var b := 0;
      BaseEnds(blocks);
      while b < |blocks|
        invariant b <= |blocks| && Base(blocks, b) <= Pages(blocks)
        invariant count == DirtyBelow(blocks, dirty, Base(blocks, b))
      {
        GoodAt(blocks, b);
        BaseStep(blocks, b);
        var o := 0;
        while o < blocks[b].length
          invariant o <= blocks[b].length && o % PAGE_SIZE == 0
          invariant Index(blocks, Cursor(b, o)) <= Base(blocks, b + 1) <= Pages(blocks)
          invariant count == DirtyBelow(blocks, dirty, Index(blocks, Cursor(b, o)))
        {
          VisitPage(blocks, b, o);
          if Addr(blocks, Cursor(b, o)) in dirty {
            count := count + 1;
          }
          o := o + PAGE_SIZE;
        }
        b := b + 1;
      }
    }

    /** Stage 1 makes sure that the dirty bit of every page is set. */
    method SetAllDirty()
      requires Ready()
      modifies this`dirty
      ensures old(dirty) <= dirty
      ensures forall i :: 0 <= i < Pages(blocks) ==> DirtyAt(blocks, dirty, i)
    {
      hide ValidBlocks, FitsBlocks, Pages, PageAt, Base, ValidCursor, Entries, Total;
      var b := 0;
      BaseEnds(blocks);
      while b < |blocks|
        invariant b <= |blocks| && Base(blocks, b) <= Pages(blocks) && old(dirty) <= dirty
        invariant forall i :: 0 <= i < Base(blocks, b) ==> DirtyAt(blocks, dirty, i)
      {
        GoodAt(blocks, b);
        BaseStep(blocks, b);
        var o := 0;
        while o < blocks[b].length
          invariant o <= blocks[b].length && o % PAGE_SIZE == 0 && old(dirty) <= dirty
          invariant Index(blocks, Cursor(b, o)) <= Base(blocks, b + 1) <= Pages(blocks)
          invariant forall i :: 0 <= i < Index(blocks, Cursor(b, o)) ==> DirtyAt(blocks, dirty, i)
        {
          VisitPage(blocks, b, o);
          ghost var before := dirty;
          if Addr(blocks, Cursor(b, o)) !in dirty {
            dirty := dirty + {Addr(blocks, Cursor(b, o))};
          }
          StillDirty(blocks, before, dirty, Index(blocks, Cursor(b, o)));
          o := o + PAGE_SIZE;
        }
        b := b + 1;
      }
    }

    /** ram_bytes_total. */
    method BytesTotal() returns (total: nat)
      ensures total == Total(Entries(blocks))
    {
      ghost var es := Entries(blocks);
      total := 0;
      var k := 0;
      assert es[0..] == es;
      while k < |blocks|
        invariant k <= |blocks| && total + Total(es[k..]) == Total(es)
      {
        assert es[k..][1..] == es[k + 1..];
        total := total + blocks[k].length;
        k := k + 1;
      }
    }

    /** The stage 1 header: the total size and the list of blocks. */
    method PutHeader()
      requires Ready()
      modifies this`out
      ensures WellFormed(Header(Entries(blocks))) && out == old(out) + Encode(Header(Entries(blocks)))
    {
      hide ValidBlocks, FitsBlocks, Total, Bits.Or, Be, EncodeId, Entries, EncodeEntries;
      ghost var es := Entries(blocks);
      HeaderWellFormed(blocks);
      var total := BytesTotal();
      out := out + Be(Bits.Or(total, FLAG_MEM_SIZE), 8);
      var k := 0;
      assert es[0..] == es;
      assert out + EncodeEntries(es) == old(out) + Encode(Header(es));
      while k < |blocks|
        invariant k <= |blocks| && forall i :: 0 <= i < |es[k..]| ==> |es[k..][i].id| < 256
        invariant out + EncodeEntries(es[k..]) == old(out) + Encode(Header(es))
      {
        GoodAt(blocks, k);
        assert es[k..][1..] == es[k + 1..];
        PutEntry(out, es[k..]);
        out := out + EncodeId(blocks[k].id) + Be(blocks[k].length, 8);
        k := k + 1;
      }
      assert es[k..] == [];
      NoEntries(out);
    }

    /** What stage 1 does before it sends pages. */
    method Begin()
      requires Ready()
      modifies this`dirty, this`last, this`out, this`recs, this`run, this`transferred
      ensures Valid() && Counted() && run == [Value()] && Begun(Value()) && recs == [Header(Entries(blocks))]
      ensures Sections(recs) == 0
    {
      hide ValidBlocks, FitsBlocks, Total, Entries, Encode, WellFormed, Pages, DirtyAt, Begun, IsRunOf, EncodeAll,
           WellFormedAll;
      last, out, transferred := None, [], 0;
      SetAllDirty();
      PutHeader();
      FirstPage(blocks);
      StartsRun(blocks, mem, dirty);
      recs := [Header(Entries(blocks))];
      run := [Value()];
      NoPayload(recs[0]);
    }

    /** The rate-limited loop; rate answers qemu_file_rate_limit call by call. One page is sent for each
        answer 0 up to the first other answer, as long as there are dirty pages. */
    method Iterate(rate: nat -> int) returns (ret: int)
      requires Valid() && Counted()
      modifies this`dirty, this`last, this`out, this`recs, this`run, this`transferred
      ensures Valid() && Counted() && old(run) <= run
      ensures old(recs) <= recs && FirstOther(rate, |recs| - |old(recs)|) && ret == rate(|recs| - |old(recs)|)
      ensures ret == 0 ==> NoneDirty(blocks, dirty)
      ensures Sections(recs) == old(Sections(recs))
    {
      hide Valid, Sends, DirtyPages, NoneDirty, PayloadAll, Sections;
      var calls := 0;
      ret := rate(0);
      while ret == 0
        invariant Valid() && Counted() && old(run) <= run && ret == rate(calls)
        invariant old(recs) <= recs && |recs| == |old(recs)| + calls && FirstOther(rate, calls)
        invariant Sections(recs) == old(Sections(recs))
        decreases Left()
      {
        var bytesSent := SaveBlock();
        transferred := transferred + bytesSent;
        if bytesSent == 0 {
          break;
        }
        calls := calls + 1;
        ret := rate(calls);
      }
    }

    /** The number of dirty pages, the measure that the loops over ram_save_block run down. */
    ghost function Left(): nat
      reads this`mem, this`dirty, this`last, this`out, this`recs, this`run
    {
      if Valid() then DirtyPages(blocks, dirty) else 0
    }

    /** Stage 3 sends every page that is still dirty. */
    method SendAll()
      requires Valid() && Counted()
      modifies this`dirty, this`last, this`out, this`recs, this`run, this`transferred
      ensures Valid() && Counted() && old(run) <= run && NoneDirty(blocks, dirty)
      ensures old(recs) <= recs && |recs| == |old(recs)| + old(DirtyPages(blocks, dirty))
      ensures Sections(recs) == old(Sections(recs))
    {
      hide Valid, Sends, DirtyPages, NoneDirty, PayloadAll, Sections;
      var bytesSent := SaveBlock();
      ghost var n := old(DirtyPages(blocks, dirty));
      while bytesSent != 0
        invariant Valid() && old(run) <= run && old(recs) <= recs
        invariant bytesSent == 0 ==> NoneDirty(blocks, dirty)
        invariant Sections(recs) == old(Sections(recs))
        invariant transferred + bytesSent == PayloadAll(recs) && |recs| + DirtyPages(blocks, dirty) == |old(recs)| + n
        decreases Left(), bytesSent
      {
        transferred := transferred + bytesSent;
        bytesSent := SaveBlock();
      }
      NoneLeft(blocks, dirty);
    }

    method PutEos()
      requires Valid()
      modifies this`out, this`recs, this`run
      ensures Valid() && old(run) <= run && recs == old(recs) + [Eos] && PayloadAll(recs) == old(PayloadAll(recs))
      ensures Sections(recs) == old(Sections(recs)) + 1
    {
      hide ValidBlocks, FitsBlocks, Total, Entries, WellFormedAll, Pages, DirtyAt, EncodeAll, IsRunOf;
      ghost var s := Value();
      out := out + Be(FLAG_EOS, 8);
      EosWellFormed();
      EncodeOneMore(recs, Eos);
      PayloadOneMore(recs, Eos);
      recs := recs + [Eos];
      run := run + [Value()];
      ExtendRun(old(run), s, Value());
    }

    /** ram_save_live. sync is false when the dirty bitmap could not be fetched, and quick says for a
        number of pages whether sending them fits the allowed downtime. After a successful stage 3 any
        destination that has the sender's blocks ends up with the same RAM. `start` is the number of records
        written before the first page of this call. */
    method SaveLive(stage: int, sync: bool, rate: nat -> int, quick: nat -> bool) returns (ret: int)
      requires if stage == 1 then Ready() else Valid()
      requires stage != 1 ==> Counted()
      modifies this`dirty, this`last, this`out, this`recs, this`run, this`transferred
      ensures stage < 0 ==> ret == 0 && Value() == old(Value()) && out == old(out)
      ensures stage >= 0 && !sync ==> ret == -EINVAL && Value() == old(Value()) && out == old(out)
      ensures stage != 1 ==> Valid() && Counted() && old(run) <= run
      ensures stage == 1 && sync ==> Valid() && Counted() && Begun(run[0]) && run[0].mem == mem && run[0].recs <= recs
      ensures stage >= 0 && sync ==>
        var start := if stage == 1 then 1 else |old(recs)|;
        && start <= |recs|
        && (ret < 0 ==> FirstOther(rate, |recs| - start) && ret == rate(|recs| - start))
        && (ret >= 0 && stage != 3 ==>
              var k := |recs| - start - 1;
              k >= 0 && FirstOther(rate, k) && rate(k) >= 0 && (rate(k) == 0 ==> NoneDirty(blocks, dirty)))
      ensures stage >= 0 && ret >= 0 ==> sync && recs != [] && recs[|recs| - 1].Eos?
      ensures stage == 3 && ret >= 0 ==> NoneDirty(blocks, dirty) && Delivered(Value(), out)
      ensures stage >= 0 && ret >= 0 ==> Sections(recs) == (if stage == 1 then 0 else old(Sections(recs))) + 1
      ensures stage >= 0 && ret >= 0 ==>
        ret == if stage == 2 && quick(DirtyPages(blocks, dirty)) then 1 else 0
    {
      hide Valid, Ready, Sends, DirtyPages, NoneDirty, Begun, Delivered, IsRunOf, PayloadAll, Sections;
      if stage < 0 {
        return 0;
      }
      if !sync {
        return -EINVAL;
      }
      if stage == 1 {
        Begin();
      }
      ret := Iterate(rate);
      if ret < 0 {
        return;
      }
      if stage == 3 {
        SendAll();
      }
      PutEos();
      if stage == 3 {
        DeliveredAfter(this);
      }
      var remaining := Remaining();
      ret := if stage == 2 && quick(remaining) then 1 else 0;
    }

    /** The guest runs between two calls of ram_save_live. */
    method Guest(newMem: seq<seq<Byte>>, newDirty: set<nat>)
      requires Valid() && GuestRuns(Value(), Value().(mem := newMem, dirty := newDirty))
      modifies this`mem, this`dirty, this`run
      ensures Valid() && old(run) <= run
      ensures Value() == old(Value()).(mem := newMem, dirty := newDirty)
    {
      hide ValidBlocks, FitsBlocks, Total, Entries, WellFormedAll, Pages, EncodeAll, IsRunOf, PageAt;
      ghost var s := Value();
      mem, dirty := newMem, newDirty;
      run := run + [Value()];
      ExtendRun(old(run), s, Value());
    }
  }

  /** The first n answers of the rate limiter are 0. */
  ghost predicate FirstOther(rate: nat -> int, n: nat) { forall k: nat :: k < n ==> rate(k) == 0 }

  ghost function PayloadAll(recs: seq<Record>): nat {
    if recs == [] then 0 else PayloadAll(recs[..|recs| - 1]) + Payload(recs[|recs| - 1])
  }

  /** The number of sections that were ended. */
  ghost function Sections(recs: seq<Record>): nat {
    if recs == [] then 0 else Sections(recs[..|recs| - 1]) + if recs[|recs| - 1].Eos? then 1 else 0
  }

  lemma PayloadOneMore(recs: seq<Record>, rec: Record)
    ensures PayloadAll(recs + [rec]) == PayloadAll(recs) + Payload(rec)
    ensures Sections(recs + [rec]) == Sections(recs) + if rec.Eos? then 1 else 0
  {
    assert (recs + [rec])[..|recs|] == recs;
  }

  lemma NoPayload(rec: Record)
    requires rec.Header?
    ensures PayloadAll([rec]) == 0 && Sections([rec]) == 0
  {
    PayloadOneMore([], rec);
    assert [] + [rec] == [rec];
  }

  lemma NoneLeft(bs: seq<Block>, dirty: set<nat>)
    requires ValidBlocks(bs) && NoneDirty(bs, dirty)
    ensures DirtyPages(bs, dirty) == 0
  {
    CountNone(bs, dirty, Pages(bs));
  }

  /** Every destination that has the sender's blocks loads the stream and then has the sender's RAM. */
  ghost predicate Delivered(s: Sender, out: seq<Byte>) {
    ValidSender(s) && forall r0 :: ValidReceiver(r0) ==>
      var n := LoadStream(out, r0); n.Some? == Knows(s.blocks, r0) && (n.Some? ==> SameRam(s, n.value))
  }

  lemma DeliveredAfter(s: RamSender)
    requires s.Valid() && NoneDirty(s.blocks, s.dirty) && s.recs != [] && s.recs[|s.recs| - 1].Eos?
    ensures Delivered(s.Value(), s.out)
  {
    hide IsRunOf, LoadStream, NoneDirty, SameRam, Knows, EncodeAll, ValidSender;
    forall r0 | ValidReceiver(r0)
      ensures var n := LoadStream(s.out, r0);
        n.Some? == Knows(s.blocks, r0) && (n.Some? ==> SameRam(s.Value(), n.value))
    {
      DestinationEqualsSource(s.run, s.Value(), r0);
    }
  }

  lemma {:induction false} PutEntry(out: seq<Byte>, entries: seq<Entry>)
    requires entries != [] && forall i :: 0 <= i < |entries| ==> |entries[i].id| < 256
    ensures var e := entries[0];
      out + EncodeEntries(entries) == (out + EncodeId(e.id) + Be(e.length, 8)) + EncodeEntries(entries[1..])
  {
    hide EncodeId, Be;
    var a, b, c := EncodeId(entries[0].id), Be(entries[0].length, 8), EncodeEntries(entries[1..]);
    assert EncodeEntries(entries) == a + b + c;
    assert out + (a + b + c) == out + a + b + c;
  }

  lemma NoEntries(out: seq<Byte>)
    ensures out + EncodeEntries([]) == out
  {}

  lemma StartsRun(bs: seq<Block>, mem: seq<seq<Byte>>, dirty: set<nat>)
    requires ValidBlocks(bs) && FitsBlocks(bs, mem) && WellFormed(Header(Entries(bs)))
    requires forall i :: 0 <= i < Pages(bs) ==> DirtyAt(bs, dirty, i)
    ensures var s := Sender(bs, mem, dirty, None, [Header(Entries(bs))]);
      && Begun(s) && IsRunOf([s], s)
      && EncodeAll([Header(Entries(bs))]) == [] + Encode(Header(Entries(bs)))
  {
    hide ValidBlocks, FitsBlocks, Entries, Encode, WellFormed, Pages, DirtyAt;
    EncodeOneMore([], Header(Entries(bs)));
    assert [] + [Header(Entries(bs))] == [Header(Entries(bs))];
  }

  lemma {:induction false} HeaderWellFormed(bs: seq<Block>)
    requires ValidBlocks(bs) && Total(Entries(bs)) <= Bits.ULONG_MAX
    ensures WellFormed(Header(Entries(bs)))
  {
    var es := Entries(bs);
    forall i | 0 <= i < |es|
      ensures GoodId(es[i].id) && 0 < es[i].length && es[i].length % PAGE_SIZE == 0
    {
      GoodAt(bs, i);
    }
  }

  lemma StillDirty(bs: seq<Block>, dirty: set<nat>, more: set<nat>, n: nat)
    requires ValidBlocks(bs) && dirty <= more && n <= Pages(bs)
    requires forall i :: 0 <= i < n ==> DirtyAt(bs, dirty, i)
    ensures forall i :: 0 <= i < n ==> DirtyAt(bs, more, i)
  {
    hide ValidBlocks, Pages, PageAt;
    forall i | 0 <= i < n ensures DirtyAt(bs, more, i) {
      assert DirtyAt(bs, dirty, i);
    }
  }

  lemma BaseEnds(bs: seq<Block>)
    ensures Base(bs, 0) == 0 <= Pages(bs) == Base(bs, |bs|)
  {}

  lemma BaseStep(bs: seq<Block>, b: nat)
    requires ValidBlocks(bs) && b < |bs|
    ensures Index(bs, Cursor(b, 0)) == Base(bs, b) <= Base(bs, b + 1) == Index(bs, Cursor(b, bs[b].length)) <= Pages(bs)
  {
    BaseMonotone(bs, b + 1, |bs|);
  }

  lemma VisitPage(bs: seq<Block>, b: nat, o: nat)
    requires ValidBlocks(bs) && b < |bs| && o < bs[b].length && o % PAGE_SIZE == 0
    ensures o + PAGE_SIZE <= bs[b].length
    ensures var k := Index(bs, Cursor(b, o));
      k < Base(bs, b + 1) <= Pages(bs) && PageAt(bs, k) == Cursor(b, o) && Index(bs, Cursor(b, o + PAGE_SIZE)) == k + 1
  {
    GoodAt(bs, b);
    IndexBelow(bs, Cursor(b, o));
    PageAtIndex(bs, Cursor(b, o));
  }

  lemma PageBytes(s: Sender, c: Cursor)
    requires ValidSender(s) && ValidCursor(s.blocks, c)
    ensures GoodId(s.blocks[c.block].id) && WellFormed(PageRecord(s, c))
    ensures var p := SourcePage(s, c);
      var cont := s.last.Some? && s.last.value.block == c.block;
      Encode(PageRecord(s, c)) ==
        Mark(c.offset, cont, if p == Filled(p[0]) then FLAG_COMPRESS else FLAG_PAGE)
        + (if cont then [] else EncodeId(s.blocks[c.block].id))
        + (if p == Filled(p[0]) then [p[0]] else p)
    ensures var p := SourcePage(s, c);
      Payload(PageRecord(s, c)) == if p == Filled(p[0]) then 1 else PAGE_SIZE
  {
    hide ValidBlocks, FitsBlocks, WellFormedAll, Mark, Filled, EncodeId;
    GoodAt(s.blocks, c.block);
    PageRecordWellFormed(s, c);
  }

  lemma ExtendRun(run: seq<Sender>, s: Sender, n: Sender)
    requires IsRunOf(run, s) && Step(s, n)
    ensures IsRunOf(run + [n], n)
  {
    hide Step, ValidSender, Begun;
    StepKeepsValid(s, n);
    var more := run + [n];
    forall k | 0 <= k < |more| - 1 ensures Step(more[k], more[k + 1]) {
      if k < |run| - 1 {
        assert Step(run[k], run[k + 1]);
      }
    }
  }

  lemma EncodeOneMore(recs: seq<Record>, rec: Record)
    requires WellFormedAll(recs) && WellFormed(rec)
    ensures WellFormedAll(recs + [rec]) && EncodeAll(recs + [rec]) == EncodeAll(recs) + Encode(rec)
  {
    hide WellFormed, Encode;
    assert (recs + [rec])[..|recs|] == recs;
  }

  lemma StartOfScan(s: Sender)
    requires ValidSender(s)
    ensures var c := if s.last.None? then Cursor(0, 0) else s.last.value;
      && 0 < Pages(s.blocks)
      && c == PageAt(s.blocks, Around(s.blocks, ScanStart(s), 0))
      && (s.last.None? ==> Around(s.blocks, ScanStart(s), 0) == 0)
  {
    hide ValidBlocks, FitsBlocks, PageAt, ValidCursor, Index, Pages;
    FirstPage(s.blocks);
    var c := if s.last.None? then Cursor(0, 0) else s.last.value;
    PageAtIndex(s.blocks, c);
  }

  /** The walk is back at its start after all pages, and not before. */
  lemma BackAtStart(s: Sender, c: Cursor, steps: nat)
    requires ValidSender(s) && s.last.Some? && 0 < steps <= Pages(s.blocks)
    requires c == PageAt(s.blocks, Around(s.blocks, ScanStart(s), steps))
    ensures Addr(s.blocks, c) == Addr(s.blocks, s.last.value) <==> steps == Pages(s.blocks)
    ensures Addr(s.blocks, c) == Addr(s.blocks, s.last.value) ==> c == s.last.value
  {
    hide ValidBlocks, FitsBlocks, PageAt, Pages, Addr, Index;
    PageAtIndex(s.blocks, s.last.value);
    if Addr(s.blocks, c) == Addr(s.blocks, s.last.value) {
      AddrUnique(s.blocks, c, s.last.value);
    }
  }

  lemma AllClean(bs: seq<Block>, dirty: set<nat>, start: nat)
    requires ValidBlocks(bs) && start < Pages(bs)
    requires forall e :: 0 <= e < Pages(bs) ==> !DirtyAt(bs, dirty, Around(bs, start, e))
    ensures NoneDirty(bs, dirty)
  {
    hide ValidBlocks, DirtyAt, Pages, Around;
    forall k | 0 <= k < Pages(bs) ensures !DirtyAt(bs, dirty, k) {
      var e := AroundReaches(bs, start, k);
    }
  }
}
