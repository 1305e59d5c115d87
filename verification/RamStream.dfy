/** The RAM section of a migration stream, version 4, as ram_save_block and ram_save_live of
    vmm/arch_init.c write it and ram_load reads it back. */
module RamStream {
  import opened Common
  import opened Bits
  import opened Buffers

  type Byte = b: nat | b < 256

  const PAGE_SIZE := 4096
  const PAGE_OFFSET_MASK := 4095  // ~TARGET_PAGE_MASK

  const FLAG_COMPRESS := 0x02
  const FLAG_MEM_SIZE := 0x04
  const FLAG_PAGE := 0x08
  const FLAG_EOS := 0x10
  const FLAG_CONTINUE := 0x20

  // ---------- Big-endian numbers ----------

  /** The n low bytes of v, most significant first. */
  function Be(v: nat, n: nat): (b: seq<Byte>)
    ensures |b| == n
  {
    if n == 0 then [] else Be(v / 256, n - 1) + [v % 256]
  }

  function FromBe(b: seq<Byte>): nat {
    if b == [] then 0 else 256 * FromBe(b[..|b| - 1]) + b[|b| - 1]
  }

  function Pow256(n: nat): nat { if n == 0 then 1 else 256 * Pow256(n - 1) }

  lemma {:induction false} FromBeBe(v: nat, n: nat)
    requires v < Pow256(n)
    ensures FromBe(Be(v, n)) == v
    decreases n
  {
    if n > 0 {
      FromBeBe(v / 256, n - 1);
      assert Be(v, n)[..n - 1] == Be(v / 256, n - 1);
    }
  }

  /** The most significant byte goes first. */
  lemma {:induction false} BeDigit(v: nat, n: nat, i: nat)
    requires i < n
    ensures Pow256(n - 1 - i) > 0 && Be(v, n)[i] == v / Pow256(n - 1 - i) % 256
    decreases n
  {
    if i < n - 1 {
      BeDigit(v / 256, n - 1, i);
      DivTwice(v, Pow256(n - 2 - i));
    }
  }

  lemma DivTwice(v: nat, p: nat)
    requires p > 0
    ensures v / 256 / p == v / (256 * p)
  {
    var q, r := v / 256 / p, v / 256 % p;
    assert v / 256 == p * q + r;
    assert 256 * (p * q + r) == (256 * p) * q + 256 * r;
    ModUnique(v, 256 * p, q, 256 * r + v % 256);
  }

  /** qemu_put_be64 and qemu_get_be64. */
  lemma Be64RoundTrip(v: Word)
    ensures FromBe(Be(v, 8)) == v
  {
    assert Pow256(8) == ULONG_MAX + 1;
    FromBeBe(v, 8);
  }

  // ---------- Records ----------

  datatype Entry = Entry(id: seq<Byte>, length: nat)

  /** What the sender writes. A page record without an id continues the block of the one before. */
  datatype Record =
    | Header(entries: seq<Entry>)
    | Fill(offset: nat, id: Option<seq<Byte>>, ch: Byte)
    | Page(offset: nat, id: Option<seq<Byte>>, data: seq<Byte>)
    | Eos

  function Total(entries: seq<Entry>): nat {
    if entries == [] then 0 else entries[0].length + Total(entries[1..])
  }

  /** A block id is a C string of at most 255 bytes. */
  ghost predicate GoodId(id: seq<Byte>) { |id| < 256 && 0 !in id }

  /** The C string in a buffer that a NUL was appended to: everything before the first NUL. */
  function CString(b: seq<Byte>): (s: seq<Byte>)
    ensures 0 !in s && s <= b && (0 !in b ==> s == b)
  {
    if b == [] || b[0] == 0 then [] else [b[0]] + CString(b[1..])
  }

  ghost predicate WellFormed(r: Record) {
    match r
    case Header(entries) =>
      && Total(entries) <= ULONG_MAX
      && forall i :: 0 <= i < |entries| ==>
           GoodId(entries[i].id) && 0 < entries[i].length && entries[i].length % PAGE_SIZE == 0
    case Fill(offset, id, _) => offset % PAGE_SIZE == 0 && offset <= ULONG_MAX && (id.Some? ==> GoodId(id.value))
    case Page(offset, id, data) =>
      offset % PAGE_SIZE == 0 && offset <= ULONG_MAX && (id.Some? ==> GoodId(id.value)) && |data| == PAGE_SIZE
    case Eos => true
  }

  function EncodeId(id: seq<Byte>): seq<Byte>
    requires |id| < 256
  {
    [|id|] + id
  }

  function EncodeEntries(entries: seq<Entry>): seq<Byte>
    requires forall i :: 0 <= i < |entries| ==> |entries[i].id| < 256
  {
    if entries == [] then []
    else EncodeId(entries[0].id) + Be(entries[0].length, 8) + EncodeEntries(entries[1..])
  }

  /** The id field of a page record: its length and bytes, or nothing when the block continues. */
  function IdField(id: Option<seq<Byte>>): seq<Byte>
    requires id.Some? ==> |id.value| < 256
  {
    if id.Some? then EncodeId(id.value) else []
  }

  /** offset | cont | flag, as a big-endian number. */
  function Mark(offset: nat, cont: bool, flag: nat): seq<Byte> {
    Be(Or(Or(offset, if cont then FLAG_CONTINUE else 0), flag), 8)
  }

  function Encode(r: Record): seq<Byte>
    requires WellFormed(r)
  {
    match r
    case Header(entries) => Be(Or(Total(entries), FLAG_MEM_SIZE), 8) + EncodeEntries(entries)
    case Fill(offset, id, ch) => Mark(offset, id.None?, FLAG_COMPRESS) + IdField(id) + [ch]
    case Page(offset, id, data) => Mark(offset, id.None?, FLAG_PAGE) + IdField(id) + data
    case Eos => Be(FLAG_EOS, 8)
  }

  /** The bytes of page contents that a record carries. */
  function Payload(r: Record): nat {
    match r
    case Fill(_, _, _) => 1
    case Page(_, _, _) => PAGE_SIZE
    case _ => 0
  }

  lemma PayloadOnWire(r: Record)
    requires WellFormed(r) && (r.Fill? || r.Page?)
    ensures |Encode(r)| == 8 + Payload(r) + if r.id.Some? then 1 + |r.id.value| else 0
  {
    hide Be;
  }

  // ---------- Flags in the low bits of a page address ----------

  predicate Has(flags: nat, flag: nat) { And(flags, flag) != 0 }

  lemma Powers()
    ensures Pow2(1) == 2 && Pow2(2) == 4 && Pow2(3) == 8 && Pow2(4) == 16 && Pow2(5) == 32 && Pow2(12) == 4096
  {}

  lemma FlagTests(f: nat)
    ensures Has(f, FLAG_COMPRESS) <==> f / 2 % 2 == 1
    ensures Has(f, FLAG_MEM_SIZE) <==> f / 4 % 2 == 1
    ensures Has(f, FLAG_PAGE) <==> f / 8 % 2 == 1
    ensures Has(f, FLAG_EOS) <==> f / 16 % 2 == 1
    ensures Has(f, FLAG_CONTINUE) <==> f / 32 % 2 == 1
  {
    hide Pow2, And;
    Powers();
    AndPow2(f, 1);
    AndPow2(f, 2);
    AndPow2(f, 3);
    AndPow2(f, 4);
    AndPow2(f, 5);
    BitByDivision(f);
  }

  lemma BitByDivision(f: nat)
    ensures Bit(f, 1) <==> f / 2 % 2 == 1
    ensures Bit(f, 2) <==> f / 4 % 2 == 1
    ensures Bit(f, 3) <==> f / 8 % 2 == 1
    ensures Bit(f, 4) <==> f / 16 % 2 == 1
    ensures Bit(f, 5) <==> f / 32 % 2 == 1
  {
    hide Bit;
    var f1, f2, f3, f4, f5 := f / 2, f / 4, f / 8, f / 16, f / 32;
    BitHalf(f);
    BitHalf(f1);
    BitHalf(f2);
    BitHalf(f3);
    BitHalf(f4);
    BitHalf(f5);
    assert f1 / 2 == f2 && f2 / 2 == f3 && f3 / 2 == f4 && f4 / 2 == f5;
  }

  lemma BitHalf(f: nat)
    ensures Bit(f, 0) <==> f % 2 == 1
    ensures Bit(f, 1) == Bit(f / 2, 0) && Bit(f, 2) == Bit(f / 2, 1) && Bit(f, 3) == Bit(f / 2, 2)
    ensures Bit(f, 4) == Bit(f / 2, 3) && Bit(f, 5) == Bit(f / 2, 4)
  {}

  /** The flags that the sender or-s into an address are recovered, and so is the address. */
  lemma SplitMark(offset: nat, cont: nat, flag: nat, mark: nat)
    requires offset % PAGE_SIZE == 0 && offset <= ULONG_MAX
    requires cont in {0, 0x20} && flag in {0x02, 0x04, 0x08, 0x10}
    requires mark == Or(Or(offset, cont), flag)
    ensures mark == offset + cont + flag && mark <= ULONG_MAX
    ensures And(mark, PAGE_OFFSET_MASK) == cont + flag && AndNot(mark, PAGE_OFFSET_MASK) == offset
  {
    hide Or, And, Pow2, AndNot;
    OrSum(offset, cont, flag);
    SplitSum(offset, cont + flag);
    PageFits(offset);
  }

  lemma PageFits(offset: nat)
    requires offset % PAGE_SIZE == 0 && offset <= ULONG_MAX
    ensures offset + PAGE_OFFSET_MASK <= ULONG_MAX
  {
    assert ULONG_MAX % PAGE_SIZE == PAGE_OFFSET_MASK;
  }

  lemma OrSum(offset: nat, cont: nat, flag: nat)
    requires offset % PAGE_SIZE == 0 && cont in {0, 0x20} && flag in {0x02, 0x04, 0x08, 0x10}
    ensures Or(Or(offset, cont), flag) == offset + cont + flag
  {
    hide Or, Pow2;
    OrInPage(offset, cont);
    Aligned(offset, cont);
    OrBelow32(offset + cont, flag);
  }

  lemma OrInPage(offset: nat, low: nat)
    requires offset % PAGE_SIZE == 0 && low < PAGE_SIZE
    ensures Or(offset, low) == offset + low
  {
    hide Or, Pow2;
    Powers();
    OrDisjoint(offset, low, 12);
  }

  lemma OrBelow32(v: nat, low: nat)
    requires v % 32 == 0 && low < 32
    ensures Or(v, low) == v + low
  {
    hide Or, Pow2;
    Powers();
    OrDisjoint(v, low, 5);
  }

  lemma Aligned(offset: nat, cont: nat)
    requires offset % PAGE_SIZE == 0 && cont in {0, 0x20}
    ensures (offset + cont) % 32 == 0
  {
    MultipleOf32(offset / PAGE_SIZE, if cont == 0 then 0 else 1);
  }

  lemma MultipleOf32(q: nat, c: nat)
    ensures (4096 * q + 32 * c) % 32 == 0
  {
    ModUnique(4096 * q + 32 * c, 32, 128 * q + c, 0);
  }

  lemma SplitSum(offset: nat, low: nat)
    requires offset % PAGE_SIZE == 0 && low < PAGE_SIZE
    ensures And(offset + low, PAGE_OFFSET_MASK) == low && AndNot(offset + low, PAGE_OFFSET_MASK) == offset
  {
    hide And, Pow2;
    Powers();
    AndLowMask(offset + low, 12);
  }

  // ---------- The receiver ----------

  /** The RAM of the destination: block ids, their contents, and the block that host_from_stream_offset
      remembers. */
  datatype Receiver = Receiver(ids: seq<seq<Byte>>, mem: seq<seq<Byte>>, current: Option<nat>)

  ghost predicate ValidReceiver(r: Receiver) {
    |r.ids| == |r.mem| && (r.current.Some? ==> r.current.value < |r.mem|)
  }

  /** The walk over ram_list.blocks: the first block with this id. */
  function Find(ids: seq<seq<Byte>>, id: seq<Byte>): (i: Option<nat>)
    ensures i.Some? ==> i.value < |ids| && ids[i.value] == id
  {
    if ids == [] then None
    else if ids[0] == id then Some(0)
    else var i := Find(ids[1..], id); if i.None? then None else Some(i.value + 1)
  }

  function SetPage(r: Receiver, block: nat, offset: nat, data: seq<Byte>): (n: Option<Receiver>)
    requires block < |r.mem|
    ensures n.Some? && ValidReceiver(r) ==> ValidReceiver(n.value)
  {
    if offset + |data| > |r.mem[block]| then None
    else Some(r.(mem := r.mem[block := Splice(r.mem[block], offset, data)], current := Some(block)))
  }

  function Filled(ch: Byte): (p: seq<Byte>)
    ensures |p| == PAGE_SIZE
  {
    seq(PAGE_SIZE, i => ch)
  }

  /** The block that a page record is for. */
  function BlockOf(r: Receiver, id: Option<seq<Byte>>): (b: Option<nat>)
    requires ValidReceiver(r)
    ensures b.Some? ==> b.value < |r.mem|
  {
    if id.None? then r.current else Find(r.ids, id.value)
  }

  predicate KnownEntry(r: Receiver, e: Entry)
    requires |r.ids| == |r.mem|
  {
    var i := Find(r.ids, e.id); i.Some? && |r.mem[i.value]| == e.length
  }

  /** What a record means to the receiver; None stands for an error. */
  function Apply(r: Receiver, rec: Record): (n: Option<Receiver>)
    requires ValidReceiver(r)
    ensures n.Some? ==> ValidReceiver(n.value)
  {
    match rec
    case Header(entries) =>
      if forall i :: 0 <= i < |entries| ==> KnownEntry(r, entries[i]) then Some(r) else None
    case Fill(offset, id, ch) =>
      var b := BlockOf(r, id); if b.None? then None else SetPage(r, b.value, offset, Filled(ch))
    case Page(offset, id, data) =>
      var b := BlockOf(r, id); if b.None? then None else SetPage(r, b.value, offset, data)
    case Eos => Some(r)
  }

  // ---------- ram_load on bytes ----------

  datatype Load = Failed | Loaded(rest: seq<Byte>, r: Receiver, eos: bool)

  /** A length byte and that many bytes, taken as a C string. */
  function TakeId(s: seq<Byte>): (r: Option<(seq<Byte>, seq<Byte>)>)
    ensures r.Some? ==> |r.value.1| < |s|
  {
    if |s| == 0 then None
    else
      var len: nat := s[0];
      if |s| <= len then None else Some((CString(s[1..1 + len]), s[1 + len..]))
  }

  /** The loop over the block list; the running total wraps like the unsigned variable it is in. */
  function LoadEntries(total: nat, s: seq<Byte>, r: Receiver): (t: Option<seq<Byte>>)
    requires |r.ids| == |r.mem|
    ensures t.Some? ==> |t.value| <= |s|
    decreases |s|
  {
    if total == 0 then Some(s)
    else
      var idr := TakeId(s);
      if idr.None? || |idr.value.1| < 8 then None
      else
        var (id, t) := idr.value;
        var length := FromBe(t[..8]);
        if KnownEntry(r, Entry(id, length)) then LoadEntries((total - length) % (ULONG_MAX + 1), t[8..], r) else None
  }

  function LoadPage(s: seq<Byte>, r: Receiver, offset: nat, flags: nat): (l: Load)
    requires ValidReceiver(r)
    ensures l.Loaded? ==> |l.rest| <= |s| && ValidReceiver(l.r)
  {
    var idr := if Has(flags, FLAG_CONTINUE) then Some((None, s)) else
               var i := TakeId(s); if i.None? then None else Some((Some(i.value.0), i.value.1));
    if idr.None? then Failed
    else
      var (id, t) := idr.value;
      var b := BlockOf(r, id);
      if b.None? then Failed
      else if Has(flags, FLAG_COMPRESS) then
        if |t| < 1 then Failed
        else
          var r' := SetPage(r, b.value, offset, Filled(t[0]));
          if r'.None? then Failed else Loaded(t[1..], r'.value, Has(flags, FLAG_EOS))
      else
        if |t| < PAGE_SIZE then Failed
        else
          var r' := SetPage(r, b.value, offset, t[..PAGE_SIZE]);
          if r'.None? then Failed else Loaded(t[PAGE_SIZE..], r'.value, Has(flags, FLAG_EOS))
  }

  /** One iteration of the loop of ram_load, after the first number was read. */
  function LoadBody(mark: nat, s: seq<Byte>, r: Receiver): (l: Load)
    requires ValidReceiver(r)
    ensures l.Loaded? ==> |l.rest| <= |s| && ValidReceiver(l.r)
  {
    var flags, addr := And(mark, PAGE_OFFSET_MASK), AndNot(mark, PAGE_OFFSET_MASK);
    var t := if Has(flags, FLAG_MEM_SIZE) then LoadEntries(addr, s, r) else Some(s);
    if t.None? then Failed
    else if Has(flags, FLAG_COMPRESS) || Has(flags, FLAG_PAGE) then LoadPage(t.value, r, addr, flags)
    else Loaded(t.value, r, Has(flags, FLAG_EOS))
  }

  function LoadRecord(s: seq<Byte>, r: Receiver): (l: Load)
    requires ValidReceiver(r)
    ensures l.Loaded? ==> |l.rest| < |s| && ValidReceiver(l.r)
  {
    if |s| < 8 then Failed else LoadBody(FromBe(s[..8]), s[8..], r)
  }

  lemma LoadMarked(mark: seq<Byte>, s: seq<Byte>, r: Receiver)
    requires ValidReceiver(r) && |mark| == 8
    ensures LoadRecord(mark + s, r) == LoadBody(FromBe(mark), s, r)
  {
    hide LoadBody, FromBe;
    assert (mark + s)[..8] == mark && (mark + s)[8..] == s;
  }

  lemma TakeEncodedId(id: seq<Byte>, t: seq<Byte>)
    requires GoodId(id)
    ensures TakeId(EncodeId(id) + t) == Some((id, t))
  {
    hide CString;
    var s := EncodeId(id) + t;
    assert s[0] == |id| && s[1..1 + |id|] == id && s[1 + |id|..] == t;
  }

  lemma {:induction false} LoadEncodedEntries(entries: seq<Entry>, t: seq<Byte>, r: Receiver)
    requires WellFormed(Header(entries)) && |r.ids| == |r.mem|
    ensures LoadEntries(Total(entries), EncodeEntries(entries) + t, r)
         == if forall i :: 0 <= i < |entries| ==> KnownEntry(r, entries[i]) then Some(t) else None
    decreases |entries|
  {
    hide KnownEntry, Be, EncodeId, LoadEntries, WellFormed, Total, EncodeEntries;
    HeaderFront(entries);
    EntriesFront(entries, t);
    if entries == [] {
      LoadNoEntries(t, r);
    } else {
      var e, more := entries[0], entries[1..];
      var u := EncodeEntries(more) + t;
      LoadOneEntry(Total(entries), e, u, r);
      LoadEncodedEntries(more, t, r);
      KnownFront(r, entries);
    }
  }

  lemma {:induction false} HeaderFront(entries: seq<Entry>)
    requires WellFormed(Header(entries))
    ensures forall i :: 0 <= i < |entries| ==> |entries[i].id| < 256
    ensures entries == [] ==> Total(entries) == 0
    ensures entries != [] ==>
      && WellFormed(Header(entries[1..])) && GoodId(entries[0].id) && entries[0].length <= Total(entries) <= ULONG_MAX
      && 0 < Total(entries) && (Total(entries) - entries[0].length) % (ULONG_MAX + 1) == Total(entries[1..])
  {
    if entries != [] {
      TotalPositive(entries);
      assert forall i :: 0 <= i < |entries| - 1 ==> entries[1..][i] == entries[i + 1];
    }
  }

  lemma {:induction false} EntriesFront(entries: seq<Entry>, t: seq<Byte>)
    requires forall i :: 0 <= i < |entries| ==> |entries[i].id| < 256
    ensures entries == [] ==> EncodeEntries(entries) + t == t
    ensures entries != [] ==>
      EncodeEntries(entries) + t == EncodeId(entries[0].id) + (Be(entries[0].length,
                                                                  8) + (EncodeEntries(entries[1..]) + t))
  {
    hide EncodeId, Be;
    if entries != [] {
      var a, b, c := EncodeId(entries[0].id), Be(entries[0].length, 8), EncodeEntries(entries[1..]);
      assert EncodeEntries(entries) == a + b + c;
      assert a + b + c + t == a + (b + (c + t));
    }
  }

  lemma {:induction false} KnownFront(r: Receiver, entries: seq<Entry>)
    requires entries != [] && |r.ids| == |r.mem|
    ensures (forall i :: 0 <= i < |entries| ==> KnownEntry(r, entries[i]))
       <==> KnownEntry(r, entries[0]) && (forall i :: 0 <= i < |entries[1..]| ==> KnownEntry(r, entries[1..][i]))
  {
    hide KnownEntry;
    assert forall i :: 0 <= i < |entries| - 1 ==> entries[1..][i] == entries[i + 1];
    assert forall i :: 0 < i < |entries| ==> entries[i] == entries[1..][i - 1];
  }

  lemma LoadNoEntries(t: seq<Byte>, r: Receiver)
    requires |r.ids| == |r.mem|
    ensures LoadEntries(0, t, r) == Some(t)
  {}

  lemma {:induction false} LoadOneEntry(total: nat, e: Entry, u: seq<Byte>, r: Receiver)
    requires GoodId(e.id) && e.length <= ULONG_MAX && 0 < total && |r.ids| == |r.mem|
    ensures LoadEntries(total, EncodeId(e.id) + (Be(e.length, 8) + u), r) ==
      if KnownEntry(r, e) then LoadEntries((total - e.length) % (ULONG_MAX + 1), u, r) else None
  {
    hide KnownEntry, Be, FromBe, EncodeId, TakeId;
    var v := Be(e.length, 8) + u;
    TakeEncodedId(e.id, v);
    assert v[..8] == Be(e.length, 8) && v[8..] == u;
    Be64RoundTrip(e.length);
  }

  lemma TotalPositive(entries: seq<Entry>)
    requires entries != [] && 0 < entries[0].length && Total(entries) <= ULONG_MAX
    ensures 0 < Total(entries) && (Total(entries) - entries[0].length) % (ULONG_MAX + 1) == Total(entries[1..])
  {}

  lemma LoadEncodedPage(id: Option<seq<Byte>>, t: seq<Byte>, rest: seq<Byte>, r: Receiver, offset: nat, flags: nat)
    requires ValidReceiver(r) && (id.Some? ==> GoodId(id.value))
    requires Has(flags, FLAG_CONTINUE) == id.None? && !Has(flags, FLAG_EOS)
    requires if Has(flags, FLAG_COMPRESS) then |t| == 1 else |t| == PAGE_SIZE
    ensures LoadPage(IdField(id) + t + rest, r, offset, flags) ==
      var b := BlockOf(r, id);
      if b.None? then Failed
      else
        var r' := SetPage(r, b.value, offset, if Has(flags, FLAG_COMPRESS) then Filled(t[0]) else t);
        if r'.None? then Failed else Loaded(rest, r'.value, false)
  {
    hide Has, SetPage, BlockOf, EncodeId, TakeId;
    var u := t + rest;
    assert IdField(id) + t + rest == IdField(id) + u;
    if id.Some? {
      TakeEncodedId(id.value, u);
    } else {
      assert IdField(id) + u == u;
    }
    assert u[..|t|] == t && u[|t|..] == rest && u[0] == t[0];
  }

  lemma MarkIs(offset: nat, cont: bool, flag: nat)
    requires offset % PAGE_SIZE == 0 && offset <= ULONG_MAX && flag in {0x02, 0x08}
    ensures var mark := FromBe(Mark(offset, cont, flag));
      && And(mark, PAGE_OFFSET_MASK) == (if cont then 0x20 else 0) + flag
      && AndNot(mark, PAGE_OFFSET_MASK) == offset
  {
    hide Be, FromBe, Or, And;
    var c := if cont then 0x20 else 0;
    var mark := Or(Or(offset, c), flag);
    SplitMark(offset, c, flag, mark);
    Be64RoundTrip(mark);
  }

  lemma BeLowByte(v: nat, low: nat)
    requires v % 256 == 0 && low < 256
    ensures Be(v + low, 8) == Be(v, 8)[7 := low]
  {
    hide Be;
    BeUnfolds(v + low);
    BeUnfolds(v);
    assert (v + low) / 256 == v / 256;
  }

  lemma BeUnfolds(v: nat)
    ensures Be(v, 8) == Be(v / 256, 7) + [v % 256]
  {}

  lemma PageMultiple(offset: nat)
    requires offset % PAGE_SIZE == 0
    ensures offset % 256 == 0
  {
    var q := offset / PAGE_SIZE;
    ModUnique(offset, 256, 16 * q, 0);
  }

  /** On the wire the flags are the last byte of the first number, and the rest of it is the page-aligned
      offset or total. */
  lemma FlagsOnWire(r: Record)
    requires WellFormed(r)
    ensures |Encode(r)| >= 8
    ensures Encode(r)[..8] == match r {
      case Header(entries) => Be(Total(entries), 8)[7 := 0x04]
      case Fill(offset, id, _) => Be(offset, 8)[7 := if id.None? then 0x22 else 0x02]
      case Page(offset, id, _) => Be(offset, 8)[7 := if id.None? then 0x28 else 0x08]
      case Eos => [0, 0, 0, 0, 0, 0, 0, 0x10]
    }
  {
    hide Be, Or, EncodeEntries, Total;
    match r
    case Header(entries) =>
      TotalIsPages(entries);
      OrZero(Total(entries));
      OrSum(Total(entries), 0, FLAG_MEM_SIZE);
      PageMultiple(Total(entries));
      BeLowByte(Total(entries), 0x04);
    case Fill(offset, id, ch) =>
      OrSum(offset, if id.None? then 0x20 else 0, FLAG_COMPRESS);
      PageMultiple(offset);
      BeLowByte(offset, if id.None? then 0x22 else 0x02);
    case Page(offset, id, data) =>
      OrSum(offset, if id.None? then 0x20 else 0, FLAG_PAGE);
      PageMultiple(offset);
      BeLowByte(offset, if id.None? then 0x28 else 0x08);
    case Eos => EosBytes();
  }

  lemma EosBytes()
    ensures Be(FLAG_EOS, 8) == [0, 0, 0, 0, 0, 0, 0, 0x10]
  {}

  lemma EncodedPage(rec: Record, rest: seq<Byte>)
    requires WellFormed(rec) && (rec.Fill? || rec.Page?)
    ensures var mark := Mark(rec.offset, rec.id.None?, if rec.Fill? then FLAG_COMPRESS else FLAG_PAGE);
      && |mark| == 8
      && Encode(rec) + rest == mark + (IdField(rec.id) + (if rec.Fill? then [rec.ch] else rec.data) + rest)
  {
    hide Be, EncodeId;
  }

  lemma LoadEncodedFillOrPage(rec: Record, rest: seq<Byte>, r: Receiver)
    requires WellFormed(rec) && ValidReceiver(r) && (rec.Fill? || rec.Page?)
    ensures LoadRecord(Encode(rec) + rest, r) ==
      var a := Apply(r, rec); if a.None? then Failed else Loaded(rest, a.value, false)
  {
    hide Has, SetPage, BlockOf, FromBe, LoadPage, Mark, And, AndNot, Encode, LoadRecord, IdField, LoadEntries;
    var t := if rec.Fill? then [rec.ch] else rec.data;
    var flag := if rec.Fill? then FLAG_COMPRESS else FLAG_PAGE;
    var flags := (if rec.id.None? then 0x20 else 0) + flag;
    EncodedPage(rec, rest);
    LoadMarked(Mark(rec.offset, rec.id.None?, flag), IdField(rec.id) + t + rest, r);
    MarkIs(rec.offset, rec.id.None?, flag);
    FlagTests(flags);
    LoadEncodedPage(rec.id, t, rest, r, rec.offset, flags);
  }

  lemma EncodedHeader(entries: seq<Entry>, rest: seq<Byte>, mark: nat)
    requires WellFormed(Header(entries)) && mark == Or(Total(entries), FLAG_MEM_SIZE)
    ensures Encode(Header(entries)) + rest == Be(mark, 8) + (EncodeEntries(entries) + rest)
  {
    hide Be, EncodeEntries;
  }

  lemma LoadEncodedHeader(entries: seq<Entry>, rest: seq<Byte>, r: Receiver)
    requires WellFormed(Header(entries)) && ValidReceiver(r)
    ensures LoadRecord(Encode(Header(entries)) + rest, r) ==
      var a := Apply(r, Header(entries)); if a.None? then Failed else Loaded(rest, a.value, false)
  {
    hide Has, KnownEntry, Be, FromBe, EncodeEntries, LoadEntries, And, AndNot, Or, Encode, LoadRecord;
    TotalIsPages(entries);
    OrZero(Total(entries));
    var mark := Or(Total(entries), FLAG_MEM_SIZE);
    SplitMark(Total(entries), 0, FLAG_MEM_SIZE, mark);
    EncodedHeader(entries, rest, mark);
    LoadMarked(Be(mark, 8), EncodeEntries(entries) + rest, r);
    Be64RoundTrip(mark);
    FlagTests(FLAG_MEM_SIZE);
    LoadEncodedEntries(entries, rest, r);
  }

  lemma LoadEncodedEos(rest: seq<Byte>, r: Receiver)
    requires ValidReceiver(r)
    ensures LoadRecord(Encode(Eos) + rest, r) == Loaded(rest, r, true)
  {
    hide Has, Be, FromBe, And, AndNot, Or, LoadRecord;
    OrZero(0);
    assert Or(0, FLAG_EOS) == FLAG_EOS by { Powers(); OrDisjoint(0, FLAG_EOS, 12); }
    SplitMark(0, 0, FLAG_EOS, FLAG_EOS);
    LoadMarked(Be(FLAG_EOS, 8), rest, r);
    Be64RoundTrip(FLAG_EOS);
    FlagTests(FLAG_EOS);
  }

  lemma {:induction false} TotalIsPages(entries: seq<Entry>)
    requires WellFormed(Header(entries))
    ensures Total(entries) % PAGE_SIZE == 0
    decreases |entries|
  {
    if entries != [] {
      assert forall i :: 0 <= i < |entries[1..]| ==> entries[1..][i] == entries[i + 1];
      TotalIsPages(entries[1..]);
    }
  }

  /** Reading back a record does what the record means and consumes exactly its bytes. */
  lemma LoadEncoded(rec: Record, rest: seq<Byte>, r: Receiver)
    requires WellFormed(rec) && ValidReceiver(r)
    ensures LoadRecord(Encode(rec) + rest, r) ==
      var a := Apply(r, rec); if a.None? then Failed else Loaded(rest, a.value, rec.Eos?)
  {
    hide LoadRecord, Encode, Apply, WellFormed;
    if rec.Fill? || rec.Page? {
      LoadEncodedFillOrPage(rec, rest, r);
    } else if rec.Header? {
      LoadEncodedHeader(rec.entries, rest, r);
    } else {
      LoadEncodedEos(rest, r);
      ApplyEos(r);
    }
  }

  lemma ApplyEos(r: Receiver)
    requires ValidReceiver(r)
    ensures Apply(r, Eos) == Some(r)
  {}
}
