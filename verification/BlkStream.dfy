/** The block section of a migration stream, as blk_send and block_save_live of vmm/block-migration.c
    write it and block_load reads it back. */
module BlkStream {
  import opened Common
  import opened Bits
  import opened Buffers
  import opened RamStream

  const SECTOR_FLAGS := 511  // ~BDRV_SECTOR_MASK
  const BLOCK_SIZE := 1048576  // CHUNK_SECTORS << BDRV_SECTOR_BITS

  const FLAG_DEVICE_BLOCK := 0x01
  const FLAG_END := 0x02
  const FLAG_PROGRESS := 0x04

  datatype Rec =
    | DeviceBlock(sector: nat, name: seq<Byte>, buf: seq<Byte>)
    | Progress(percent: nat)
    | End

  ghost predicate WellFormedRec(rec: Rec) {
    match rec
    case DeviceBlock(sector, name, buf) =>
      SECTOR_SIZE * sector < 0x8000_0000_0000_0000 && GoodId(name) && |buf| == BLOCK_SIZE
    case Progress(percent) => percent <= 100
    case End => true
  }

  function EncodeRec(rec: Rec): seq<Byte>
    requires WellFormedRec(rec)
  {
    match rec
    case DeviceBlock(sector, name, buf) => Be(Or(SECTOR_SIZE * sector, FLAG_DEVICE_BLOCK), 8) + EncodeId(name) + buf
    case Progress(percent) => Be(Or(SECTOR_SIZE * percent, FLAG_PROGRESS), 8)
    case End => Be(FLAG_END, 8)
  }

  /** On the wire the flags are the low bits of the first number, under the sector or the percentage. */
  lemma FlagsOnWire(rec: Rec)
    requires WellFormedRec(rec)
    ensures |EncodeRec(rec)| >= 8
    ensures EncodeRec(rec)[..8] == match rec {
      case DeviceBlock(sector, _, _) => Be(512 * sector + 1, 8)
      case Progress(percent) => Be(512 * percent + 4, 8)
      case End => Be(2, 8)
    }
  {
    hide Be, Or;
    match rec
    case DeviceBlock(sector, _, _) => OrFlag(sector, FLAG_DEVICE_BLOCK);
    case Progress(percent) => OrFlag(percent, FLAG_PROGRESS);
    case End =>
  }

  lemma OrFlag(v: nat, flag: nat)
    requires flag < 8
    ensures Or(SECTOR_SIZE * v, flag) == SECTOR_SIZE * v + flag
  {
    hide Or;
    assert Pow2(9) == SECTOR_SIZE;
    ModUnique(SECTOR_SIZE * v, SECTOR_SIZE, v, 0);
    OrDisjoint(SECTOR_SIZE * v, flag, 9);
  }

  // ---------- The destination's devices ----------

  datatype Dest = Dest(names: seq<seq<Byte>>, disks: seq<seq<Byte>>)

  ghost predicate ValidDest(r: Dest) { |r.names| == |r.disks| }

  /** bdrv_write of the first sectors of a buffer: a chunk, or what is left of the device. */
  function WriteChunk(disk: seq<Byte>, sector: nat, buf: seq<Byte>): (d: Option<seq<Byte>>)
    requires |buf| == BLOCK_SIZE
    ensures d.Some? ==> |d.value| == |disk|
  {
    var total := |disk| / SECTOR_SIZE;
    if total == 0 || total < sector then None
    else
      var n := if total - sector < CHUNK_SECTORS then total - sector else CHUNK_SECTORS;
      Some(Splice(disk, SECTOR_SIZE * sector, buf[..SECTOR_SIZE * n]))
  }

  /** What a record means to the destination; None stands for an error. */
  function ApplyRec(r: Dest, rec: Rec): (n: Option<Dest>)
    requires ValidDest(r) && (rec.DeviceBlock? ==> |rec.buf| == BLOCK_SIZE)
    ensures n.Some? ==> ValidDest(n.value)
  {
    match rec
    case DeviceBlock(sector, name, buf) =>
      var i := Find(r.names, name);
      if i.None? then None
      else
        var d := WriteChunk(r.disks[i.value], sector, buf);
        if d.None? then None else Some(r.(disks := r.disks[i.value := d.value]))
    case Progress(_) => Some(r)
    case End => Some(r)
  }

  // ---------- block_load on bytes ----------

  datatype LoadedRec = BadRec | LoadedRec(rest: seq<Byte>, r: Dest, end: bool)

  function LoadBlock(sector: nat, s: seq<Byte>, r: Dest, end: bool): (l: LoadedRec)
    requires ValidDest(r)
    ensures l.LoadedRec? ==> |l.rest| < |s| && ValidDest(l.r)
  {
    var idr := TakeId(s);
    if idr.None? || |idr.value.1| < BLOCK_SIZE then BadRec
    else
      var n := ApplyRec(r, DeviceBlock(sector, idr.value.0, idr.value.1[..BLOCK_SIZE]));
      if n.None? then BadRec else LoadedRec(idr.value.1[BLOCK_SIZE..], n.value, end)
  }

  /** One iteration of block_load, after the first number was read. */
  function LoadFlagged(flags: nat, sector: nat, s: seq<Byte>, r: Dest): (l: LoadedRec)
    requires ValidDest(r)
    ensures l.LoadedRec? ==> |l.rest| <= |s| && ValidDest(l.r)
  {
    if Has(flags, FLAG_DEVICE_BLOCK) then LoadBlock(sector, s, r, Has(flags, FLAG_END))
    else if Has(flags, FLAG_PROGRESS) || Has(flags, FLAG_END) then LoadedRec(s, r, Has(flags, FLAG_END))
    else BadRec
  }

  function LoadRec(s: seq<Byte>, r: Dest): (l: LoadedRec)
    requires ValidDest(r)
    ensures l.LoadedRec? ==> |l.rest| < |s| && ValidDest(l.r)
  {
    if |s| < 8 then BadRec
    else
      var mark := FromBe(s[..8]);
      LoadFlagged(And(mark, SECTOR_FLAGS), mark / SECTOR_SIZE, s[8..], r)
  }

  lemma SplitSector(sector: nat, flag: nat, mark: nat)
    requires SECTOR_SIZE * sector < 0x8000_0000_0000_0000 && flag in {1, 2, 4}
    requires mark == Or(SECTOR_SIZE * sector, flag)
    ensures mark <= ULONG_MAX && And(mark, SECTOR_FLAGS) == flag && mark / SECTOR_SIZE == sector
  {
    hide Or, And, Pow2;
    assert Pow2(9) == 512 by { NinthPower(); }
    OrDisjoint(SECTOR_SIZE * sector, flag, 9);
    AndLowMask(mark, 9);
  }

  lemma NinthPower() ensures Pow2(9) == 512 && Pow2(0) == 1 && Pow2(1) == 2 && Pow2(2) == 4 {}

  lemma RecFlags(f: nat)
    requires f in {1, 2, 4}
    ensures Has(f, FLAG_DEVICE_BLOCK) == (f == 1) && Has(f, FLAG_END) == (f == 2) && Has(f, FLAG_PROGRESS) == (f == 4)
  {
    hide And, Bit, Pow2;
    NinthPower();
    AndPow2(f, 0);
    AndPow2(f, 1);
    AndPow2(f, 2);
    BitHalf(f);
    BitByDivision(f);
  }

  lemma LoadMark(sector: nat, flag: nat, t: seq<Byte>, r: Dest)
    requires SECTOR_SIZE * sector < 0x8000_0000_0000_0000 && flag in {1, 2, 4} && ValidDest(r)
    ensures LoadRec(Be(Or(SECTOR_SIZE * sector, flag), 8) + t, r) == LoadFlagged(flag, sector, t, r)
  {
    hide Or, And, Be, FromBe, LoadFlagged;
    var mark := Or(SECTOR_SIZE * sector, flag);
    SplitSector(sector, flag, mark);
    Be64RoundTrip(mark);
    var s := Be(mark, 8) + t;
    assert s[..8] == Be(mark, 8) && s[8..] == t;
  }

  lemma LoadEncodedBlock(rec: Rec, rest: seq<Byte>, r: Dest)
    requires WellFormedRec(rec) && rec.DeviceBlock? && ValidDest(r)
    ensures LoadBlock(rec.sector, EncodeId(rec.name) + (rec.buf + rest), r, false) ==
      var n := ApplyRec(r, rec); if n.None? then BadRec else LoadedRec(rest, n.value, false)
  {
    hide EncodeId, TakeId, ApplyRec;
    TakeEncodedId(rec.name, rec.buf + rest);
    var t := rec.buf + rest;
    assert t[..BLOCK_SIZE] == rec.buf && t[BLOCK_SIZE..] == rest;
  }

  /** Reading back a record does what the record means and consumes exactly its bytes. */
  lemma LoadEncodedRec(rec: Rec, rest: seq<Byte>, r: Dest)
    requires WellFormedRec(rec) && ValidDest(r)
    ensures LoadRec(EncodeRec(rec) + rest, r) ==
      var n := ApplyRec(r, rec); if n.None? then BadRec else LoadedRec(rest, n.value, rec.End?)
  {
    hide Has, Or, Be, EncodeId, LoadRec, LoadBlock, Find, WriteChunk;
    match rec {
      case DeviceBlock(sector, name, buf) =>
        var mark := Be(Or(SECTOR_SIZE * sector, FLAG_DEVICE_BLOCK), 8);
        var t := EncodeId(name) + (buf + rest);
        assert EncodeRec(rec) + rest == mark + t;
        LoadMark(sector, FLAG_DEVICE_BLOCK, t, r);
        RecFlags(FLAG_DEVICE_BLOCK);
        LoadEncodedBlock(rec, rest, r);
      case Progress(percent) =>
        LoadMark(percent, FLAG_PROGRESS, rest, r);
        RecFlags(FLAG_PROGRESS);
      case End =>
        assert Or(SECTOR_SIZE * 0, FLAG_END) == FLAG_END by { NinthPower(); OrDisjoint(0, FLAG_END, 9); }
        LoadMark(0, FLAG_END, rest, r);
        RecFlags(FLAG_END);
    }
  }
}
