/** Loading block sections: the loop of block_load in vmm/block-migration.c. */
module BlkLoad {
  import opened Common
  import opened Answers
  import opened Bits
  import opened Buffers
  import opened RamStream
  import opened BlkStream

  ghost predicate WellFormedRecs(recs: seq<Rec>) { forall i :: 0 <= i < |recs| ==> WellFormedRec(recs[i]) }

  ghost function EncodeRecs(recs: seq<Rec>): seq<Byte>
    requires WellFormedRecs(recs)
  {
    if recs == [] then [] else EncodeRecs(recs[..|recs| - 1]) + EncodeRec(recs[|recs| - 1])
  }

  ghost function ApplyRecs(r: Dest, recs: seq<Rec>): (n: Option<Dest>)
    requires ValidDest(r) && WellFormedRecs(recs)
    ensures n.Some? ==> ValidDest(n.value)
  {
    if recs == [] then Some(r)
    else
      var m := ApplyRecs(r, recs[..|recs| - 1]);
      assert WellFormedRec(recs[|recs| - 1]);
      if m.None? then None else ApplyRec(m.value, recs[|recs| - 1])
  }

  /** One call of block_load: records are read until one carries the end flag. */
  function LoadSection(s: seq<Byte>, r: Dest): (l: LoadedRec)
    requires ValidDest(r)
    ensures l.LoadedRec? ==> |l.rest| < |s| && ValidDest(l.r) && l.end
    decreases |s|
  {
    var l := LoadRec(s, r);
    if l.BadRec? || l.end then l else LoadSection(l.rest, l.r)
  }

  /** Loading section after section. */
  function LoadStream(s: seq<Byte>, r: Dest): (n: Option<Dest>)
    requires ValidDest(r)
    ensures n.Some? ==> ValidDest(n.value)
    decreases |s|
  {
    if s == [] then Some(r)
    else var l := LoadSection(s, r); if l.BadRec? then None else LoadStream(l.rest, l.r)
  }

  lemma RecsPrefix(recs: seq<Rec>, n: nat)
    requires WellFormedRecs(recs) && n <= |recs|
    ensures WellFormedRecs(recs[..n]) && WellFormedRecs(recs[n..])
  {
    hide WellFormedRec;
    assert forall i :: 0 <= i < n ==> recs[..n][i] == recs[i];
    assert forall i :: 0 <= i < |recs| - n ==> recs[n..][i] == recs[n + i];
  }

  lemma OneMoreRec(r: Dest, recs: seq<Rec>, rec: Rec)
    requires ValidDest(r) && WellFormedRecs(recs) && WellFormedRec(rec)
    ensures WellFormedRecs(recs + [rec]) && EncodeRecs(recs + [rec]) == EncodeRecs(recs) + EncodeRec(rec)
    ensures ApplyRecs(r, recs + [rec]) == var m := ApplyRecs(r, recs); if m.None? then None else ApplyRec(m.value, rec)
  {
    hide WellFormedRec, EncodeRec, ApplyRec;
    assert (recs + [rec])[..|recs|] == recs;
  }

  lemma {:induction false} EncodeBoth(a: seq<Rec>, b: seq<Rec>)
    requires WellFormedRecs(a) && WellFormedRecs(b)
    ensures WellFormedRecs(a + b) && EncodeRecs(a + b) == EncodeRecs(a) + EncodeRecs(b)
    decreases |b|
  {
    hide EncodeRec, WellFormedRec;
    if b == [] {
      assert a + b == a;
    } else {
      var n := |b| - 1;
      RecsPrefix(b, n);
      assert (a + b)[..|a| + n] == a + b[..n];
      EncodeBoth(a, b[..n]);
    }
  }

  lemma {:induction false} ApplyBoth(r: Dest, a: seq<Rec>, b: seq<Rec>)
    requires ValidDest(r) && WellFormedRecs(a) && WellFormedRecs(b) && WellFormedRecs(a + b)
    ensures ApplyRecs(r, a + b) == var m := ApplyRecs(r, a); if m.None? then None else ApplyRecs(m.value, b)
    decreases |b|
  {
    hide ApplyRec, WellFormedRec;
    if b == [] {
      assert a + b == a;
    } else {
      var n := |b| - 1;
      RecsPrefix(b, n);
      RecsPrefix(a + b, |a| + n);
      assert (a + b)[..|a| + n] == a + b[..n];
      ApplyBoth(r, a, b[..n]);
    }
  }

  lemma {:induction false} FrontRec(r: Dest, recs: seq<Rec>)
    requires recs != [] && WellFormedRecs(recs) && ValidDest(r)
    ensures WellFormedRecs(recs[1..]) && EncodeRecs(recs) == EncodeRec(recs[0]) + EncodeRecs(recs[1..])
    ensures ApplyRecs(r, recs) ==
      var m := ApplyRec(r, recs[0]); if m.None? then None else ApplyRecs(m.value, recs[1..])
  {
    hide EncodeRec, WellFormedRec, ApplyRec, EncodeRecs, ApplyRecs;
    var a, b := [recs[0]], recs[1..];
    RecsPrefix(recs, 1);
    assert recs == a + b && a == [] + [recs[0]];
    NoRecs(r);
    OneMoreRec(r, [], recs[0]);
    assert [] + EncodeRec(recs[0]) == EncodeRec(recs[0]);
    EncodeBoth(a, b);
    ApplyBoth(r, a, b);
  }

  /** Loading the bytes of a section does what its records mean, one after the other, and stops right
      after the section; it fails exactly when one of the records does. */
  lemma {:induction false} LoadEncodedSection(recs: seq<Rec>, rest: seq<Byte>, r: Dest)
    requires WellFormedRecs(recs) && ValidDest(r)
    requires recs != [] && forall i :: 0 <= i < |recs| ==> (recs[i].End? <==> i == |recs| - 1)
    ensures LoadSection(EncodeRecs(recs) + rest, r) ==
      var n := ApplyRecs(r, recs); if n.None? then BadRec else LoadedRec(rest, n.value, true)
    decreases |recs|
  {
    hide EncodeRec, ApplyRec, LoadRec, EncodeRecs, ApplyRecs;
    var more := recs[1..];
    assert forall i :: 0 <= i < |more| ==> more[i] == recs[i + 1];
    FrontRec(r, recs);
    assert EncodeRecs(recs) + rest == EncodeRec(recs[0]) + (EncodeRecs(more) + rest);
    LoadEncodedRec(recs[0], EncodeRecs(more) + rest, r);
    var m := ApplyRec(r, recs[0]);
    if m.Some? {
      if more == [] {
        assert EncodeRecs(more) + rest == rest by { NoRecs(r); }
        NoRecs(m.value);
      } else {
        LoadEncodedSection(more, rest, m.value);
      }
    }
  }

  lemma NoRecs(r: Dest)
    requires ValidDest(r)
    ensures EncodeRecs([]) == [] && ApplyRecs(r, []) == Some(r)
  {}

  ghost function FirstEnd(recs: seq<Rec>): (k: nat)
    requires recs != [] && recs[|recs| - 1].End?
    ensures k < |recs| && recs[k].End? && forall i :: 0 <= i < k ==> !recs[i].End?
  {
    if recs[0].End? then 0 else FirstEnd(recs[1..]) + 1
  }

  lemma EncodedSome(recs: seq<Rec>)
    requires WellFormedRecs(recs) && recs != []
    ensures EncodeRecs(recs) != []
  {
    hide EncodeId;
    assert |EncodeRec(recs[|recs| - 1])| >= 8;
  }

  /** Loading the bytes of whole sections does what their records mean, and fails exactly when a record
      does. */
  lemma {:induction false} LoadEncodedStream(recs: seq<Rec>, r: Dest)
    requires WellFormedRecs(recs) && ValidDest(r)
    requires recs != [] ==> recs[|recs| - 1].End?
    ensures LoadStream(EncodeRecs(recs), r) == ApplyRecs(r, recs)
    decreases |recs|
  {
    hide ApplyRec, WellFormedRec, EncodeRecs, ApplyRecs, LoadSection, FirstEnd;
    if recs == [] {
      NoRecs(r);
    } else {
      var k := FirstEnd(recs);
      var a, b := recs[..k + 1], recs[k + 1..];
      assert recs == a + b;
      RecsPrefix(recs, k + 1);
      EncodeBoth(a, b);
      ApplyBoth(r, a, b);
      LoadEncodedSection(a, EncodeRecs(b), r);
      EncodedSome(a);
      if ApplyRecs(r, a).Some? {
        LoadEncodedStream(b, ApplyRecs(r, a).value);
      }
    }
  }

  // ---------- block_load ----------

  /** The destination's block devices, and what their drivers will answer to writes. */
  class BlockReceiver {
    const names: seq<seq<Byte>>
    var disks: seq<seq<Byte>>
    var answers: seq<int>

    constructor (names: seq<seq<Byte>>, disks: seq<seq<Byte>>, answers: seq<int>)
      requires |names| == |disks|
      ensures Valid() && Value() == Dest(names, disks) && this.answers == answers
    {
      this.names, this.disks, this.answers := names, disks, answers;
    }

    ghost function Value(): Dest
      reads this`disks
    {
      Dest(names, disks)
    }

    ghost predicate Valid()
      reads this`disks
    {
      ValidDest(Value())
    }

    /** bdrv_write, which refuses sectors outside the device; the driver may refuse too, and then the sectors
        may hold anything. */
    method WriteSectors(dev: nat, sector: nat, n: int, buf: seq<Byte>) returns (ret: int)
      requires Valid() && dev < |disks| && SECTOR_SIZE * n <= |buf|
      modifies this`disks, this`answers
      ensures Valid() && ret <= 0
      ensures var fits := 0 <= n && SECTOR_SIZE * (sector + n) <= |old(disks)[dev]|;
        && answers == (if fits then Rest(old(answers)) else old(answers))
        && (ret == 0 <==> fits && !Refuses(old(answers)))
        && (fits && Refuses(old(answers)) ==> ret == old(answers)[0])
      ensures ret == 0 ==>
        disks == old(disks)[dev := Splice(old(disks)[dev], SECTOR_SIZE * sector, buf[..SECTOR_SIZE * n])]
    {
      if n < 0 || SECTOR_SIZE * (sector + n) > |disks[dev]| {
        return -EIO;
      }
      var data := buf[..SECTOR_SIZE * n];
      ret := 0;
      if Refuses(answers) {
        ret := answers[0];
        var torn: seq<Byte> := *;
        data := if |torn| == SECTOR_SIZE * n then torn else data;
      }
      answers := Rest(answers);
      disks := disks[dev := Splice(disks[dev], SECTOR_SIZE * sector, data)];
    }

    /** The device part of a record; prev and prevTotal remember the length of the device used last. */
    method LoadDevice(sector: nat, s: seq<Byte>, prev: Option<nat>, prevTotal: int)
      returns (ret: int, rest: seq<Byte>, dev: Option<nat>, total: int)
      requires Valid() && (prev.Some? ==> prev.value < |disks| && prevTotal == |disks[prev.value]| / SECTOR_SIZE > 0)
      modifies this`disks, this`answers
      ensures Valid() && ret <= 0
      ensures ret == 0 ==> dev.Some? && dev.value < |disks| && total == |disks[dev.value]| / SECTOR_SIZE > 0
      ensures var loads := LoadBlock(sector, s, old(Value()), false).LoadedRec?;
        && answers == (if loads then Rest(old(answers)) else old(answers))
        && (ret == 0 <==> loads && !Refuses(old(answers)))
        && (loads && Refuses(old(answers)) ==> ret == old(answers)[0])
      ensures ret == 0 ==> LoadBlock(sector, s, old(Value()), false) == LoadedRec(rest, Value(), false)
    {
      hide Find, TakeId, Splice, Rest, Refuses;
      ret, rest, dev, total := -EINVAL, s, prev, prevTotal;
      var idr := TakeId(s);
      if idr.None? || |idr.value.1| < BLOCK_SIZE {
        return;
      }
      var (name, t) := idr.value;
      dev := Find(names, name);
      if dev.None? {
        return;
      }
      if dev != prev {
        total := |disks[dev.value]| / SECTOR_SIZE;
        if total <= 0 {
          return;
        }
      }
      var n := if total - sector < CHUNK_SECTORS then total - sector else CHUNK_SECTORS;
      var buf := t[..BLOCK_SIZE];
      ret := WriteSectors(dev.value, sector, n, buf);
      rest := t[BLOCK_SIZE..];
    }

    /** block_load returns 0 exactly when the section loads and no driver refuses a write, and then the
        devices are what the section makes of them. It stops at the first write that a driver refuses, with
        the driver's error. */
    method BlockLoad(s: seq<Byte>) returns (ret: int, rest: seq<Byte>)
      requires Valid()
      modifies this`disks, this`answers
      ensures Valid() && ret <= 0 && |answers| <= |old(answers)|
      ensures ret == 0 <==> LoadSection(s, old(Value())).LoadedRec? && AllGood(Used(old(answers), answers))
      ensures ret == 0 ==> LoadSection(s, old(Value())) == LoadedRec(rest, Value(), true)
      ensures var used := Used(old(answers), answers);
        !AllGood(used) ==> used != [] && AllGood(used[..|used| - 1]) && ret == used[|used| - 1]
    {
      hide Has, And, FromBe, LoadBlock;
      rest := s;
      var prev: Option<nat>, total := None, 0;
      NoneAsked(answers, 0);
      while true
        invariant Valid() && (prev.Some? ==> prev.value < |disks| && total == |disks[prev.value]| / SECTOR_SIZE > 0)
        invariant LoadSection(rest, Value()) == LoadSection(s, old(Value()))
        invariant Answered(old(answers), answers, 0, 0)
        decreases |rest|
      {
        if |rest| < 8 {
          return -EIO, rest;
        }
        var mark := FromBe(rest[..8]);
        var flags, sector := And(mark, SECTOR_FLAGS), mark / SECTOR_SIZE;
        var t := rest[8..];
        if Has(flags, FLAG_DEVICE_BLOCK) {
          LoadBlockEnd(sector, t, Value(), Has(flags, FLAG_END));
          ghost var a, loads := answers, LoadBlock(sector, t, Value(), false).LoadedRec?;
          var loaded, u, dev, devTotal := LoadDevice(sector, t, prev, total);
          StopsAtRefusal(old(answers), a, answers, loads);
          if loaded < 0 {
            return loaded, rest;
          }
          t, prev, total := u, dev, devTotal;
        } else if !Has(flags, FLAG_PROGRESS) && !Has(flags, FLAG_END) {
          return -EINVAL, rest;
        }
        rest := t;
        if Has(flags, FLAG_END) {
          return 0, rest;
        }
      }
    }
  }

  lemma LoadBlockEnd(sector: nat, s: seq<Byte>, r: Dest, end: bool)
    requires ValidDest(r)
    ensures LoadBlock(sector, s, r, end) ==
      var l := LoadBlock(sector, s, r, false); if l.BadRec? then BadRec else LoadedRec(l.rest, l.r, end)
  {}
}
