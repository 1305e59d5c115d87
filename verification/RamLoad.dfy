/** Loading one RAM section: the loop of ram_load in vmm/arch_init.c, version 4 of the format. */
module RamLoad {
  import opened Common
  import opened Bits
  import opened Buffers
  import opened RamStream

  // ---------- A section and its bytes ----------

  ghost predicate WellFormedAll(recs: seq<Record>) { forall i :: 0 <= i < |recs| ==> WellFormed(recs[i]) }

  ghost function EncodeAll(recs: seq<Record>): seq<Byte>
    requires WellFormedAll(recs)
  {
    if recs == [] then [] else EncodeAll(recs[..|recs| - 1]) + Encode(recs[|recs| - 1])
  }

  ghost function ApplyAll(r: Receiver, recs: seq<Record>): (n: Option<Receiver>)
    requires ValidReceiver(r)
    ensures n.Some? ==> ValidReceiver(n.value)
  {
    if recs == [] then Some(r)
    else
      var m := ApplyAll(r, recs[..|recs| - 1]);
      if m.None? then None else Apply(m.value, recs[|recs| - 1])
  }

  /** One call of ram_load: records are read until one carries the end-of-section flag. */
  function LoadSection(s: seq<Byte>, r: Receiver): (l: Load)
    requires ValidReceiver(r)
    ensures l.Loaded? ==> |l.rest| < |s| && ValidReceiver(l.r) && l.eos
    decreases |s|
  {
    var l := LoadRecord(s, r);
    if l.Failed? || l.eos then l else LoadSection(l.rest, l.r)
  }

  lemma {:induction false} EncodeFront(recs: seq<Record>)
    requires recs != [] && WellFormedAll(recs)
    ensures WellFormedAll(recs[1..]) && EncodeAll(recs) == Encode(recs[0]) + EncodeAll(recs[1..])
    decreases |recs|
  {
    hide Encode, WellFormed;
    var n := |recs| - 1;
    if n == 0 {
      assert EncodeAll(recs[..0]) == [] && EncodeAll(recs[1..]) == [];
    } else {
      assert recs[..n][1..] == recs[1..][..n - 1];
      EncodeFront(recs[..n]);
    }
  }

  lemma {:induction false} ApplyFront(r: Receiver, recs: seq<Record>)
    requires recs != [] && ValidReceiver(r)
    ensures ApplyAll(r, recs) ==
      var m := Apply(r, recs[0]); if m.None? then None else ApplyAll(m.value, recs[1..])
    decreases |recs|
  {
    hide Apply;
    var n := |recs| - 1;
    if n == 0 {
      assert recs[..0] == [] && recs[1..] == [];
    } else {
      assert recs[..n][1..] == recs[1..][..n - 1];
      ApplyFront(r, recs[..n]);
    }
  }

  /** Loading the bytes of a section does what its records mean, one after the other, and stops right
      after the section; it fails exactly when one of the records does. */
  lemma {:induction false} LoadEncodedSection(recs: seq<Record>, rest: seq<Byte>, r: Receiver)
    requires WellFormedAll(recs) && ValidReceiver(r)
    requires recs != [] && forall i :: 0 <= i < |recs| ==> (recs[i].Eos? <==> i == |recs| - 1)
    ensures LoadSection(EncodeAll(recs) + rest, r) ==
      var n := ApplyAll(r, recs); if n.None? then Failed else Loaded(rest, n.value, true)
    decreases |recs|
  {
    hide Encode, Apply, LoadRecord, WellFormed, EncodeAll, ApplyAll;
    var more := recs[1..];
    assert forall i :: 0 <= i < |more| ==> more[i] == recs[i + 1];
    EncodeFront(recs);
    ApplyFront(r, recs);
    assert EncodeAll(recs) + rest == Encode(recs[0]) + (EncodeAll(more) + rest);
    LoadEncoded(recs[0], EncodeAll(more) + rest, r);
    var m := Apply(r, recs[0]);
    if m.Some? {
      if more == [] {
        assert EncodeAll(more) + rest == rest by { NoRecords(r); }
        NoRecords(m.value);
      } else {
        LoadEncodedSection(more, rest, m.value);
      }
    }
  }

  lemma NoRecords(r: Receiver)
    requires ValidReceiver(r)
    ensures EncodeAll([]) == [] && ApplyAll(r, []) == Some(r)
  {}

  // ---------- All sections of a stream ----------

  /** Loading section after section. */
  function LoadStream(s: seq<Byte>, r: Receiver): (n: Option<Receiver>)
    requires ValidReceiver(r)
    ensures n.Some? ==> ValidReceiver(n.value)
    decreases |s|
  {
    if s == [] then Some(r)
    else var l := LoadSection(s, r); if l.Failed? then None else LoadStream(l.rest, l.r)
  }

  lemma {:induction false} EncodeConcat(a: seq<Record>, b: seq<Record>)
    requires WellFormedAll(a + b)
    ensures WellFormedAll(a) && WellFormedAll(b) && EncodeAll(a + b) == EncodeAll(a) + EncodeAll(b)
    decreases |b|
  {
    hide Encode, WellFormed;
    assert forall i :: 0 <= i < |a| ==> a[i] == (a + b)[i];
    assert forall i :: 0 <= i < |b| ==> b[i] == (a + b)[|a| + i];
    if b == [] {
      assert a + b == a;
    } else {
      var n := |b| - 1;
      assert (a + b)[..|a| + n] == a + b[..n];
      EncodeConcat(a, b[..n]);
    }
  }

  lemma {:induction false} ApplyConcat(r: Receiver, a: seq<Record>, b: seq<Record>)
    requires ValidReceiver(r)
    ensures ApplyAll(r, a + b) == var m := ApplyAll(r, a); if m.None? then None else ApplyAll(m.value, b)
    decreases |b|
  {
    hide Apply;
    if b == [] {
      assert a + b == a;
    } else {
      var n := |b| - 1;
      assert (a + b)[..|a| + n] == a + b[..n];
      ApplyConcat(r, a, b[..n]);
    }
  }

  ghost function FirstEos(recs: seq<Record>): (k: nat)
    requires recs != [] && recs[|recs| - 1].Eos?
    ensures k < |recs| && recs[k].Eos? && forall i :: 0 <= i < k ==> !recs[i].Eos?
  {
    if recs[0].Eos? then 0 else FirstEos(recs[1..]) + 1
  }

  /** Loading the bytes of whole sections does what their records mean, and fails exactly when a record
      does. */
  lemma {:induction false} LoadEncodedStream(recs: seq<Record>, r: Receiver)
    requires WellFormedAll(recs) && ValidReceiver(r)
    requires recs != [] ==> recs[|recs| - 1].Eos?
    ensures LoadStream(EncodeAll(recs), r) == ApplyAll(r, recs)
    decreases |recs|
  {
    hide Apply, WellFormed, EncodeAll, ApplyAll, LoadSection, FirstEos;
    if recs == [] {
      NoRecords(r);
    } else {
      var k := FirstEos(recs);
      var a, b := recs[..k + 1], recs[k + 1..];
      assert recs == a + b;
      EncodeConcat(a, b);
      ApplyConcat(r, a, b);
      LoadEncodedSection(a, EncodeAll(b), r);
      EncodedNotEmpty(a);
      if ApplyAll(r, a).Some? {
        LoadEncodedStream(b, ApplyAll(r, a).value);
      }
    }
  }

  lemma EncodedNotEmpty(recs: seq<Record>)
    requires WellFormedAll(recs) && recs != []
    ensures EncodeAll(recs) != []
  {
    hide EncodeEntries, EncodeId;
    var rec := recs[|recs| - 1];
    assert |Encode(rec)| >= 8;
  }

  // ---------- ram_load ----------

  lemma {:induction false} FindFrom(ids: seq<seq<Byte>>, id: seq<Byte>, k: nat)
    requires k <= |ids| && id !in ids[..k]
    ensures Find(ids, id) == var i := Find(ids[k..], id); if i.None? then None else Some(i.value + k)
    decreases k
  {
    if k > 0 {
      assert id !in ids[..k - 1];
      FindFrom(ids, id, k - 1);
      assert ids[k - 1] in ids[..k] && ids[k - 1..][1..] == ids[k..];
    } else {
      assert ids[0..] == ids;
    }
  }

  /** The destination's RAM; current is the static variable of host_from_stream_offset. */
  class RamReceiver {
    const ids: seq<seq<Byte>>
    var mem: seq<seq<Byte>>
    var current: Option<nat>

    constructor (ids: seq<seq<Byte>>, mem: seq<seq<Byte>>)
      requires |ids| == |mem|
      ensures Valid() && Value() == Receiver(ids, mem, None)
    {
      this.ids, this.mem, current := ids, mem, None;
    }

    ghost function Value(): Receiver
      reads this
    {
      Receiver(ids, mem, current)
    }

    ghost predicate Valid()
      reads this
    {
      ValidReceiver(Value())
    }

    method FindBlock(id: seq<Byte>) returns (i: Option<nat>)
      ensures i == Find(ids, id)
    {
      var k := 0;
      while k < |ids|
        invariant k <= |ids| && id !in ids[..k]
      {
        if ids[k] == id {
          FindFrom(ids, id, k);
          return Some(k);
        }
        k := k + 1;
      }
      FindFrom(ids, id, k);
      i := None;
    }

    /** Checks the block list of a stage 1 header against the destination's blocks. */
    method LoadBlockList(totalBytes: nat, s: seq<Byte>) returns (t: Option<seq<Byte>>)
      requires Valid()
      ensures t == LoadEntries(totalBytes, s, Value())
    {
      hide Find, TakeId, FromBe;
      var total: nat, u := totalBytes, s;
      while total != 0
        invariant LoadEntries(total, u, Value()) == LoadEntries(totalBytes, s, Value())
        decreases |u|
      {
        var idr := TakeId(u);
        if idr.None? || |idr.value.1| < 8 {
          return None;
        }
        var (id, v) := idr.value;
        var length := FromBe(v[..8]);
        var block := FindBlock(id);
        if block.None? || |mem[block.value]| != length {
          return None;
        }
        total, u := (total - length) % (ULONG_MAX + 1), v[8..];
      }
      t := Some(u);
    }

    method HostFromStreamOffset(s: seq<Byte>, flags: nat) returns (block: Option<nat>, t: seq<Byte>)
      requires Valid()
      modifies this`current
      ensures Valid()
      ensures Has(flags, FLAG_CONTINUE) ==> t == s && block == current == old(current)
      ensures !Has(flags, FLAG_CONTINUE) ==>
        var idr := TakeId(s);
        if idr.None? then block.None? else t == idr.value.1 && block == current == Find(ids, idr.value.0)
    {
      hide Has, Find, TakeId;
      if Has(flags, FLAG_CONTINUE) {
        return current, s;
      }
      var idr := TakeId(s);
      if idr.None? {
        return None, s;
      }
      current := FindBlock(idr.value.0);
      return current, idr.value.1;
    }

    /** memset or qemu_get_buffer into the RAM of a block. */
    method WritePage(block: nat, offset: nat, data: seq<Byte>) returns (ok: bool)
      requires Valid() && block < |mem| && current == Some(block)
      modifies this`mem
      ensures Valid()
      ensures ok == SetPage(old(Value()), block, offset, data).Some?
      ensures ok ==> Value() == SetPage(old(Value()), block, offset, data).value
    {
      ok := offset + |data| <= |mem[block]|;
      if ok {
        mem := mem[block := Splice(mem[block], offset, data)];
      }
    }

    method LoadPageRecord(s: seq<Byte>, offset: nat, flags: nat) returns (ok: bool, rest: seq<Byte>)
      requires Valid()
      modifies this`mem, this`current
      ensures Valid()
      ensures ok == LoadPage(s, old(Value()), offset, flags).Loaded?
      ensures ok ==> LoadPage(s, old(Value()), offset, flags) == Loaded(rest, Value(), Has(flags, FLAG_EOS))
    {
      hide Has, Find, TakeId, SetPage, Filled;
      ghost var r := Value();
      var block, t := HostFromStreamOffset(s, flags);
      if block.None? {
        return false, s;
      }
      assert Value() == r.(current := block);
      SetPageAnyCurrent(r, block, block.value, offset);
      if Has(flags, FLAG_COMPRESS) {
        if |t| < 1 {
          return false, s;
        }
        ok := WritePage(block.value, offset, Filled(t[0]));
        return ok, t[1..];
      } else {
        if |t| < PAGE_SIZE {
          return false, s;
        }
        ok := WritePage(block.value, offset, t[..PAGE_SIZE]);
        return ok, t[PAGE_SIZE..];
      }
    }

    /** ram_load returns success exactly when the section loads, and then the RAM is what the section
        makes of it. */
    method RamLoad(s: seq<Byte>) returns (ok: bool, rest: seq<Byte>)
      requires Valid()
      modifies this`mem, this`current
      ensures Valid()
      ensures ok == LoadSection(s, old(Value())).Loaded?
      ensures ok ==> LoadSection(s, old(Value())) == Loaded(rest, Value(), true)
    {
      hide Has, LoadEntries, LoadPage, And, AndNot, FromBe;
      rest := s;
      while true
        invariant Valid()
        invariant LoadSection(rest, Value()) == LoadSection(s, old(Value()))
        decreases |rest|
      {
        if |rest| < 8 {
          return false, rest;
        }
        var mark := FromBe(rest[..8]);
        var flags, addr := And(mark, PAGE_OFFSET_MASK), AndNot(mark, PAGE_OFFSET_MASK);
        var t := rest[8..];
        if Has(flags, FLAG_MEM_SIZE) {
          var u := LoadBlockList(addr, t);
          if u.None? {
            return false, rest;
          }
          t := u.value;
        }
        if Has(flags, FLAG_COMPRESS) || Has(flags, FLAG_PAGE) {
          var loaded, u := LoadPageRecord(t, addr, flags);
          if !loaded {
            return false, rest;
          }
          t := u;
        }
        rest := t;
        if Has(flags, FLAG_EOS) {
          return true, rest;
        }
      }
    }
  }

  /** Where a page goes does not depend on the block remembered before. */
  lemma SetPageAnyCurrent(r: Receiver, current: Option<nat>, block: nat, offset: nat)
    requires block < |r.mem|
    ensures forall data :: SetPage(r.(current := current), block, offset, data) == SetPage(r, block, offset, data)
  {}
}
