/** Byte-granular access over 512-byte sectors: bdrv_pread and bdrv_pwrite of vmm/block.c. */
module ByteAccess {
  import opened Common
  import opened Buffers

  type Byte = bv8

  type Sector = s: seq<Byte> | |s| == SECTOR_SIZE witness seq(SECTOR_SIZE, i => 0)

  // ---------- Sectors as one flat array of bytes ----------

  function Flat(s: seq<Sector>): (b: seq<Byte>)
    ensures |b| == SECTOR_SIZE * |s|
  {
    if s == [] then [] else s[0] + Flat(s[1..])
  }

  function Chunks(b: seq<Byte>): (s: seq<Sector>)
    requires |b| % SECTOR_SIZE == 0
    ensures SECTOR_SIZE * |s| == |b|
  {
    if b == [] then [] else [b[..SECTOR_SIZE]] + Chunks(b[SECTOR_SIZE..])
  }

  lemma {:induction false} FlatChunks(b: seq<Byte>)
    requires |b| % SECTOR_SIZE == 0
    ensures Flat(Chunks(b)) == b
    decreases |b|
  {
    if b != [] {
      FlatChunks(b[SECTOR_SIZE..]);
      assert Chunks(b)[1..] == Chunks(b[SECTOR_SIZE..]);
    }
  }

  lemma {:induction false} FlatAppend(s: seq<Sector>, t: seq<Sector>)
    ensures Flat(s + t) == Flat(s) + Flat(t)
    decreases |s|
  {
    if s == [] {
      assert s + t == t;
    } else {
      FlatAppend(s[1..], t);
      assert (s + t)[1..] == s[1..] + t;
      assert s[0] + (Flat(s[1..]) + Flat(t)) == (s[0] + Flat(s[1..])) + Flat(t);
    }
  }

  lemma FlatMiddle(a: seq<Sector>, b: seq<Sector>, c: seq<Sector>)
    ensures Flat(a + (b + c))[SECTOR_SIZE * |a|..SECTOR_SIZE * (|a| + |b|)] == Flat(b)
  {
    hide Flat;
    FlatAppend(a, b + c);
    FlatAppend(b, c);
    MiddleSlice(Flat(a), Flat(b), Flat(c));
  }

  lemma FlatSlice(s: seq<Sector>, i: nat, n: nat)
    requires i + n <= |s|
    ensures Flat(s)[SECTOR_SIZE * i..SECTOR_SIZE * (i + n)] == Flat(s[i..i + n])
  {
    hide Flat;
    SplitThree(s, i, n);
    FlatMiddle(s[..i], s[i..i + n], s[i + n..]);
  }

  lemma {:induction false} FlatSplice(s: seq<Sector>, i: nat, t: seq<Sector>)
    requires i + |t| <= |s|
    ensures Flat(Splice(s, i, t)) == Splice(Flat(s), SECTOR_SIZE * i, Flat(t))
  {
    hide Flat, Splice;
    var a, b, c := s[..i], s[i..i + |t|], s[i + |t|..];
    SplitThree(s, i, |t|);
    SpliceMiddle(a, b, c, t);
    FlatAppend(a, b + c);
    FlatAppend(b, c);
    FlatAppend(a, t + c);
    FlatAppend(t, c);
    SpliceMiddle(Flat(a), Flat(b), Flat(c), Flat(t));
  }

  /** The head of an unaligned access runs from offset to the next sector boundary. */
  lemma HeadLength(offset: int)
    ensures var head := (SECTOR_SIZE - offset) % SECTOR_SIZE;
      && (head > 0 ==> offset % SECTOR_SIZE == SECTOR_SIZE - head)
      && (head > 0 ==> SECTOR_SIZE * (offset / SECTOR_SIZE + 1) == offset + head)
      && (head == 0 ==> SECTOR_SIZE * (offset / SECTOR_SIZE) == offset)
  {
    var q, r := offset / SECTOR_SIZE, offset % SECTOR_SIZE;
    assert SECTOR_SIZE - offset == SECTOR_SIZE * (-q) + (SECTOR_SIZE - r);
  }

  /** The first n bytes of buf are those of `all` from offset on; the rest is as it was. */
  ghost predicate Got(buf: seq<Byte>, was: seq<Byte>, all: seq<Byte>, offset: int, n: nat) {
    && n <= |was|
    && (n == 0 ==> buf == was)
    && (n > 0 ==> 0 <= offset && offset + n <= |all| && buf == Splice(was, 0, all[offset..offset + n]))
  }

  lemma GotNothing(was: seq<Byte>, all: seq<Byte>, offset: int)
    ensures Got(was, was, all, offset, 0)
  {}

  lemma GotMore(buf: seq<Byte>, was: seq<Byte>, all: seq<Byte>, offset: int, n: nat, len: nat)
    requires Got(buf, was, all, offset, n) && len > 0 && n + len <= |was| == |buf|
    requires 0 <= offset && offset + n + len <= |all|
    ensures Got(Splice(buf, n, all[offset + n..offset + n + len]), was, all, offset, n + len)
  {
    hide Splice;
    var more := all[offset + n..offset + n + len];
    if n == 0 {
    } else {
      SpliceAdjacent(was, 0, all[offset..offset + n], more);
      SliceJoin(all, offset, offset + n, offset + n + len);
    }
  }

  /** The device holds what it held, with the first n bytes of data written at offset. */
  ghost predicate Wrote(now: seq<Byte>, was: seq<Byte>, offset: int, data: seq<Byte>, n: nat) {
    && n <= |data|
    && (n == 0 ==> now == was)
    && (n > 0 ==> 0 <= offset && offset + n <= |was| && now == Splice(was, offset, data[..n]))
  }

  lemma WroteNothing(was: seq<Byte>, offset: int, data: seq<Byte>)
    ensures Wrote(was, was, offset, data, 0)
  {}

  lemma WroteRange(now: seq<Byte>, was: seq<Byte>, offset: int, data: seq<Byte>, n: nat)
    requires Wrote(now, was, offset, data, n)
    ensures 0 <= offset || n == 0
  {}

  lemma WroteMore(now: seq<Byte>, was: seq<Byte>, offset: int, data: seq<Byte>, n: nat, len: nat)
    requires Wrote(now, was, offset, data, n) && len > 0 && n + len <= |data|
    requires 0 <= offset && offset + n + len <= |was| == |now|
    ensures Wrote(Splice(now, offset + n, data[n..n + len]), was, offset, data, n + len)
  {
    hide Splice;
    if n > 0 {
      SpliceAdjacent(was, offset, data[..n], data[n..n + len]);
      assert data[..n] + data[n..n + len] == data[..n + len];
    } else {
      assert data[0..len] == data[..len];
    }
  }

  /** Reading the bytes of a successful write gives them back; any other read is unaffected. */
  lemma ReadBack(now: seq<Byte>, was: seq<Byte>, offset: int, data: seq<Byte>, other: nat, n: nat)
    requires Wrote(now, was, offset, data, |data|) && data != []
    requires other + n <= |was| && (other + n <= offset || offset + |data| <= other)
    ensures now[offset..offset + |data|] == data
    ensures now[other..other + n] == was[other..other + n]
  {
    forall k | other <= k < other + n ensures now[k] == was[k] {}
  }

  /** Writing back a sector with a changed part changes just that part. */
  lemma ReadModifyWrite(s: seq<Byte>, p: nat, m: nat, at: nat, b: seq<Byte>)
    requires p + m <= |s| && at + |b| <= m
    ensures Splice(s, p, Splice(s[p..p + m], at, b)) == Splice(s, p + at, b)
  {
    hide Splice;
    var x := Splice(s[p..p + m], at, b);
    forall i | 0 <= i < |s| ensures Splice(s, p, x)[i] == Splice(s, p + at, b)[i] {
      SpliceAt(s, p, x, i);
      SpliceAt(s, p + at, b, i);
      if p <= i < p + m {
        SpliceAt(s[p..p + m], at, b, i - p);
      }
    }
  }

  // ---------- The device ----------

  class Device {
    var sectors: seq<Sector>
    const healthy: bool  // a healthy device serves every request that is in range

    ghost function Bytes(): seq<Byte>
      reads this
    {
      Flat(sectors)
    }

    constructor (sectors: seq<Sector>, healthy: bool)
      ensures this.sectors == sectors && this.healthy == healthy
    {
      this.sectors, this.healthy := sectors, healthy;
    }

    predicate InRange(sector: int, n: int)
      reads this
    {
      0 <= sector && 0 <= n && sector + n <= |sectors|
    }

    /** bdrv_read: fails outside the device, and at will on a device that is not healthy. */
    method Read(sector: int, n: int) returns (ret: int, data: seq<Byte>)
      ensures ret < 0 || (ret == 0 && InRange(sector, n))
      ensures healthy && InRange(sector, n) ==> ret == 0
      ensures ret == 0 ==> data == Bytes()[SECTOR_SIZE * sector..SECTOR_SIZE * (sector + n)]
    {
      var fault: bool := *;
      if !InRange(sector, n) || (fault && !healthy) {
        return -EIO, [];
      }
      FlatSlice(sectors, sector, n);
      return 0, Flat(sectors[sector..sector + n]);
    }

    /** bdrv_write: a failed write changes nothing. */
    method Write(sector: int, data: seq<Byte>) returns (ret: int)
      requires |data| % SECTOR_SIZE == 0
      modifies this
      ensures ret < 0 || (ret == 0 && InRange(sector, |data| / SECTOR_SIZE))
      ensures healthy && InRange(sector, |data| / SECTOR_SIZE) ==> ret == 0
      ensures |sectors| == |old(sectors)|
      ensures ret == 0 ==> Bytes() == Splice(old(Bytes()), SECTOR_SIZE * sector, data)
      ensures ret < 0 ==> Bytes() == old(Bytes())
    {
      var fault: bool := *;
      if !InRange(sector, |data| / SECTOR_SIZE) || (fault && !healthy) {
        return -EIO;
      }
      FlatSplice(sectors, sector, Chunks(data));
      FlatChunks(data);
      sectors := Splice(sectors, sector, Chunks(data));
      return 0;
    }

    /** Bytes [offset, offset + count) lie on the device. */
    ghost predicate Holds(offset: int, count: nat)
      reads this
    {
      0 <= offset && offset + count <= SECTOR_SIZE * |sectors|
    }

    /** Read one sector and copy bytes [at, at + len) of it, the next ones of the request. */
    method ReadPart(sector: int, at: nat, len: nat, buf: array<Byte>, n: nat, ghost was: seq<Byte>, ghost offset: int)
      returns (ret: int)
      requires 0 < len && at + len <= SECTOR_SIZE && SECTOR_SIZE * sector + at == offset + n
      requires n + len <= buf.Length == |was| && Got(buf[..], was, Bytes(), offset, n)
      modifies buf
      ensures ret < 0 || ret == 0
      ensures healthy && Holds(offset, n + len) ==> ret == 0
      ensures ret == 0 ==> Got(buf[..], was, Bytes(), offset, n + len)
    {
      hide Flat, Splice;
      var tmp;
      ret, tmp := Read(sector, 1);
      if ret == 0 {
        SliceOfSlice(Bytes(), SECTOR_SIZE * sector, SECTOR_SIZE * (sector + 1), at, at + len);
        GotMore(buf[..], was, Bytes(), offset, n, len);
        Copy(buf, n, tmp[at..at + len]);
      }
    }

    /** Read whole sectors in place. */
    method ReadWhole(sector: int, sectorCount: nat, buf: array<Byte>, n: nat, ghost was: seq<Byte>, ghost offset: int)
      returns (ret: int)
      requires 0 < sectorCount && SECTOR_SIZE * sector == offset + n
      requires n + SECTOR_SIZE * sectorCount <= buf.Length == |was| && Got(buf[..], was, Bytes(), offset, n)
      modifies buf
      ensures ret < 0 || ret == 0
      ensures healthy && Holds(offset, n + SECTOR_SIZE * sectorCount) ==> ret == 0
      ensures ret == 0 ==> Got(buf[..], was, Bytes(), offset, n + SECTOR_SIZE * sectorCount)
    {
      hide Flat, Splice;
      var data;
      ret, data := Read(sector, sectorCount);
      if ret == 0 {
        GotMore(buf[..], was, Bytes(), offset, n, SECTOR_SIZE * sectorCount);
        Copy(buf, n, data);
      }
    }

    /** bdrv_pread: a successful read returns exactly the bytes asked for. */
    method Pread(offset: int, buf: array<Byte>, count1: nat) returns (ret: int)
      requires count1 <= buf.Length
      modifies buf
      ensures ret < 0 || ret == count1
      ensures healthy && Holds(offset, count1) ==> ret == count1
      ensures ret >= 0 ==> Got(buf[..], old(buf[..]), Bytes(), offset, count1)
    {
      hide Flat, Got;
      ghost var was := buf[..];
      assert Got(buf[..], was, Bytes(), offset, 0) by { GotNothing(was, Bytes(), offset); }
      var count := count1;
      HeadLength(offset);
      var len := (SECTOR_SIZE - offset) % SECTOR_SIZE;
      if len > count {
        len := count;
      }
      var sector, pos := offset / SECTOR_SIZE, 0;
      if len > 0 {
        ret := ReadPart(sector, offset % SECTOR_SIZE, len, buf, 0, was, offset);
        if ret < 0 {
          return;
        }
        count := count - len;
        if count == 0 {
          return count1;
        }
        sector, pos := sector + 1, len;
      }
      var sectorCount := count / SECTOR_SIZE;
      if sectorCount > 0 {
        ret := ReadWhole(sector, sectorCount, buf, pos, was, offset);
        if ret < 0 {
          return;
        }
        sector := sector + sectorCount;
        len := SECTOR_SIZE * sectorCount;
        pos, count := pos + len, count - len;
      }
      if count > 0 {
        ret := ReadPart(sector, 0, count, buf, pos, was, offset);
        if ret < 0 {
          return;
        }
      }
      return count1;
    }

    /** Read a sector, replace the bytes from `at` on by the next ones of data, and write it back. */
    method WritePart(sector: int, at: nat, len: nat, data: seq<Byte>, n: nat, ghost was: seq<Byte>, ghost offset: int)
      returns (ret: int)
      requires 0 < len && at + len <= SECTOR_SIZE && SECTOR_SIZE * sector + at == offset + n
      requires 0 <= offset || n == 0
      requires n + len <= |data| && |was| == |Bytes()| && Wrote(Bytes(), was, offset, data, n)
      modifies this
      ensures |sectors| == |old(sectors)|
      ensures ret < 0 || ret == 0
      ensures healthy && Holds(offset, n + len) ==> ret == 0
      ensures Wrote(Bytes(), was, offset, data, if ret == 0 then n + len else n)
    {
      hide Flat, Splice, Wrote;
      var tmp;
      ret, tmp := Read(sector, 1);
      if ret < 0 {
        return;
      }
      ReadModifyWrite(Bytes(), SECTOR_SIZE * sector, SECTOR_SIZE, at, data[n..n + len]);
      WroteMore(Bytes(), was, offset, data, n, len);
      ret := Write(sector, Splice(tmp, at, data[n..n + len]));
    }

    /** Write whole sectors in place. */
    method WriteWhole(sector: int, sectorCount: nat, data: seq<Byte>, n: nat, ghost was: seq<Byte>, ghost offset: int)
      returns (ret: int)
      requires 0 < sectorCount && SECTOR_SIZE * sector == offset + n
      requires 0 <= offset || n == 0
      requires n + SECTOR_SIZE * sectorCount <= |data| && |was| == |Bytes()| && Wrote(Bytes(), was, offset, data, n)
      modifies this
      ensures |sectors| == |old(sectors)|
      ensures ret < 0 || ret == 0
      ensures healthy && Holds(offset, n + SECTOR_SIZE * sectorCount) ==> ret == 0
      ensures Wrote(Bytes(), was, offset, data, if ret == 0 then n + SECTOR_SIZE * sectorCount else n)
    {
      hide Flat, Splice, Wrote;
      if InRange(sector, sectorCount) {
        WroteMore(Bytes(), was, offset, data, n, SECTOR_SIZE * sectorCount);
      }
      ret := Write(sector, data[n..n + SECTOR_SIZE * sectorCount]);
    }

    /** bdrv_pwrite: a successful write changes exactly the bytes of the request; a failed one has
        written some prefix of them and nothing else. */
    method Pwrite(offset: int, data: seq<Byte>) returns (ret: int)
      modifies this
      ensures |sectors| == |old(sectors)|
      ensures ret < 0 || ret == |data|
      ensures healthy && Holds(offset, |data|) ==> ret == |data|
      ensures ret >= 0 ==> Wrote(Bytes(), old(Bytes()), offset, data, |data|)
      ensures ret < 0 ==> exists n: nat :: n < |data| && Wrote(Bytes(), old(Bytes()), offset, data, n)
    {
      hide Flat, Wrote;
      ghost var was := Bytes();
      WroteNothing(was, offset, data);
      var count := |data|;
      HeadLength(offset);
      var len := (SECTOR_SIZE - offset) % SECTOR_SIZE;
      if len > count {
        len := count;
      }
      var sector, pos := offset / SECTOR_SIZE, 0;
      if len > 0 {
        ret := WritePart(sector, offset % SECTOR_SIZE, len, data, 0, was, offset);
        if ret < 0 {
          return;
        }
        count := count - len;
        if count == 0 {
          return |data|;
        }
        sector, pos := sector + 1, len;
        WroteRange(Bytes(), was, offset, data, pos);
      }
      var sectorCount := count / SECTOR_SIZE;
      if sectorCount > 0 {
        ret := WriteWhole(sector, sectorCount, data, pos, was, offset);
        if ret < 0 {
          return;
        }
        sector := sector + sectorCount;
        len := SECTOR_SIZE * sectorCount;
        pos, count := pos + len, count - len;
        WroteRange(Bytes(), was, offset, data, pos);
      }
      if count > 0 {
        ret := WritePart(sector, 0, count, data, pos, was, offset);
        if ret < 0 {
          return;
        }
      }
      return |data|;
    }

    /** memcpy */
    static method Copy(buf: array<Byte>, pos: nat, data: seq<Byte>)
      requires pos + |data| <= buf.Length
      modifies buf
      ensures buf[..] == Splice(old(buf[..]), pos, data)
    {
      forall i | 0 <= i < |data| {
        buf[pos + i] := data[i];
      }
    }
  }
}
