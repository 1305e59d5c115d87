/** bdrv_commit of vmm/block.c: write the sectors an overlay has allocated into its backing image. */
module Commit {
  import opened Common
  import opened Buffers

  const COMMIT_BUF_SECTORS := 2048

  /** The guest-visible image: the overlay where it has a sector, else the backing image, else
      zeros past its end. */
  function View<S>(overlay: seq<Option<S>>, backing: seq<S>, zero: S): (v: seq<S>)
    ensures |v| == |overlay|
  {
    seq(|overlay|, i requires 0 <= i < |overlay| =>
      if overlay[i].Some? then overlay[i].value else if i < |backing| then backing[i] else zero)
  }

  /** Sectors [at, at + n) of the overlay are all allocated or all not. */
  ghost predicate Run<S>(overlay: seq<Option<S>>, at: nat, n: nat, alloc: bool) {
    at + n <= |overlay| && forall i :: at <= i < at + n ==> overlay[i].Some? == alloc
  }

  /** Every allocated sector lies within the backing image. */
  ghost predicate Fits<S>(overlay: seq<Option<S>>, backing: seq<S>) {
    forall i :: |backing| <= i < |overlay| ==> overlay[i].None?
  }

  /** The backing image after the allocated sectors below n were committed. */
  ghost predicate Committed<S>(now: seq<S>, was: seq<S>, overlay: seq<Option<S>>, n: nat) {
    && |now| == |was|
    && forall i :: 0 <= i < |was| ==>
         now[i] == if i < n && i < |overlay| && overlay[i].Some? then overlay[i].value else was[i]
  }

  /** However far a commit got, the guest sees the same image. */
  lemma ViewKept<S>(now: seq<S>, was: seq<S>, overlay: seq<Option<S>>, n: nat, zero: S)
    requires Committed(now, was, overlay, n)
    ensures View(overlay, now, zero) == View(overlay, was, zero)
  {}

  /** After a complete commit the backing image holds the merged view, and the overlay may be
      emptied without any change to what the guest sees. */
  lemma ViewMoved<S>(now: seq<S>, was: seq<S>, overlay: seq<Option<S>>, zero: S)
    requires Committed(now, was, overlay, |overlay|) && Fits(overlay, was)
    ensures forall i :: 0 <= i < |was| && i < |overlay| ==> now[i] == View(overlay, was, zero)[i]
    ensures forall i :: |overlay| <= i < |was| ==> now[i] == was[i]
    ensures View(seq(|overlay|, i => None), now, zero) == View(overlay, was, zero)
  {}

  lemma CommitRun<S>(now: seq<S>, was: seq<S>, overlay: seq<Option<S>>, at: nat, n: nat, data: seq<S>, zero: S)
    requires Committed(now, was, overlay, at) && Run(overlay, at, n, true) && at + n <= |now|
    requires data == View(overlay, now, zero)[at..at + n]
    ensures Committed(Splice(now, at, data), was, overlay, at + n)
  {
    forall i | at <= i < at + n ensures data[i - at] == overlay[i].value {}
  }

  class Overlay<S(0)> {
    var overlay: seq<Option<S>>
    var backing: seq<S>
    const zero: S
    const healthy: bool       // a healthy device serves every request that is in range
    const canMakeEmpty: bool  // the driver has bdrv_make_empty

    constructor (overlay: seq<Option<S>>, backing: seq<S>, zero: S, healthy: bool, canMakeEmpty: bool)
      ensures this.overlay == overlay && this.backing == backing && this.zero == zero
      ensures this.healthy == healthy && this.canMakeEmpty == canMakeEmpty
    {
      this.overlay, this.backing, this.zero := overlay, backing, zero;
      this.healthy, this.canMakeEmpty := healthy, canMakeEmpty;
    }

    /** bdrv_is_allocated: some run of at least one sector with the same allocation. */
    method IsAllocated(at: nat, max: nat) returns (alloc: bool, n: nat)
      requires at < |overlay| && 1 <= max
      ensures 1 <= n <= max && Run(overlay, at, n, alloc)
    {
      alloc, n := overlay[at].Some?, 1;
      while n < max && at + n < |overlay| && overlay[at + n].Some? == alloc
        invariant 1 <= n <= max && Run(overlay, at, n, alloc)
      {
        var stop: bool := *;
        if stop {
          break;
        }
        n := n + 1;
      }
    }

    /** bdrv_read of the overlay. */
    method Read(at: nat, n: nat) returns (ok: bool, data: seq<S>)
      requires at + n <= |overlay|
      ensures healthy ==> ok
      ensures ok ==> data == View(overlay, backing, zero)[at..at + n]
    {
      ok := *;
      ok, data := ok || healthy, View(overlay, backing, zero)[at..at + n];
    }

    /** bdrv_write to the backing image. */
    method WriteBacking(at: nat, data: seq<S>) returns (ok: bool)
      modifies this`backing
      ensures ok ==> at + |data| <= |old(backing)| && backing == Splice(old(backing), at, data)
      ensures !ok ==> backing == old(backing)
      ensures healthy && at + |data| <= |old(backing)| ==> ok
    {
      var fault: bool := *;
      ok := at + |data| <= |backing| && (healthy || !fault);
      if ok {
        backing := Splice(backing, at, data);
      }
    }

    /** bdrv_commit: whether it succeeds or fails, the guest sees the same image; on success the
        backing image holds that image. */
    method CommitAll() returns (ret: int)
      modifies this
      ensures |overlay| == |old(overlay)| && |backing| == |old(backing)|
      ensures View(overlay, backing, zero) == old(View(overlay, backing, zero))
      ensures ret == 0 ==>
        && old(Fits(overlay, backing))
        && (forall i :: 0 <= i < |backing| && i < |overlay| ==> backing[i] == old(View(overlay, backing, zero))[i])
        && (forall i :: |overlay| <= i < |backing| ==> backing[i] == old(backing[i]))
        && overlay == (if canMakeEmpty then seq(|old(overlay)|, i => None) else old(overlay))
      ensures healthy ==> (ret == 0 <==> old(Fits(overlay, backing)))
    {
      hide View, Committed;
      ghost var was, o := backing, overlay;
      var sector, n := 0, 0;
      StartCommit(was, o);
      while sector < |overlay|
        invariant 0 <= sector <= |overlay| && overlay == o && |backing| == |was|
        invariant Committed(backing, was, o, sector)
        invariant forall i :: |was| <= i < sector ==> o[i].None?
        decreases |overlay| - sector
      {
        var alloc;
        alloc, n := IsAllocated(sector, COMMIT_BUF_SECTORS);
        ViewKept(backing, was, o, sector, zero);
        if alloc {
          var ok, data := Read(sector, n);
          if !ok {
            return -EIO;
          }
          ghost var before := backing;
          ok := WriteBacking(sector, data);
          if !ok {
            assert !healthy || o[sector + n - 1].Some?;
            return -EIO;
          }
          CommitRun(before, was, o, sector, n, data, zero);
        } else {
          SkipRun(backing, was, o, sector, n);
        }
        sector := sector + n;
      }
      ViewKept(backing, was, o, |o|, zero);
      ViewMoved(backing, was, o, zero);
      ret := 0;
      if canMakeEmpty {
        var ok: bool := *;
        if ok || healthy {
          overlay := seq(|overlay|, i => None);
        } else {
          ret := -EIO;
        }
      }
    }
  }

  lemma StartCommit<S>(was: seq<S>, overlay: seq<Option<S>>)
    ensures Committed(was, was, overlay, 0)
  {}

  lemma SkipRun<S>(now: seq<S>, was: seq<S>, overlay: seq<Option<S>>, at: nat, n: nat)
    requires Committed(now, was, overlay, at) && Run(overlay, at, n, false)
    ensures Committed(now, was, overlay, at + n)
  {}
}
