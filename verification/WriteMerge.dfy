/** multiwrite_merge of vmm/block.c: sorted write requests are joined when they touch, and when the
    driver approves of zeros in the gap between them. */
module WriteMerge {
  import opened Common
  import opened Buffers

  /** A write of |data| sectors; niov is the number of pieces its vector consists of. */
  datatype Req<S> = Req(sector: nat, data: seq<S>, niov: nat)

  function End<S>(r: Req<S>): nat { r.sector + |r.data| }

  /** The unseen parts: the driver hook bdrv_merge_requests, if there is one, the number of pieces
      of a joined vector, and IOV_MAX. */
  datatype Driver<!S> = Driver(hasHook: bool, approves: (Req<S>, Req<S>) -> bool, pieces: (Req<S>, Req<S>) -> nat,
                               iovMax: nat)

  predicate ShouldMerge<S>(d: Driver<S>, a: Req<S>, b: Req<S>) {
    (b.sector <= End(a) || (d.hasHook && d.approves(a, b))) && a.niov + b.niov + 1 <= d.iovMax
  }

  function Zeros<S>(n: nat, zero: S): (z: seq<S>)
    ensures |z| == n
  {
    seq(n, i => zero)
  }

  /** The request that replaces a and b: the head of a, zeros over the gap if there is one, and b.
      What a writes past the end of b is dropped. */
  function Join<S>(d: Driver<S>, a: Req<S>, b: Req<S>, zero: S): (m: Req<S>)
    requires a.sector <= b.sector
    ensures m.sector == a.sector && End(m) == End(b)
  {
    var size := b.sector - a.sector;
    var head := if size <= |a.data| then a.data[..size] else a.data;
    var gap := if b.sector > End(a) then b.sector - End(a) else 0;
    Req(a.sector, head + Zeros(gap, zero) + b.data, d.pieces(a, b))
  }

  // ---------- What requests mean ----------

  predicate Covers<S>(r: Req<S>, x: nat) { r.sector <= x < End(r) }

  /** What the last request that covers sector x writes there. */
  function Written<S>(reqs: seq<Req<S>>, x: nat): Option<S> {
    if reqs == [] then None
    else
      var r := reqs[|reqs| - 1];
      if Covers(r, x) then Some(r.data[x - r.sector]) else Written(reqs[..|reqs| - 1], x)
  }

  function Apply<S>(disk: seq<S>, reqs: seq<Req<S>>): (r: seq<S>)
    requires forall i :: 0 <= i < |reqs| ==> End(reqs[i]) <= |disk|
    ensures |r| == |disk|
    decreases |reqs|
  {
    if reqs == [] then disk
    else
      var r := reqs[|reqs| - 1];
      assert End(r) <= |disk|;
      Splice(Apply(disk, reqs[..|reqs| - 1]), r.sector, r.data)
  }

  lemma {:induction false} ApplyAt<S>(disk: seq<S>, reqs: seq<Req<S>>, x: nat)
    requires (forall i :: 0 <= i < |reqs| ==> End(reqs[i]) <= |disk|) && x < |disk|
    ensures Apply(disk, reqs)[x] == if Written(reqs, x).Some? then Written(reqs, x).value else disk[x]
    decreases |reqs|
  {
    hide Splice;
    if reqs != [] {
      var r := reqs[|reqs| - 1];
      ApplyAt(disk, reqs[..|reqs| - 1], x);
      SpliceAt(Apply(disk, reqs[..|reqs| - 1]), r.sector, r.data, x);
    }
  }

  // ---------- Merging ----------

  /** One request more: it is joined to the last one kept, or kept itself. */
  function Step<S>(d: Driver<S>, out: seq<Req<S>>, r: Req<S>, zero: S): seq<Req<S>>
    requires out != [] && out[|out| - 1].sector <= r.sector
  {
    var k := |out| - 1;
    if ShouldMerge(d, out[k], r) then out[..k] + [Join(d, out[k], r, zero)] else out + [r]
  }

  ghost predicate Sorted<S>(reqs: seq<Req<S>>) {
    forall i, j :: 0 <= i < j < |reqs| ==> reqs[i].sector <= reqs[j].sector
  }

  /** multiwrite_merge over the first n of the sorted requests. The last request kept ends where the last
      original ends. */
  function Merge<S>(d: Driver<S>, reqs: seq<Req<S>>, n: nat, zero: S): (out: seq<Req<S>>)
    requires 1 <= n <= |reqs| && Sorted(reqs)
    ensures 1 <= |out| <= n
    ensures out[|out| - 1].sector <= reqs[n - 1].sector && End(out[|out| - 1]) == End(reqs[n - 1])
  {
    if n == 1 then [reqs[0]] else Step(d, Merge(d, reqs, n - 1, zero), reqs[n - 1], zero)
  }

  /** The last request kept of the first n. */
  function Last<S>(d: Driver<S>, reqs: seq<Req<S>>, n: nat, zero: S): (r: Req<S>)
    requires 1 <= n <= |reqs| && Sorted(reqs)
    ensures r.sector <= reqs[n - 1].sector && End(r) == End(reqs[n - 1])
  {
    var out := Merge(d, reqs, n, zero); out[|out| - 1]
  }

  /** Sector x lies in the gap before request i, and the driver approved of zeros there. */
  ghost predicate GapAt<S>(d: Driver<S>, reqs: seq<Req<S>>, zero: S, i: nat, x: nat)
    requires 1 <= i < |reqs| && Sorted(reqs)
  {
    End(reqs[i - 1]) <= x < reqs[i].sector && ShouldMerge(d, Last(d, reqs, i, zero), reqs[i])
  }

  ghost predicate InGap<S>(d: Driver<S>, reqs: seq<Req<S>>, n: nat, zero: S, x: nat)
    requires n <= |reqs| && Sorted(reqs)
  {
    exists i :: 1 <= i < n && GapAt(d, reqs, zero, i, x)
  }

  /** Request i is joined to one that reaches beyond it, and sector x lies there. */
  ghost predicate CutBy<S>(d: Driver<S>, reqs: seq<Req<S>>, zero: S, i: nat, x: nat)
    requires 1 <= i < |reqs| && Sorted(reqs)
  {
    End(reqs[i]) <= x < End(reqs[i - 1]) && ShouldMerge(d, Last(d, reqs, i, zero), reqs[i])
  }

  /** And no request after it writes sector x. */
  ghost predicate CutAt<S>(d: Driver<S>, reqs: seq<Req<S>>, n: nat, zero: S, i: nat, x: nat)
    requires 1 <= i < n <= |reqs| && Sorted(reqs)
  {
    CutBy(d, reqs, zero, i, x) && forall j :: i < j < n ==> !Covers(reqs[j], x)
  }

  ghost predicate CutOff<S>(d: Driver<S>, reqs: seq<Req<S>>, n: nat, zero: S, x: nat)
    requires n <= |reqs| && Sorted(reqs)
  {
    exists i :: 1 <= i < n && CutAt(d, reqs, n, zero, i, x)
  }

  /** What a cut lays bare: what the requests kept in front of the one that is cut write. */
  ghost function Behind<S>(d: Driver<S>, reqs: seq<Req<S>>, n: nat, zero: S, x: nat): Option<S>
    requires 1 <= n <= |reqs| && Sorted(reqs)
  {
    if n == 1 then None
    else if CutBy(d, reqs, zero, n - 1, x) then
      var out := Merge(d, reqs, n - 1, zero); Written(out[..|out| - 1], x)
    else Behind(d, reqs, n - 1, zero, x)
  }

  /** IOV_MAX is never the reason for keeping two requests apart. */
  ghost predicate PiecesFit<S>(d: Driver<S>, reqs: seq<Req<S>>, zero: S)
    requires Sorted(reqs)
  {
    forall i :: 1 <= i < |reqs| ==> Last(d, reqs, i, zero).niov + reqs[i].niov + 1 <= d.iovMax
  }

  // ---------- When requests are joined ----------

  /** A request is joined to the last one kept, so that no request is added, exactly when their pieces fit
      and it touches that one or the driver's hook approves. */
  lemma {:induction false} JoinedExactly<S>(d: Driver<S>, reqs: seq<Req<S>>, i: nat, zero: S)
    requires 1 <= i < |reqs| && Sorted(reqs)
    ensures var out, last := Merge(d, reqs, i, zero), Last(d, reqs, i, zero);
      |Merge(d, reqs, i + 1, zero)| ==
        if last.niov + reqs[i].niov + 1 <= d.iovMax &&
           (reqs[i].sector <= End(reqs[i - 1]) || (d.hasHook && d.approves(last, reqs[i])))
        then |out| else |out| + 1
  {
    hide Join;
    assert Merge(d, reqs, i + 1, zero) == Step(d, Merge(d, reqs, i, zero), reqs[i], zero);
  }

  /** Zeros go only where a driver with a hook approved of them. */
  lemma {:induction false} GapsApproved<S>(d: Driver<S>, reqs: seq<Req<S>>, zero: S, i: nat, x: nat)
    requires 1 <= i < |reqs| && Sorted(reqs) && GapAt(d, reqs, zero, i, x)
    ensures d.hasHook && d.approves(Last(d, reqs, i, zero), reqs[i])
    ensures Last(d, reqs, i, zero).niov + reqs[i].niov + 1 <= d.iovMax
    ensures !Covers(reqs[i - 1], x) && !Covers(reqs[i], x) && reqs[i - 1].sector <= x
  {
    hide Merge;
  }

  // ---------- What the kept requests write ----------

  lemma WrittenAppend<S>(reqs: seq<Req<S>>, r: Req<S>, x: nat)
    ensures Written(reqs + [r], x) == if Covers(r, x) then Some(r.data[x - r.sector]) else Written(reqs, x)
  {
    assert (reqs + [r])[..|reqs|] == reqs;
  }

  /** What joining or keeping r does to sector x. */
  lemma {:induction false} StepWrites<S>(d: Driver<S>, out: seq<Req<S>>, r: Req<S>, zero: S, x: nat)
    requires out != [] && out[|out| - 1].sector <= r.sector
    ensures var a := out[|out| - 1];
      Written(Step(d, out, r, zero), x) ==
        if Covers(r, x) then Some(r.data[x - r.sector])
        else if !ShouldMerge(d, a, r) then Written(out, x)
        else if End(a) <= x < r.sector then Some(zero)
        else if End(r) <= x < End(a) then Written(out[..|out| - 1], x)
        else Written(out, x)
  {
    hide Written, ShouldMerge;
    var k := |out| - 1;
    var a := out[k];
    assert out == out[..k] + [a];
    WrittenAppend(out[..k], a, x);
    WrittenAppend(out, r, x);
    WrittenAppend(out[..k], Join(d, a, r, zero), x);
  }

  /** The requests kept lie one after the other. */
  ghost predicate Apart<S>(out: seq<Req<S>>) {
    forall i, j :: 0 <= i < j < |out| ==> End(out[i]) <= out[j].sector
  }

  lemma {:induction false} KeptApart<S>(d: Driver<S>, reqs: seq<Req<S>>, n: nat, zero: S)
    requires 1 <= n <= |reqs| && Sorted(reqs) && PiecesFit(d, reqs, zero)
    ensures Apart(Merge(d, reqs, n, zero))
  {
    if n > 1 {
      hide Step;
      KeptApart(d, reqs, n - 1, zero);
      PiecesAt(d, reqs, zero, n - 1);
      StepApart(d, Merge(d, reqs, n - 1, zero), reqs[n - 1], zero);
    }
  }

  lemma {:induction false} StepApart<S>(d: Driver<S>, out: seq<Req<S>>, r: Req<S>, zero: S)
    requires out != [] && out[|out| - 1].sector <= r.sector && Apart(out)
    requires out[|out| - 1].niov + r.niov + 1 <= d.iovMax
    ensures Apart(Step(d, out, r, zero))
  {}

  lemma {:induction false} UncoveredIsNotWritten<S>(reqs: seq<Req<S>>, x: nat)
    requires forall i :: 0 <= i < |reqs| ==> !Covers(reqs[i], x)
    ensures Written(reqs, x).None?
    decreases |reqs|
  {
    if reqs != [] {
      UncoveredIsNotWritten(reqs[..|reqs| - 1], x);
    }
  }

  /** How the gaps of n requests follow from those of n - 1. */
  lemma {:induction false} GapsGrow<S>(d: Driver<S>, reqs: seq<Req<S>>, n: nat, zero: S, x: nat)
    requires 2 <= n <= |reqs| && Sorted(reqs)
    ensures InGap(d, reqs, n, zero, x) <==> InGap(d, reqs, n - 1, zero, x) || GapAt(d, reqs, zero, n - 1, x)
    ensures reqs[n - 1].sector <= x ==> !InGap(d, reqs, n, zero, x)
  {
    hide ShouldMerge, Last;
    if reqs[n - 1].sector <= x {
      forall i | 1 <= i < n ensures !GapAt(d, reqs, zero, i, x) {
        assert i < n - 1 ==> reqs[i].sector <= reqs[n - 1].sector;
      }
    }
  }

  /** How the cuts of n requests follow from those of n - 1. */
  lemma {:induction false} CutsGrow<S>(d: Driver<S>, reqs: seq<Req<S>>, n: nat, zero: S, x: nat)
    requires 2 <= n <= |reqs| && Sorted(reqs)
    ensures CutOff(d, reqs, n, zero, x) <==>
      !Covers(reqs[n - 1], x) && (CutOff(d, reqs, n - 1, zero, x) || CutBy(d, reqs, zero, n - 1, x))
  {
    hide Sorted, ShouldMerge, Last;
    if CutOff(d, reqs, n - 1, zero, x) && !Covers(reqs[n - 1], x) {
      var i :| 1 <= i < n - 1 && CutAt(d, reqs, n - 1, zero, i, x);
      assert CutAt(d, reqs, n, zero, i, x);
    }
    if CutBy(d, reqs, zero, n - 1, x) {
      assert CutAt(d, reqs, n, zero, n - 1, x);
    }
    if CutOff(d, reqs, n, zero, x) {
      var i :| 1 <= i < n && CutAt(d, reqs, n, zero, i, x);
      if i < n - 1 {
        assert CutAt(d, reqs, n - 1, zero, i, x) && !Covers(reqs[n - 1], x);
      }
    }
  }

  /** What the merged requests write: zeros in the gaps that the driver approved of, what lies behind the
      cuts, and what the originals write everywhere else. */
  lemma {:induction false} MergeMeans<S>(d: Driver<S>, reqs: seq<Req<S>>, n: nat, zero: S, x: nat)
    requires 1 <= n <= |reqs| && Sorted(reqs)
    ensures Written(Merge(d, reqs, n, zero), x) ==
      if InGap(d, reqs, n, zero, x) then Some(zero)
      else if CutOff(d, reqs, n, zero, x) then Behind(d, reqs, n, zero, x)
      else Written(reqs[..n], x)
  {
    hide Written, Step, ShouldMerge, CutOff, InGap;
    if n == 1 {
      MergeOne(d, reqs, zero, x);
    } else {
      MergeMeans(d, reqs, n - 1, zero, x);
      GapsGrow(d, reqs, n, zero, x);
      CutsGrow(d, reqs, n, zero, x);
      var out, r := Merge(d, reqs, n - 1, zero), reqs[n - 1];
      StepWrites(d, out, r, zero, x);
      assert reqs[..n] == reqs[..n - 1] + [r];
      WrittenAppend(reqs[..n - 1], r, x);
    }
  }

  /** Without approval nothing is written to a sector that no request covers. */
  lemma {:induction false} NoApprovalNoZeros<S>(d: Driver<S>, reqs: seq<Req<S>>, zero: S, x: nat)
    requires reqs != [] && Sorted(reqs) && (forall i :: 0 <= i < |reqs| ==> !Covers(reqs[i], x))
    requires !d.hasHook || forall a, b :: !d.approves(a, b)
    ensures Written(Merge(d, reqs, |reqs|, zero), x) == None
  {
    hide Merge, Written, ShouldMerge, Last;
    MergeMeans(d, reqs, |reqs|, zero, x);
    if InGap(d, reqs, |reqs|, zero, x) {
      var i :| 1 <= i < |reqs| && GapAt(d, reqs, zero, i, x);
      GapsApproved(d, reqs, zero, i, x);
      assert false;
    }
    assert !CutOff(d, reqs, |reqs|, zero, x);
    assert reqs[..|reqs|] == reqs;
    UncoveredIsNotWritten(reqs, x);
  }

  lemma {:induction false} MergeOne<S>(d: Driver<S>, reqs: seq<Req<S>>, zero: S, x: nat)
    requires reqs != [] && Sorted(reqs)
    ensures !InGap(d, reqs, 1, zero, x) && !CutOff(d, reqs, 1, zero, x) && Merge(d, reqs, 1, zero) == reqs[..1]
  {}

  /** If IOV_MAX keeps no requests apart, nothing lies behind a cut. */
  lemma {:induction false} NothingBehind<S>(d: Driver<S>, reqs: seq<Req<S>>, n: nat, zero: S, x: nat)
    requires 1 <= n <= |reqs| && Sorted(reqs) && PiecesFit(d, reqs, zero)
    ensures Behind(d, reqs, n, zero, x) == None
  {
    hide Written, Merge, ShouldMerge, PiecesFit;
    if n > 1 {
      if CutBy(d, reqs, zero, n - 1, x) {
        CutIsNotWritten(d, reqs, n, zero, x);
      } else {
        NothingBehind(d, reqs, n - 1, zero, x);
      }
    }
  }

  lemma {:induction false} CutIsNotWritten<S>(d: Driver<S>, reqs: seq<Req<S>>, n: nat, zero: S, x: nat)
    requires 2 <= n <= |reqs| && Sorted(reqs) && PiecesFit(d, reqs, zero)
    requires End(reqs[n - 1]) <= x < End(reqs[n - 2])
    ensures var out := Merge(d, reqs, n - 1, zero);
      ShouldMerge(d, out[|out| - 1], reqs[n - 1]) && Written(out[..|out| - 1], x) == None
  {
    hide Step, Written, Merge, PiecesFit, Sorted;
    PiecesAt(d, reqs, zero, n - 1);
    KeptApart(d, reqs, n - 1, zero);
    NothingInFront(Merge(d, reqs, n - 1, zero), x);
  }

  lemma {:induction false} PiecesAt<S>(d: Driver<S>, reqs: seq<Req<S>>, zero: S, i: nat)
    requires 1 <= i < |reqs| && Sorted(reqs) && PiecesFit(d, reqs, zero)
    ensures var out := Merge(d, reqs, i, zero);
      out[|out| - 1].sector <= reqs[i].sector && out[|out| - 1].niov + reqs[i].niov + 1 <= d.iovMax
  {
    hide Merge;
    assert Last(d, reqs, i, zero).niov + reqs[i].niov + 1 <= d.iovMax;
  }

  lemma {:induction false} NothingInFront<S>(out: seq<Req<S>>, x: nat)
    requires out != [] && Apart(out) && out[|out| - 1].sector <= x
    ensures Written(out[..|out| - 1], x) == None
  {
    hide Written;
    UncoveredIsNotWritten(out[..|out| - 1], x);
  }

  // ---------- The disk afterwards ----------

  ghost predicate Fit<S>(reqs: seq<Req<S>>, size: nat) {
    forall i :: 0 <= i < |reqs| ==> End(reqs[i]) <= size
  }

  lemma {:induction false} MergeFits<S>(d: Driver<S>, reqs: seq<Req<S>>, n: nat, zero: S, size: nat)
    requires 1 <= n <= |reqs| && Sorted(reqs) && Fit(reqs, size)
    ensures Fit(Merge(d, reqs, n, zero), size)
  {
    hide Step;
    if n > 1 {
      MergeFits(d, reqs, n - 1, zero, size);
      StepFits(d, Merge(d, reqs, n - 1, zero), reqs[n - 1], zero, size);
    }
  }

  lemma {:induction false} StepFits<S>(d: Driver<S>, out: seq<Req<S>>, r: Req<S>, zero: S, size: nat)
    requires out != [] && out[|out| - 1].sector <= r.sector && Fit(out, size) && End(r) <= size
    ensures Fit(Step(d, out, r, zero), size)
  {}

  /** Requests whose ends do not decrease. */
  ghost predicate EndsGrow<S>(reqs: seq<Req<S>>) {
    forall i, j :: 0 <= i < j < |reqs| ==> End(reqs[i]) <= End(reqs[j])
  }

  lemma {:induction false} NoCuts<S>(d: Driver<S>, reqs: seq<Req<S>>, zero: S, x: nat)
    requires Sorted(reqs) && EndsGrow(reqs)
    ensures !CutOff(d, reqs, |reqs|, zero, x)
  {
    hide Sorted, ShouldMerge, Last;
    forall i | 1 <= i < |reqs| ensures !CutBy(d, reqs, zero, i, x) {
      assert End(reqs[i - 1]) <= End(reqs[i]);
    }
  }

  /** For requests whose ends do not decrease, the merged requests leave what the originals leave, applied
      one after the other, except that the gaps that the driver approved of become zero. */
  lemma {:induction false} MergePreserves<S>(d: Driver<S>, reqs: seq<Req<S>>, zero: S, disk: seq<S>, x: nat)
    requires reqs != [] && Sorted(reqs) && EndsGrow(reqs) && Fit(reqs, |disk|) && x < |disk|
    ensures Fit(Merge(d, reqs, |reqs|, zero), |disk|)
    ensures Apply(disk, Merge(d, reqs, |reqs|, zero))[x] ==
      if InGap(d, reqs, |reqs|, zero, x) then zero else Apply(disk, reqs)[x]
  {
    hide Merge, Apply, Written, InGap;
    var n := |reqs|;
    MergeFits(d, reqs, n, zero, |disk|);
    assert reqs[..n] == reqs;
    assert !CutOff(d, reqs, n, zero, x) by { NoCuts(d, reqs, zero, x); }
    MergeMeans(d, reqs, n, zero, x);
    ApplyAt(disk, Merge(d, reqs, n, zero), x);
    ApplyAt(disk, reqs, x);
  }

  // ---------- And exactly when ----------

  /** Some request writes sector x. */
  ghost predicate Touched<S>(reqs: seq<Req<S>>, x: nat) { exists i :: 0 <= i < |reqs| && Covers(reqs[i], x) }

  lemma {:induction false} TouchedIsWritten<S>(reqs: seq<Req<S>>, x: nat)
    ensures Touched(reqs, x) <==> Written(reqs, x).Some?
    decreases |reqs|
  {
    if reqs != [] {
      var k := |reqs| - 1;
      TouchedIsWritten(reqs[..k], x);
      assert Covers(reqs[k], x) ==> Touched(reqs, x);
      if Touched(reqs[..k], x) {
        var i :| 0 <= i < k && Covers(reqs[..k][i], x);
        assert Covers(reqs[i], x);
      }
      if Touched(reqs, x) && !Covers(reqs[k], x) {
        var i :| 0 <= i < |reqs| && Covers(reqs[i], x);
        assert Covers(reqs[..k][i], x);
      }
    }
  }

  lemma {:induction false} CutOffIsTouched<S>(d: Driver<S>, reqs: seq<Req<S>>, zero: S, x: nat)
    requires Sorted(reqs) && CutOff(d, reqs, |reqs|, zero, x)
    ensures Touched(reqs, x)
  {
    hide ShouldMerge, Last;
    var i :| 1 <= i < |reqs| && CutAt(d, reqs, |reqs|, zero, i, x);
    assert Covers(reqs[i - 1], x);
  }

  /** The condition on the requests: a gap that is filled with zeros hits no data but zeros, and where a
      request is cut off and no later one writes, what is laid bare is what was cut off. */
  ghost predicate CutsHarmless<S>(d: Driver<S>, reqs: seq<Req<S>>, zero: S)
    requires reqs != [] && Sorted(reqs)
  {
    forall x: nat :: HarmlessAt(d, reqs, zero, x)
  }

  ghost predicate HarmlessAt<S>(d: Driver<S>, reqs: seq<Req<S>>, zero: S, x: nat)
    requires reqs != [] && Sorted(reqs)
  {
    if InGap(d, reqs, |reqs|, zero, x) then Touched(reqs, x) ==> Written(reqs, x) == Some(zero)
    else CutOff(d, reqs, |reqs|, zero, x) ==> Written(reqs, x) == Behind(d, reqs, |reqs|, zero, x)
  }

  /** Every sector that an original writes, and every sector outside the approved gaps, ends up as the
      originals leave it. */
  ghost predicate Preserves<S>(d: Driver<S>, reqs: seq<Req<S>>, zero: S, disk: seq<S>)
    requires reqs != [] && Sorted(reqs) && Fit(reqs, |disk|) && Fit(Merge(d, reqs, |reqs|, zero), |disk|)
  {
    forall x: nat :: x < |disk| && (Touched(reqs, x) || !InGap(d, reqs, |reqs|, zero, x)) ==>
      Apply(disk, Merge(d, reqs, |reqs|, zero))[x] == Apply(disk, reqs)[x]
  }

  lemma {:induction false} HarmlessPreserves<S>(d: Driver<S>, reqs: seq<Req<S>>, zero: S, disk: seq<S>)
    requires reqs != [] && Sorted(reqs) && Fit(reqs, |disk|) && Fit(Merge(d, reqs, |reqs|, zero), |disk|)
    requires CutsHarmless(d, reqs, zero)
    ensures Preserves(d, reqs, zero, disk)
  {
    hide Merge, Apply, Written, CutOff, InGap, Touched, Behind;
    var n := |reqs|;
    assert reqs[..n] == reqs;
    forall x: nat | x < |disk| && (Touched(reqs, x) || !InGap(d, reqs, n, zero, x))
      ensures Apply(disk, Merge(d, reqs, n, zero))[x] == Apply(disk, reqs)[x]
    {
      MergeMeans(d, reqs, n, zero, x);
      ApplyAt(disk, Merge(d, reqs, n, zero), x);
      ApplyAt(disk, reqs, x);
      assert HarmlessAt(d, reqs, zero, x);
    }
  }

  /** A harmful cut shows on some disk. */
  lemma {:induction false} HarmShows<S>(d: Driver<S>, reqs: seq<Req<S>>, zero: S, u: S, v: S, size: nat, x: nat)
    requires reqs != [] && Sorted(reqs) && Fit(reqs, size) && u != v
    requires Fit(Merge(d, reqs, |reqs|, zero), size) && !HarmlessAt(d, reqs, zero, x)
    ensures exists disk: seq<S> :: |disk| == size && !Preserves(d, reqs, zero, disk)
  {
    hide Merge, Apply, Written, CutOff, InGap, Behind;
    var n := |reqs|;
    assert reqs[..n] == reqs;
    if CutOff(d, reqs, n, zero, x) {
      CutOffIsTouched(d, reqs, zero, x);
    }
    TouchedIsWritten(reqs, x);
    assert x < size by { var i :| 0 <= i < n && Covers(reqs[i], x); }
    MergeMeans(d, reqs, n, zero, x);
    var other := if Written(reqs, x).value == u then v else u;
    var disk := seq(size, i => other);
    ApplyAt(disk, Merge(d, reqs, n, zero), x);
    ApplyAt(disk, reqs, x);
    assert !Preserves(d, reqs, zero, disk);
  }

  /** Merging preserves every disk if and only if the gaps and cuts of the requests are harmless. */
  lemma {:induction false} MergeExact<S(!new)>(d: Driver<S>, reqs: seq<Req<S>>, zero: S, u: S, v: S, size: nat)
    requires reqs != [] && Sorted(reqs) && Fit(reqs, size) && u != v
    ensures Fit(Merge(d, reqs, |reqs|, zero), size)
    ensures CutsHarmless(d, reqs, zero) <==> forall disk: seq<S> :: |disk| == size ==> Preserves(d, reqs, zero, disk)
  {
    hide Merge, HarmlessAt, Preserves;
    MergeFits(d, reqs, |reqs|, zero, size);
    if CutsHarmless(d, reqs, zero) {
      forall disk: seq<S> | |disk| == size ensures Preserves(d, reqs, zero, disk) {
        HarmlessPreserves(d, reqs, zero, disk);
      }
    } else {
      var x: nat :| !HarmlessAt(d, reqs, zero, x);
      HarmShows(d, reqs, zero, u, v, size, x);
    }
  }

  // ---------- Within the limit on scatter lists ----------

  /** If IOV_MAX keeps no requests apart, a gap that hits written data was opened by a cut. */
  lemma {:induction false} GapOverData<S>(d: Driver<S>, reqs: seq<Req<S>>, zero: S, i: nat, x: nat, j: nat)
    requires Sorted(reqs) && PiecesFit(d, reqs, zero)
    requires 1 <= i < |reqs| && End(reqs[i - 1]) <= x < reqs[i].sector
    requires j < |reqs| && Covers(reqs[j], x)
    ensures CutOff(d, reqs, |reqs|, zero, x)
    decreases i - j
  {
    hide Merge, Last, PiecesFit;
    assert forall l :: i <= l < |reqs| ==> reqs[i].sector <= reqs[l].sector;
    if l :| j < l < i && Covers(reqs[l], x) {
      GapOverData(d, reqs, zero, i, x, l);
    } else {
      assert reqs[j + 1].sector <= reqs[i - 1].sector <= End(reqs[i - 1]);
      LastFits(d, reqs, zero, j + 1);
      assert CutAt(d, reqs, |reqs|, zero, j + 1, x);
    }
  }

  lemma {:induction false} LastFits<S>(d: Driver<S>, reqs: seq<Req<S>>, zero: S, i: nat)
    requires 1 <= i < |reqs| && Sorted(reqs) && PiecesFit(d, reqs, zero)
    ensures reqs[i].sector <= End(reqs[i - 1]) ==> ShouldMerge(d, Last(d, reqs, i, zero), reqs[i])
  {
    hide Merge;
    assert Last(d, reqs, i, zero).niov + reqs[i].niov + 1 <= d.iovMax;
  }

  /** If IOV_MAX keeps no requests apart, the condition is that later requests write over every cut, or it
      cut off zeros from a gap that is filled with zeros. */
  lemma {:induction false} CutsWithinLimit<S>(d: Driver<S>, reqs: seq<Req<S>>, zero: S)
    requires reqs != [] && Sorted(reqs) && PiecesFit(d, reqs, zero)
    ensures CutsHarmless(d, reqs, zero) <==> forall x: nat :: CutOff(d, reqs, |reqs|, zero, x) ==>
      InGap(d, reqs, |reqs|, zero, x) && Written(reqs, x) == Some(zero)
  {
    hide CutOff, InGap, Written, PiecesFit, Behind, Touched;
    forall x: nat ensures HarmlessAt(d, reqs, zero, x) <==>
      (CutOff(d, reqs, |reqs|, zero, x) ==> InGap(d, reqs, |reqs|, zero, x) && Written(reqs, x) == Some(zero))
    {
      NothingBehind(d, reqs, |reqs|, zero, x);
      TouchedIsWritten(reqs, x);
      if CutOff(d, reqs, |reqs|, zero, x) {
        CutOffIsTouched(d, reqs, zero, x);
      }
      if InGap(d, reqs, |reqs|, zero, x) && Touched(reqs, x) {
        GapOverTouched(d, reqs, zero, x);
      }
    }
  }

  lemma {:induction false} GapOverTouched<S>(d: Driver<S>, reqs: seq<Req<S>>, zero: S, x: nat)
    requires Sorted(reqs) && PiecesFit(d, reqs, zero) && InGap(d, reqs, |reqs|, zero, x) && Touched(reqs, x)
    ensures CutOff(d, reqs, |reqs|, zero, x)
  {
    hide ShouldMerge, Last, PiecesFit, CutOff;
    var i :| 1 <= i < |reqs| && GapAt(d, reqs, zero, i, x);
    var j :| 0 <= j < |reqs| && Covers(reqs[j], x);
    GapOverData(d, reqs, zero, i, x, j);
  }

  /** Without a driver hook there are no gaps, so the condition is about the cuts alone. */
  lemma {:induction false} NoHookNoGap<S>(d: Driver<S>, reqs: seq<Req<S>>, zero: S)
    requires reqs != [] && Sorted(reqs) && !d.hasHook
    ensures CutsHarmless(d, reqs, zero) <==> forall x: nat :: CutOff(d, reqs, |reqs|, zero, x) ==>
      Written(reqs, x) == Behind(d, reqs, |reqs|, zero, x)
    ensures PiecesFit(d, reqs, zero) ==>
      (CutsHarmless(d, reqs, zero) <==> forall x: nat :: !CutOff(d, reqs, |reqs|, zero, x))
  {
    hide CutOff, Written, Behind, PiecesFit;
    forall x: nat ensures !InGap(d, reqs, |reqs|, zero, x) {
      forall i | 1 <= i < |reqs| ensures !GapAt(d, reqs, zero, i, x) {}
    }
    assert forall x: nat :: HarmlessAt(d, reqs, zero, x) <==>
      (CutOff(d, reqs, |reqs|, zero, x) ==> Written(reqs, x) == Behind(d, reqs, |reqs|, zero, x));
    if PiecesFit(d, reqs, zero) {
      CutsWithinLimit(d, reqs, zero);
    }
  }

  // ---------- Two inputs that lose data ----------

  lemma {:induction false} LastOfTwo<S>(d: Driver<S>, reqs: seq<Req<S>>, zero: S)
    requires 2 <= |reqs| && Sorted(reqs)
    ensures Last(d, reqs, 1, zero) == reqs[0]
    ensures Last(d, reqs, 2, zero).niov == if ShouldMerge(d, reqs[0], reqs[1]) then d.pieces(reqs[0], reqs[1])
        else reqs[1].niov
  {
    assert Merge(d, reqs, 2, zero) == Step(d, Merge(d, reqs, 1, zero), reqs[1], zero);
  }

  lemma {:induction false} WrittenBack<S>(reqs: seq<Req<S>>, x: nat, k: nat)
    requires k < |reqs| && Covers(reqs[k], x) && forall j :: k < j < |reqs| ==> !Covers(reqs[j], x)
    ensures Written(reqs, x) == Some(reqs[k].data[x - reqs[k].sector])
    decreases |reqs|
  {
    if k < |reqs| - 1 {
      WrittenBack(reqs[..|reqs| - 1], x, k);
    }
  }

  /** The second of two requests ends before the first. */
  lemma {:induction false} TailDropped(d: Driver<int>)
    requires d.iovMax >= 3
    ensures var reqs := [Req(0, [1, 1, 1], 1), Req(1, [2], 1)];
      && Written(reqs, 2) == Some(1) && Written(Merge(d, reqs, 2, 0), 2) == None
  {
    hide Merge, Written;
    var reqs := [Req(0, [1, 1, 1], 1), Req(1, [2], 1)];
    LastOfTwo(d, reqs, 0);
    WrittenBack(reqs, 2, 0);
    MergeMeans(d, reqs, 2, 0, 2);
    assert CutAt(d, reqs, 2, 0, 1, 2);
    NothingBehind(d, reqs, 2, 0, 2);
  }

  /** And the driver approves of zeros between the second and a third. */
  lemma {:induction false} GapWipesData(d: Driver<int>)
    requires d.hasHook && (forall a, b :: d.approves(a, b)) && (forall a, b :: d.pieces(a, b) == 1) && d.iovMax >= 3
    ensures var reqs := [Req(0, [1, 1, 1, 1], 1), Req(1, [2], 1), Req(6, [3], 1)];
      && Written(reqs, 3) == Some(1) && Written(Merge(d, reqs, 3, 0), 3) == Some(0)
  {
    hide Merge, Written;
    var reqs := [Req(0, [1, 1, 1, 1], 1), Req(1, [2], 1), Req(6, [3], 1)];
    LastOfTwo(d, reqs, 0);
    WrittenBack(reqs, 3, 0);
    MergeMeans(d, reqs, 3, 0, 3);
    assert GapAt(d, reqs, 0, 2, 3);
  }

  // ---------- The in-place loop ----------

  function Insert<S>(reqs: seq<Req<S>>, r: Req<S>): seq<Req<S>> {
    if reqs == [] || r.sector <= reqs[0].sector then [r] + reqs
    else [reqs[0]] + Insert(reqs[1..], r)
  }

  lemma {:induction false} InsertIsPermutation<S>(reqs: seq<Req<S>>, r: Req<S>)
    ensures multiset(Insert(reqs, r)) == multiset(reqs) + multiset{r}
    ensures forall i :: 0 <= i < |Insert(reqs, r)| ==> Insert(reqs, r)[i] == r || Insert(reqs, r)[i] in reqs
  {
    if reqs != [] {
      InsertIsPermutation(reqs[1..], r);
      assert reqs == [reqs[0]] + reqs[1..];
    }
  }

  lemma {:induction false} InsertSorts<S>(reqs: seq<Req<S>>, r: Req<S>)
    requires Sorted(reqs)
    ensures Sorted(Insert(reqs, r))
  {
    if reqs != [] && r.sector > reqs[0].sector {
      InsertSorts(reqs[1..], r);
      InsertIsPermutation(reqs[1..], r);
    }
  }

  /** qsort: some sorted rearrangement of the requests; callers rely on nothing else. */
  method SortRequests<S>(reqs: array<Req<S>>)
    modifies reqs
    ensures Sorted(reqs[..]) && multiset(reqs[..]) == multiset(old(reqs[..]))
  {
    var t: seq<Req<S>> := [];
    for i := 0 to reqs.Length
      invariant Sorted(t) && multiset(t) == multiset(reqs[..i]) && reqs[..] == old(reqs[..])
    {
      assert reqs[..i + 1] == reqs[..i] + [reqs[i]];
      InsertIsPermutation(t, reqs[i]);
      InsertSorts(t, reqs[i]);
      t := Insert(t, reqs[i]);
    }
    assert reqs[..reqs.Length] == reqs[..];
    assert |t| == |multiset(t)| == |multiset(reqs[..])| == reqs.Length;
    forall i | 0 <= i < reqs.Length {
      reqs[i] := t[i];
    }
    assert reqs[..] == t;
  }

  lemma MergeNext<S>(d: Driver<S>, reqs: seq<Req<S>>, n: nat, zero: S)
    requires 1 <= n < |reqs| && Sorted(reqs)
    ensures var m, m', r := Merge(d, reqs, n, zero), Merge(d, reqs, n + 1, zero), reqs[n];
      var k := |m| - 1;
      && m[k].sector <= r.sector
      && m' == if ShouldMerge(d, m[k], r) then m[..k] + [Join(d, m[k], r, zero)] else m + [r]
  {}

  lemma MergeStart<S>(d: Driver<S>, reqs: seq<Req<S>>, zero: S)
    requires reqs != [] && Sorted(reqs)
    ensures Merge(d, reqs, 1, zero) == [reqs[0]]
  {}

  /** One iteration: reqs[i] is joined to the last kept request or becomes one itself. */
  method Compact<S>(reqs: array<Req<S>>, outidx: nat, i: nat, d: Driver<S>, zero: S) returns (outidx': nat)
    requires outidx < i < reqs.Length && reqs[outidx].sector <= reqs[i].sector
    modifies reqs
    ensures outidx <= outidx' <= i
    ensures reqs[..outidx' + 1] == old(if ShouldMerge(d, reqs[outidx], reqs[i])
                                       then reqs[..outidx] + [Join(d, reqs[outidx], reqs[i], zero)]
                                       else reqs[..outidx + 1] + [reqs[i]])
    ensures forall k :: i < k < reqs.Length ==> reqs[k] == old(reqs[k])
  {
    hide Join, ShouldMerge;
    if ShouldMerge(d, reqs[outidx], reqs[i]) {
      reqs[outidx] := Join(d, reqs[outidx], reqs[i], zero);
      outidx' := outidx;
    } else {
      outidx' := outidx + 1;
      reqs[outidx'] := reqs[i];
    }
  }

  /** multiwrite_merge: sort, then compact the array in place; the first `kept` requests are those
      of Merge. */
  method MultiwriteMerge<S>(reqs: array<Req<S>>, d: Driver<S>, zero: S) returns (kept: nat, ghost sorted: seq<Req<S>>)
    requires reqs.Length > 0
    modifies reqs
    ensures Sorted(sorted) && multiset(sorted) == multiset(old(reqs[..])) && |sorted| == reqs.Length
    ensures kept <= reqs.Length && reqs[..kept] == Merge(d, sorted, |sorted|, zero)
  {
    hide Join, Merge, Step, ShouldMerge;
    SortRequests(reqs);
    sorted := reqs[..];
    MergeStart(d, sorted, zero);
    var outidx := 0;
    for i := 1 to reqs.Length
      invariant outidx < i && reqs[..outidx + 1] == Merge(d, sorted, i, zero)
      invariant forall k :: i <= k < reqs.Length ==> reqs[k] == sorted[k]
    {
      MergeNext(d, sorted, i, zero);
      ghost var out := reqs[..outidx + 1];
      assert out[outidx] == reqs[outidx] && out[..outidx] == reqs[..outidx];
      outidx := Compact(reqs, outidx, i, d, zero);
    }
    kept := outidx + 1;
  }
}
