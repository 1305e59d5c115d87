/** The buffered, rate-limited output file of vmm/buffered_file.c over an arbitrary backend. */
module BufferedFile {
  import opened Common
  import opened Buffers

  type Byte = bv8

  /** The unseen put_buffer function: it answers with the numbers of its script, clipped to the
      request, and once the script is used up it accepts everything. `failed` records an answer
      of 0 or of an error other than EAGAIN. */
  datatype Backend = Backend(delivered: seq<Byte>, script: seq<int>, failed: bool)

  function Answer(b: Backend, size: nat): (ret: int)
    ensures ret <= size
  {
    if b.script == [] || size < b.script[0] then size else b.script[0]
  }

  function AfterPut(b: Backend, data: seq<Byte>): (b': Backend)
    ensures |b'.script| <= |b.script|
  {
    var ret := Answer(b, |data|);
    Backend(b.delivered + (if ret > 0 then data[..ret] else []),
            if b.script == [] then [] else b.script[1..],
            b.failed || (ret <= 0 && ret != -EAGAIN))
  }

  /** The visible state of a QEMUFileBuffered: the backend, the buffered bytes, freeze_output,
      bytes_xfer, xfer_limit, the error recorded on the file, and whether the backend was closed. */
  datatype State = State(backend: Backend, buffer: seq<Byte>, frozen: bool, xfer: nat, limit: nat, error: int,
                         closed: bool)

  /** What has been accepted so far, in order: delivered bytes, then buffered ones. */
  function Stream(s: State): seq<Byte> { s.backend.delivered + s.buffer }

  // ---------- What the operations do ----------

  /** The loop of buffered_flush. */
  function Flush(s: State): (t: State)
    decreases |s.buffer|
  {
    if s.buffer == [] then
      s
    else
      var ret := Answer(s.backend, |s.buffer|);
      var b := AfterPut(s.backend, s.buffer);
      if ret == -EAGAIN then s.(backend := b, frozen := true)
      else if ret <= 0 then s.(backend := b, error := ret)
      else Flush(s.(backend := b, buffer := s.buffer[ret..]))
  }

  function FlushUnlessError(s: State): State { if s.error != 0 then s else Flush(s) }

  datatype PutOutcome = PutOutcome(state: State, rest: seq<Byte>, failed: bool)

  /** The loop of buffered_put_buffer that bypasses the buffer; `rest` is what it leaves. */
  function PutDirect(s: State, data: seq<Byte>): (o: PutOutcome)
    decreases |data|
  {
    if s.frozen || data == [] || s.xfer > s.limit then
      PutOutcome(s, data, false)
    else
      var ret := Answer(s.backend, |data|);
      var t := s.(backend := AfterPut(s.backend, data));
      if ret == -EAGAIN then PutOutcome(t.(frozen := true), data, false)
      else if ret <= 0 then PutOutcome(t.(error := ret), data, true)
      else PutDirect(t.(xfer := s.xfer + ret), data[ret..])
  }

  /** buffered_put_buffer: the new state and the return value. */
  function Put(s: State, data: seq<Byte>): (State, int) {
    if s.error != 0 then
      (s, s.error)
    else
      var o := PutDirect(FlushUnlessError(s.(frozen := false)), data);
      if o.failed then (o.state, -EINVAL)
      else (o.state.(buffer := o.state.buffer + o.rest), |data|)
  }

  /** The loop of buffered_close. */
  function Close(s: State): (t: State)
    decreases |s.backend.script|, |s.buffer|
  {
    if s.error != 0 || s.buffer == [] then
      s.(closed := true)
    else
      FlushShrinks(s);
      Close(Flush(s))
  }

  /** buffered_rate_tick. */
  function Tick(s: State): State {
    if s.error != 0 then Close(s)
    else if s.frozen then s
    else FlushUnlessError(s.(xfer := 0))
  }

  /** A signed 64-bit number as a size_t, and back. */
  function ToSize(x: int): nat { x % 0x1_0000_0000_0000_0000 }
  function ToSigned(x: nat): int {
    var y := ToSize(x);
    if y < 0x8000_0000_0000_0000 then y else y - 0x1_0000_0000_0000_0000
  }

  /** A tenth, rounded toward zero. */
  function Tenth(x: int): int { if x >= 0 then x / 10 else -((-x) / 10) }

  /** buffered_set_rate_limit, where size_t has 64 bits: no int64_t exceeds SIZE_MAX. */
  function SetLimit(s: State, newRate: int): State {
    if s.error != 0 then s else s.(limit := ToSize(Tenth(newRate)))
  }

  /** buffered_rate_limit: 0 to go on sending, 1 to stop, or the error on record. */
  function RateLimit(s: State): int {
    if s.error != 0 then s.error
    else if s.frozen || s.xfer > s.limit then 1
    else 0
  }

  lemma {:induction false} FlushShrinks(s: State)
    ensures |Flush(s).backend.script| <= |s.backend.script|
    ensures s.buffer != [] && |Flush(s).backend.script| == |s.backend.script| ==> Flush(s).buffer == []
    decreases |s.buffer|
  {
    if s.buffer != [] {
      var ret := Answer(s.backend, |s.buffer|);
      if ret > 0 {
        FlushShrinks(s.(backend := AfterPut(s.backend, s.buffer), buffer := s.buffer[ret..]));
      }
    }
  }

  // ---------- Conservation ----------

  /** Flushing never loses, duplicates or reorders a byte, whatever the backend answers. */
  lemma {:induction false} FlushConserves(s: State)
    ensures Stream(Flush(s)) == Stream(s)
    ensures s.backend.failed ==> Flush(s).backend.failed
    ensures s.error == 0 && Flush(s).error != 0 ==> Flush(s).backend.failed
    ensures s.error == 0 && !Flush(s).frozen && !Flush(s).backend.failed ==> Flush(s).buffer == []
    decreases |s.buffer|
  {
    if s.buffer != [] {
      var ret := Answer(s.backend, |s.buffer|);
      if ret > 0 {
        FlushConserves(s.(backend := AfterPut(s.backend, s.buffer), buffer := s.buffer[ret..]));
        assert s.buffer == s.buffer[..ret] + s.buffer[ret..];
      }
    }
  }

  lemma {:induction false} PutDirectConserves(s: State, data: seq<Byte>)
    ensures var o := PutDirect(s, data);
      && o.state.backend.delivered + o.rest == s.backend.delivered + data
      && o.state.buffer == s.buffer
      && |o.rest| <= |data|
      && (s.frozen ==> o.state == s && o.rest == data)
      && (s.backend.failed || o.failed ==> o.state.backend.failed)
      && (!o.failed ==> o.state.error == s.error)
    decreases |data|
  {
    if !s.frozen && data != [] && s.xfer <= s.limit {
      var ret := Answer(s.backend, |data|);
      if ret > 0 {
        PutDirectConserves(s.(backend := AfterPut(s.backend, data), xfer := s.xfer + ret), data[ret..]);
        assert s.backend.delivered + data == (s.backend.delivered + data[..ret]) + data[ret..];
      }
    }
  }

  /** What goes out directly counts against the limit of the period, and nothing does beyond it. */
  lemma {:induction false} DirectCounts(s: State, data: seq<Byte>)
    ensures var o := PutDirect(s, data);
      && |o.rest| <= |data| && o.state.xfer == s.xfer + |data| - |o.rest| && o.state.limit == s.limit
      && (s.xfer > s.limit ==> o.rest == data)
    decreases |data|
  {
    if !s.frozen && data != [] && s.xfer <= s.limit {
      var ret := Answer(s.backend, |data|);
      if ret > 0 {
        DirectCounts(s.(backend := AfterPut(s.backend, data), xfer := s.xfer + ret), data[ret..]);
      }
    }
  }

  /** A put without a backend failure accepts all of its bytes and appends exactly them. */
  lemma PutConserves(s: State, data: seq<Byte>)
    requires s.error == 0 && !Put(s, data).0.backend.failed
    ensures Put(s, data).1 == |data|
    ensures Put(s, data).0.error == 0 && !s.backend.failed
    ensures Stream(Put(s, data).0) == Stream(s) + data
  {
    var f := Flush(s.(frozen := false));
    FlushConserves(s.(frozen := false));
    PutDirectConserves(f, data);
    var o := PutDirect(f, data);
    if f.frozen {
      assert Stream(Put(s, data).0) == Stream(f) + data;
    } else {
      assert f.buffer == [];
      assert Stream(Put(s, data).0) == o.state.backend.delivered + o.rest;
    }
  }

  /** The flush at the start of a put of n bytes gets stuck on a failure of the backend, which the put
      ignores, and then the backend takes new bytes directly. */
  ghost predicate Overtakes(s: State, n: nat) {
    var f := Flush(s.(frozen := false));
    !f.frozen && f.buffer != [] && n > 0 && f.xfer <= f.limit && Answer(f.backend, n) > 0
  }

  /** The put adds a front part of its bytes to the stream, after all that was there, and all of them if
      it reports success. */
  ghost predicate AppendsInOrder(s: State, data: seq<Byte>) {
    var (t, ret) := Put(s, data);
    && (ret == |data| ==> Stream(t) == Stream(s) + data)
    && exists k :: 0 <= k <= |data| && Stream(t) == Stream(s) + data[..k]
  }

  /** Exactly when a put of n bytes keeps the order, whatever the bytes are: when no new byte overtakes a
      buffered one. */
  lemma PutExact(s: State, n: nat)
    requires s.error == 0
    ensures (forall data: seq<Byte> :: |data| == n ==> AppendsInOrder(s, data)) <==> !Overtakes(s, n)
  {
    hide Flush, PutDirect, Put, AppendsInOrder;
    if Overtakes(s, n) {
      var first := Flush(s.(frozen := false)).buffer[0];
      var data := seq(n, i => if first == 0 then 1 as Byte else 0 as Byte);
      OvertakingShows(s, data);
    } else {
      forall data: seq<Byte> | |data| == n ensures AppendsInOrder(s, data) {
        NotOvertaking(s, data);
      }
    }
  }

  lemma OvertakingShows(s: State, data: seq<Byte>)
    requires s.error == 0 && Overtakes(s, |data|) && data[0] != Flush(s.(frozen := false)).buffer[0]
    ensures !AppendsInOrder(s, data)
  {
    hide Flush, PutDirect, Put;
    var f := Flush(s.(frozen := false));
    FlushConserves(s.(frozen := false));
    PutDirectConserves(f, data);
    PutUnfolds(s, data);
    DirectRest(f, data);
    var o, t := PutDirect(f, data), Put(s, data).0;
    var k := |f.backend.delivered|;
    DirectFirst(f.backend.delivered, o.state.backend.delivered, data, o.rest);
    assert Stream(t)[k] == data[0];
    assert Stream(s)[k] == f.buffer[0];
  }

  lemma NotOvertaking(s: State, data: seq<Byte>)
    requires s.error == 0 && !Overtakes(s, |data|)
    ensures AppendsInOrder(s, data)
  {
    hide Flush, PutDirect, Put;
    var f := Flush(s.(frozen := false));
    FlushConserves(s.(frozen := false));
    PutDirectConserves(f, data);
    PutUnfolds(s, data);
    DirectRest(f, data);
    var o, t := PutDirect(f, data), Put(s, data).0;
    assert data[..|data|] == data && data[..0] == [];
    if o.rest == data {
      SameFront(o.state.backend.delivered, f.backend.delivered, data);
      if o.failed {
        assert Stream(t) == Stream(s) + data[..0];
      } else {
        assert Stream(t) == f.backend.delivered + (f.buffer + data) == Stream(f) + data;
        assert Stream(t) == Stream(s) + data[..|data|];
      }
    } else {
      assert f.buffer == [];
      var k := |data| - |o.rest|;
      FrontOf(f.backend.delivered, o.state.backend.delivered, data, o.rest);
      if o.failed {
        assert Stream(t) == Stream(s) + data[..k];
      } else {
        assert Stream(t) == o.state.backend.delivered + o.rest == f.backend.delivered + data;
        assert Stream(t) == Stream(s) + data[..|data|];
      }
    }
  }

  lemma FrontOf(before: seq<Byte>, after: seq<Byte>, data: seq<Byte>, rest: seq<Byte>)
    requires after + rest == before + data && |rest| <= |data|
    ensures after == before + data[..|data| - |rest|]
  {
    var k := |data| - |rest|;
    assert |after| == |before| + k;
    forall i | 0 <= i < |after| ensures after[i] == (before + data[..k])[i] {
      assert (after + rest)[i] == (before + data)[i];
    }
  }

  lemma PutUnfolds(s: State, data: seq<Byte>)
    requires s.error == 0
    ensures var o := PutDirect(Flush(s.(frozen := false)), data);
      Put(s, data) == if o.failed then (o.state, -EINVAL) else (o.state.(buffer := o.state.buffer + o.rest), |data|)
  {
    hide Flush, PutDirect;
  }

  lemma FlushUnfolds(s: State)
    requires s.buffer != []
    ensures Flush(s) ==
      var ret := Answer(s.backend, |s.buffer|);
      var t := s.(backend := AfterPut(s.backend, s.buffer));
      if ret == -EAGAIN then t.(frozen := true)
      else if ret <= 0 then t.(error := ret)
      else Flush(t.(buffer := s.buffer[ret..]))
  {}

  lemma FlushNothing(s: State)
    ensures s.buffer == [] ==> Flush(s) == s
  {}

  lemma DirectUnfolds(s: State, data: seq<Byte>)
    ensures PutDirect(s, data) ==
      if s.frozen || data == [] || s.xfer > s.limit then PutOutcome(s, data, false)
      else
        var ret := Answer(s.backend, |data|);
        var t := s.(backend := AfterPut(s.backend, data));
        if ret == -EAGAIN then PutOutcome(t.(frozen := true), data, false)
        else if ret <= 0 then PutOutcome(t.(error := ret), data, true)
        else PutDirect(t.(xfer := s.xfer + ret), data[ret..])
  {}

  /** Whether a direct put gets anything out. */
  lemma DirectRest(f: State, data: seq<Byte>)
    ensures var o := PutDirect(f, data);
      if !f.frozen && data != [] && f.xfer <= f.limit && Answer(f.backend, |data|) > 0 then |o.rest| < |data|
          else o.rest == data
  {
    if !f.frozen && data != [] && f.xfer <= f.limit {
      var ret := Answer(f.backend, |data|);
      if ret > 0 {
        PutDirectConserves(f.(backend := AfterPut(f.backend, data), xfer := f.xfer + ret), data[ret..]);
      }
    }
  }

  lemma SameFront(a: seq<Byte>, b: seq<Byte>, data: seq<Byte>)
    requires a + data == b + data
    ensures a == b
  {
    assert |a| == |b|;
    forall i | 0 <= i < |a| ensures a[i] == b[i] {
      assert (a + data)[i] == (b + data)[i];
    }
  }

  lemma DirectFirst(before: seq<Byte>, after: seq<Byte>, data: seq<Byte>, rest: seq<Byte>)
    requires after + rest == before + data && |rest| < |data|
    ensures |before| < |after| && after[|before|] == data[0]
  {
    assert (after + rest)[|before|] == (before + data)[|before|];
  }

  // ---------- Whole runs ----------

  datatype Op = PutOp(data: seq<Byte>) | TickOp | SetLimitOp(newRate: int)

  function Do(s: State, op: Op): State {
    match op
    case PutOp(data) => Put(s, data).0
    case TickOp => Tick(s)
    case SetLimitOp(newRate) => SetLimit(s, newRate)
  }

  function Run(s: State, ops: seq<Op>): State
    decreases |ops|
  {
    if ops == [] then s else Run(Do(s, ops[0]), ops[1..])
  }

  /** All bytes put, in order. */
  function AllPut(ops: seq<Op>): seq<Byte> {
    if ops == [] then [] else (if ops[0].PutOp? then ops[0].data else []) + AllPut(ops[1..])
  }

  /** qemu_fopen_ops_buffered over a backend with the given answers. */
  function Opened(script: seq<int>, bytesPerSec: nat): State {
    State(Backend([], script, false), [], false, 0, bytesPerSec / 10, 0, false)
  }

  /** Overtaking happens in a run without an error on record: the first byte is buffered when the backend
      is busy, the flush of the second put is answered 0, and the second byte goes out first. */
  lemma SilentReorder(bytesPerSec: nat)
    ensures var s := Run(Opened([-EAGAIN, 0, 1], bytesPerSec), [PutOp([7]), PutOp([9])]);
      s.error == 0 && Stream(s) == [9, 7] && AllPut([PutOp([7]), PutOp([9])]) == [7, 9]
  {
    var a, b: seq<Byte> := [7], [9];
    var s0 := Opened([-EAGAIN, 0, 1], bytesPerSec);
    var s1 := s0.(backend := Backend([], [0, 1], false), frozen := true, buffer := a);
    FirstPut(s0, s1, a);
    var f := s1.(backend := Backend([], [1], true), frozen := false);
    var s2 := f.(backend := Backend(b, [], true), xfer := 1);
    SecondPut(s1, f, s2, a, b);
    var ops := [PutOp(a), PutOp(b)];
    assert ops[1..] == [PutOp(b)] && ops[1..][1..] == [];
    assert Run(s0, ops) == Run(s1, ops[1..]) == Run(s2, []) == s2;
    assert AllPut(ops) == a + AllPut([PutOp(b)]) == a + b;
  }

  lemma FirstPut(s0: State, s1: State, a: seq<Byte>)
    requires s0.backend == Backend([], [-EAGAIN, 0, 1], false) && s0.buffer == [] && s0.error == 0 && s0.xfer == 0
    requires |a| == 1 && s1 == s0.(backend := Backend([], [0, 1], false), frozen := true, buffer := a)
    ensures Put(s0, a) == (s1, 1)
  {
    var f := s0.(frozen := false);
    assert Flush(f) == f;
    assert [-EAGAIN, 0, 1][1..] == [0, 1];
    assert PutDirect(f, a) == PutOutcome(f.(backend := Backend([], [0, 1], false), frozen := true), a, false);
    assert [] + a == a;
  }

  lemma SecondPut(s1: State, f: State, s2: State, a: seq<Byte>, b: seq<Byte>)
    requires s1.backend == Backend([], [0, 1], false) && s1.buffer == a && s1.error == 0 && s1.xfer == 0
    requires |a| == |b| == 1
    requires f == s1.(backend := Backend([], [1], true), frozen := false)
    requires s2 == f.(backend := Backend(b, [], true), xfer := 1)
    ensures Put(s1, b) == (s2, 1) && Stream(s2) == b + a
  {
    assert [0, 1][1..] == [1] && [1][1..] == [];
    assert Flush(s1.(frozen := false)) == f;
    assert b[..1] == b && [] + b == b && b[1..] == [];
    assert PutDirect(f, b) == PutDirect(s2, []) == PutOutcome(s2, [], false);
    assert a + [] == a;
  }

  lemma {:induction false} CloseConserves(s: State)
    ensures Stream(Close(s)) == Stream(s) && Close(s).closed
    ensures s.backend.failed ==> Close(s).backend.failed
    ensures Close(s).error == 0 ==> Close(s).backend.delivered == Stream(s)
    decreases |s.backend.script|, |s.buffer|
  {
    if s.error == 0 && s.buffer != [] {
      FlushShrinks(s);
      FlushConserves(s);
      CloseConserves(Flush(s));
    }
  }

  /** The state after k rounds of the loop of buffered_close, if it goes on for that long. */
  function CloseRounds(s: State, k: nat): State
    decreases k
  {
    if k == 0 || s.error != 0 || s.buffer == [] then s else CloseRounds(Flush(s), k - 1)
  }

  /** A backend that keeps answering 0 or EAGAIN keeps the close waiting: k such answers are k rounds in which
      nothing is delivered and no error is recorded. */
  lemma {:induction false} CloseWaits(s: State, k: nat)
    requires s.error == 0 && s.buffer != [] && k <= |s.backend.script|
    requires forall i :: 0 <= i < k ==> s.backend.script[i] == 0 || s.backend.script[i] == -EAGAIN
    ensures var t := CloseRounds(s, k);
      && t.error == 0 && t.buffer == s.buffer && t.backend.delivered == s.backend.delivered
      && t.backend.script == s.backend.script[k..] && Close(s) == Close(t)
    decreases k
  {
    if k > 0 {
      var t := Flush(s);
      assert t.backend.script == s.backend.script[1..];
      assert t.backend.script[k - 1..] == s.backend.script[k..];
      CloseWaits(t, k - 1);
    }
  }

  lemma DoConserves(s: State, op: Op)
    requires s.error == 0 && !Do(s, op).backend.failed
    ensures Do(s, op).error == 0 && !s.backend.failed
    ensures Stream(Do(s, op)) == Stream(s) + AllPut([op])
  {
    match op
    case PutOp(data) =>
      PutConserves(s, data);
      assert AllPut([op]) == data;
    case TickOp =>
      FlushConserves(s.(xfer := 0));
    case SetLimitOp(_) =>
  }

  /** A failure of the backend stays on its record. */
  lemma {:induction false} FailureSticks(s: State, ops: seq<Op>)
    requires s.backend.failed
    ensures Run(s, ops).backend.failed
    decreases |ops|
  {
    if ops != [] {
      FlushConserves(s.(frozen := false));
      FlushConserves(s.(xfer := 0));
      CloseConserves(s);
      if ops[0].PutOp? {
        PutDirectConserves(FlushUnlessError(s.(frozen := false)), ops[0].data);
      }
      FailureSticks(Do(s, ops[0]), ops[1..]);
    }
  }

  lemma {:induction false} RunConserves(s: State, ops: seq<Op>)
    requires s.error == 0 && !Run(s, ops).backend.failed
    ensures Run(s, ops).error == 0
    ensures Stream(Run(s, ops)) == Stream(s) + AllPut(ops)
    decreases |ops|
  {
    if ops != [] {
      var t := Do(s, ops[0]);
      if t.backend.failed {
        FailureSticks(t, ops[1..]);
        assert false;
      }
      DoConserves(s, ops[0]);
      RunConserves(t, ops[1..]);
      assert AllPut(ops) == AllPut([ops[0]]) + AllPut(ops[1..]);
    }
  }

  /** In every run without a backend failure the delivered bytes followed by the buffered ones are
      all bytes put, in order; after the close everything has been delivered. */
  lemma EveryRunConserves(script: seq<int>, bytesPerSec: nat, ops: seq<Op>)
    ensures var s := Run(Opened(script, bytesPerSec), ops);
      && (!s.backend.failed ==> Stream(s) == AllPut(ops))
      && (!Close(s).backend.failed ==> Close(s).backend.delivered == AllPut(ops))
  {
    var s := Run(Opened(script, bytesPerSec), ops);
    CloseConserves(s);
    if !s.backend.failed {
      RunConserves(Opened(script, bytesPerSec), ops);
      if !Close(s).backend.failed {
        CloseStaysClean(s);
      }
    }
  }

  lemma {:induction false} CloseStaysClean(s: State)
    requires s.error == 0 && !Close(s).backend.failed
    ensures Close(s).error == 0
    decreases |s.backend.script|, |s.buffer|
  {
    if s.buffer != [] {
      FlushShrinks(s);
      FlushConserves(s);
      CloseConserves(Flush(s));
      if Flush(s).error == 0 {
        CloseStaysClean(Flush(s));
      }
    }
  }

  /** A tick of the timer starts a new period and sends what is buffered, unless the output is frozen; after an
      error it closes. */
  lemma TickMeans(s: State)
    ensures s.error == 0 && s.frozen ==> Tick(s) == s
    ensures s.error == 0 && !s.frozen ==> Tick(s).xfer == 0 && Tick(s).limit == s.limit && Stream(Tick(s)) == Stream(s)
    ensures s.error == 0 && !s.frozen && s.backend.script == [] ==>
      Tick(s).backend.delivered == Stream(s) && Tick(s).buffer == []
    ensures s.error != 0 ==> Tick(s) == s.(closed := true)
  {
    hide Flush;
    FlushConserves(s.(xfer := 0));
    FlushKeepsPeriod(s.(xfer := 0));
    if s.backend.script == [] {
      FlushAccepted(s.(xfer := 0));
    }
  }

  /** The limit is set for a period of a tenth of a second, and nothing but the limit changes. A rate below -9
      becomes a limit beyond every signed 64-bit number, and a rate from -9 to 9 a limit of 0. */
  lemma SetLimitMeans(s: State, newRate: int)
    requires -0x8000_0000_0000_0000 <= newRate < 0x8000_0000_0000_0000
    ensures s.error != 0 ==> SetLimit(s, newRate) == s
    ensures SetLimit(s, newRate).(limit := s.limit) == s
    ensures s.error == 0 && newRate >= 0 ==>
      10 * SetLimit(s, newRate).limit <= newRate < 10 * SetLimit(s, newRate).limit + 10
    ensures s.error == 0 && newRate <= -10 ==> SetLimit(s, newRate).limit > 0x7fff_ffff_ffff_ffff
    ensures s.error == 0 && -10 < newRate < 10 ==> SetLimit(s, newRate).limit == 0
    ensures s.error == 0 && newRate >= 0 ==> ToSigned(SetLimit(s, newRate).limit) == SetLimit(s, newRate).limit
    ensures s.error == 0 && newRate < 0 ==>
      var tenth := ToSigned(SetLimit(s, newRate).limit);
      tenth <= 0 && 10 * tenth - 10 < newRate <= 10 * tenth
  {
    var q := Tenth(newRate);
    if newRate < 0 {
      var p := (-newRate) / 10;
      assert 10 * p <= -newRate < 10 * p + 10;
      if p > 0 {
        assert ToSize(q) == 0x1_0000_0000_0000_0000 - p;
      }
    }
  }

  /** The answer tells whether the loop that bypasses the buffer would turn to the backend at all: it is 1 just
      when that loop leaves everything as it is. */
  lemma RateLimitMeans(s: State, data: seq<Byte>)
    requires s.error == 0 && data != []
    ensures RateLimit(s) in {0, 1}
    ensures RateLimit(s) == 1 <==> PutDirect(s, data) == PutOutcome(s, data, false)
  {
    var ret := Answer(s.backend, |data|);
    if RateLimit(s) == 0 && ret > 0 {
      DirectCounts(s.(backend := AfterPut(s.backend, data), xfer := s.xfer + ret), data[ret..]);
    }
  }

  lemma {:induction false} FlushKeepsPeriod(s: State)
    ensures Flush(s).xfer == s.xfer && Flush(s).limit == s.limit
    decreases |s.buffer|
  {
    if s.buffer != [] {
      var ret := Answer(s.backend, |s.buffer|);
      if ret > 0 {
        FlushKeepsPeriod(s.(backend := AfterPut(s.backend, s.buffer), buffer := s.buffer[ret..]));
      }
    }
  }

  /** A backend that accepts everything gets the whole buffer. */
  lemma FlushAccepted(s: State)
    requires s.backend.script == []
    ensures Flush(s).buffer == [] && Flush(s).backend.delivered == Stream(s) && Flush(s).error == s.error
  {
    if s.buffer != [] {
      var t := s.(backend := AfterPut(s.backend, s.buffer), buffer := []);
      assert s.buffer[|s.buffer|..] == [] && s.buffer[..|s.buffer|] == s.buffer;
      assert Flush(s) == Flush(t) == t;
    }
  }

  // ---------- Which runs keep the order ----------

  /** States that differ only in what the bytes are. What the code does depends on nothing else. */
  ghost predicate SameShape(s: State, t: State) {
    && s.backend.script == t.backend.script && s.backend.failed == t.backend.failed && |s.buffer| == |t.buffer|
    && s.frozen == t.frozen && s.xfer == t.xfer && s.limit == t.limit && s.error == t.error && s.closed == t.closed
  }

  ghost predicate SameOp(a: Op, b: Op) {
    if a.PutOp? then b.PutOp? && |a.data| == |b.data| else a == b
  }

  /** Runs that differ only in the bytes that they put. */
  ghost predicate SameOps(a: seq<Op>, b: seq<Op>) {
    |a| == |b| && forall i :: 0 <= i < |a| ==> SameOp(a[i], b[i])
  }

  lemma {:induction false} FlushShape(s: State, t: State)
    requires SameShape(s, t)
    ensures SameShape(Flush(s), Flush(t))
    decreases |s.buffer|
  {
    if s.buffer != [] {
      var ret := Answer(s.backend, |s.buffer|);
      if ret > 0 {
        FlushShape(s.(backend := AfterPut(s.backend, s.buffer), buffer := s.buffer[ret..]),
                   t.(backend := AfterPut(t.backend, t.buffer), buffer := t.buffer[ret..]));
      }
    }
  }

  lemma {:induction false} DirectShape(s: State, t: State, a: seq<Byte>, b: seq<Byte>)
    requires SameShape(s, t) && |a| == |b|
    ensures var o, p := PutDirect(s, a), PutDirect(t, b);
      SameShape(o.state, p.state) && |o.rest| == |p.rest| && o.failed == p.failed
    decreases |a|
  {
    if !s.frozen && a != [] && s.xfer <= s.limit {
      var ret := Answer(s.backend, |a|);
      if ret > 0 {
        DirectShape(s.(backend := AfterPut(s.backend, a), xfer := s.xfer + ret),
                    t.(backend := AfterPut(t.backend, b), xfer := t.xfer + ret), a[ret..], b[ret..]);
      }
    }
  }

  lemma PutShape(s: State, t: State, a: seq<Byte>, b: seq<Byte>)
    requires SameShape(s, t) && |a| == |b|
    ensures SameShape(Put(s, a).0, Put(t, b).0) && Put(s, a).1 == Put(t, b).1
    ensures Overtakes(s, |a|) <==> Overtakes(t, |b|)
  {
    hide Flush, PutDirect;
    FlushShape(s.(frozen := false), t.(frozen := false));
    DirectShape(FlushUnlessError(s.(frozen := false)), FlushUnlessError(t.(frozen := false)), a, b);
  }

  lemma {:induction false} CloseShape(s: State, t: State)
    requires SameShape(s, t)
    ensures SameShape(Close(s), Close(t))
    decreases |s.backend.script|, |s.buffer|
  {
    hide Flush;
    if s.error == 0 && s.buffer != [] {
      FlushShrinks(s);
      FlushShape(s, t);
      CloseShape(Flush(s), Flush(t));
    }
  }

  lemma DoShape(s: State, t: State, a: Op, b: Op)
    requires SameShape(s, t) && SameOp(a, b)
    ensures SameShape(Do(s, a), Do(t, b))
  {
    hide Flush, Close, Put;
    match a
    case PutOp(data) => PutShape(s, t, data, b.data);
    case TickOp =>
      CloseShape(s, t);
      FlushShape(s.(xfer := 0), t.(xfer := 0));
    case SetLimitOp(_) =>
  }

  /** Every put of the run reports success. */
  ghost predicate AllSucceed(s: State, ops: seq<Op>)
    decreases |ops|
  {
    ops != [] ==>
      && (ops[0].PutOp? ==> Put(s, ops[0].data).1 == |ops[0].data|)
      && AllSucceed(Do(s, ops[0]), ops[1..])
  }

  ghost predicate SomeOvertakes(s: State, ops: seq<Op>)
    decreases |ops|
  {
    ops != [] && ((ops[0].PutOp? && Overtakes(s, |ops[0].data|)) || SomeOvertakes(Do(s, ops[0]), ops[1..]))
  }

  lemma {:induction false} RunShape(s: State, t: State, a: seq<Op>, b: seq<Op>)
    requires SameShape(s, t) && SameOps(a, b)
    ensures (AllSucceed(s, a) <==> AllSucceed(t, b)) && (SomeOvertakes(s, a) <==> SomeOvertakes(t, b))
    decreases |a|
  {
    hide Put, Do, Overtakes, SameShape;
    if a != [] {
      assert SameOp(a[0], b[0]);
      DoShape(s, t, a[0], b[0]);
      if a[0].PutOp? {
        PutShape(s, t, a[0].data, b[0].data);
      }
      RunShape(Do(s, a[0]), Do(t, b[0]), a[1..], b[1..]);
    }
  }

  /** The run adds what it puts to the stream, in order. */
  ghost predicate RunInOrder(s: State, ops: seq<Op>) { Stream(Run(s, ops)) == Stream(s) + AllPut(ops) }

  lemma {:induction false} ErrorsNegative(s: State, op: Op)
    requires s.error <= 0
    ensures Do(s, op).error <= 0
  {
    hide Flush, Close, PutDirect;
    match op
    case PutOp(data) =>
      FlushError(s.(frozen := false));
      DirectError(FlushUnlessError(s.(frozen := false)), data);
    case TickOp =>
      FlushError(s.(xfer := 0));
      CloseError(s);
    case SetLimitOp(_) =>
  }

  lemma {:induction false} FlushError(s: State)
    requires s.error <= 0
    ensures Flush(s).error <= 0
    decreases |s.buffer|
  {
    if s.buffer != [] {
      var ret := Answer(s.backend, |s.buffer|);
      if ret > 0 {
        FlushError(s.(backend := AfterPut(s.backend, s.buffer), buffer := s.buffer[ret..]));
      }
    }
  }

  lemma {:induction false} DirectError(s: State, data: seq<Byte>)
    requires s.error <= 0
    ensures PutDirect(s, data).state.error <= 0
    decreases |data|
  {
    if !s.frozen && data != [] && s.xfer <= s.limit {
      var ret := Answer(s.backend, |data|);
      if ret > 0 {
        DirectError(s.(backend := AfterPut(s.backend, data), xfer := s.xfer + ret), data[ret..]);
      }
    }
  }

  lemma {:induction false} CloseError(s: State)
    requires s.error <= 0
    ensures Close(s).error <= 0
    decreases |s.backend.script|, |s.buffer|
  {
    hide Flush;
    if s.error == 0 && s.buffer != [] {
      FlushShrinks(s);
      FlushError(s);
      CloseError(Flush(s));
    }
  }

  /** One operation that is no overtaking put. */
  lemma DoInOrder(s: State, op: Op)
    requires s.error <= 0 && (op.PutOp? ==> Put(s, op.data).1 == |op.data| && !Overtakes(s, |op.data|))
    ensures Stream(Do(s, op)) == Stream(s) + AllPut([op])
  {
    hide Flush, Close, PutDirect;
    match op
    case PutOp(data) =>
      NotOvertaking(s, data);
      assert AllPut([op]) == data;
    case TickOp =>
      FlushConserves(s.(xfer := 0));
      CloseConserves(s);
    case SetLimitOp(_) =>
  }

  lemma RunUnfolds(s: State, ops: seq<Op>)
    requires ops != []
    ensures Run(s, ops) == Run(Do(s, ops[0]), ops[1..]) && AllPut(ops) == AllPut([ops[0]]) + AllPut(ops[1..])
  {
    hide Do;
  }

  lemma {:induction false} NoOvertakingKeepsOrder(s: State, ops: seq<Op>)
    requires s.error <= 0 && AllSucceed(s, ops) && !SomeOvertakes(s, ops)
    ensures RunInOrder(s, ops)
    decreases |ops|
  {
    hide Put, Do, Overtakes, Stream;
    if ops == [] {
      NothingRun(s);
    } else {
      DoInOrder(s, ops[0]);
      ErrorsNegative(s, ops[0]);
      NoOvertakingKeepsOrder(Do(s, ops[0]), ops[1..]);
      RunUnfolds(s, ops);
      Regroup3(Stream(s), AllPut([ops[0]]), AllPut(ops[1..]));
    }
  }

  lemma NothingRun(s: State)
    ensures Run(s, []) == s && AllPut([]) == [] && Stream(s) + [] == Stream(s)
  {}

  lemma Regroup3(a: seq<Byte>, b: seq<Byte>, c: seq<Byte>)
    ensures (a + b) + c == a + (b + c)
  {}

  // What was delivered stays.

  lemma {:induction false} FlushDelivers(s: State)
    ensures s.backend.delivered <= Flush(s).backend.delivered
    decreases |s.buffer|
  {
    if s.buffer != [] {
      var ret := Answer(s.backend, |s.buffer|);
      if ret > 0 {
        FlushDelivers(s.(backend := AfterPut(s.backend, s.buffer), buffer := s.buffer[ret..]));
      }
    }
  }

  lemma {:induction false} DirectDelivers(s: State, data: seq<Byte>)
    ensures s.backend.delivered <= PutDirect(s, data).state.backend.delivered
    decreases |data|
  {
    if !s.frozen && data != [] && s.xfer <= s.limit {
      var ret := Answer(s.backend, |data|);
      if ret > 0 {
        DirectDelivers(s.(backend := AfterPut(s.backend, data), xfer := s.xfer + ret), data[ret..]);
      }
    }
  }

  lemma {:induction false} CloseDelivers(s: State)
    ensures s.backend.delivered <= Close(s).backend.delivered
    decreases |s.backend.script|, |s.buffer|
  {
    hide Flush;
    if s.error == 0 && s.buffer != [] {
      FlushShrinks(s);
      FlushDelivers(s);
      CloseDelivers(Flush(s));
    }
  }

  lemma DoDelivers(s: State, op: Op)
    ensures s.backend.delivered <= Do(s, op).backend.delivered
  {
    hide Flush, Close, PutDirect;
    match op
    case PutOp(data) =>
      FlushDelivers(s.(frozen := false));
      DirectDelivers(FlushUnlessError(s.(frozen := false)), data);
    case TickOp =>
      FlushDelivers(s.(xfer := 0));
      CloseDelivers(s);
    case SetLimitOp(_) =>
  }

  lemma {:induction false} RunDelivers(s: State, ops: seq<Op>)
    ensures s.backend.delivered <= Run(s, ops).backend.delivered
    decreases |ops|
  {
    hide Do;
    if ops != [] {
      DoDelivers(s, ops[0]);
      RunDelivers(Do(s, ops[0]), ops[1..]);
    }
  }

  /** An overtaking put that begins with another byte than the first buffered one delivers its byte in the
      place of that one. */
  lemma OvertakenPlace(s: State, data: seq<Byte>)
    requires s.error == 0 && Overtakes(s, |data|) && data[0] != Flush(s.(frozen := false)).buffer[0]
    ensures var t, k := Put(s, data).0, |Flush(s.(frozen := false)).backend.delivered|;
      k < |t.backend.delivered| && k < |Stream(s)| && t.backend.delivered[k] != Stream(s)[k]
  {
    hide Flush, PutDirect, Put;
    var f := Flush(s.(frozen := false));
    FlushConserves(s.(frozen := false));
    PutDirectConserves(f, data);
    PutUnfolds(s, data);
    DirectRest(f, data);
    var o := PutDirect(f, data);
    DirectFirst(f.backend.delivered, o.state.backend.delivered, data, o.rest);
    assert Stream(s)[|f.backend.delivered|] == f.buffer[0];
  }

  lemma OvertakingFirstShows(s: State, data: seq<Byte>, ops: seq<Op>)
    requires s.error == 0 && Overtakes(s, |data|) && data[0] != Flush(s.(frozen := false)).buffer[0]
    ensures !RunInOrder(s, [PutOp(data)] + ops)
  {
    hide Flush, Put, AllPut;
    var all := [PutOp(data)] + ops;
    assert all[1..] == ops;
    var t, k := Put(s, data).0, |Flush(s.(frozen := false)).backend.delivered|;
    OvertakenPlace(s, data);
    RunDelivers(t, ops);
    assert Do(s, all[0]) == t;
    assert Stream(Run(s, all))[k] == t.backend.delivered[k];
    assert (Stream(s) + AllPut(all))[k] == Stream(s)[k];
  }

  /** A run with an overtaking put, with other bytes if need be, ends up out of order. */
  lemma {:induction false} OvertakingRunShows(s: State, ops: seq<Op>) returns (other: seq<Op>)
    requires s.error <= 0 && AllSucceed(s, ops) && SomeOvertakes(s, ops)
    ensures SameOps(ops, other) && !RunInOrder(s, other)
    decreases |ops|
  {
    hide Flush, Do, Stream, PutDirect;
    if ops[0].PutOp? && Overtakes(s, |ops[0].data|) {
      var first := Flush(s.(frozen := false)).buffer[0];
      var data := seq(|ops[0].data|, i => if first == 0 then 1 as Byte else 0 as Byte);
      OvertakingFirstShows(s, data, ops[1..]);
      other := [PutOp(data)] + ops[1..];
    } else {
      var t := Do(s, ops[0]);
      ErrorsNegative(s, ops[0]);
      var more := OvertakingRunShows(t, ops[1..]);
      other := [ops[0]] + more;
      assert other[1..] == more;
      DoInOrder(s, ops[0]);
      RunUnfolds(s, other);
      Regroup3(Stream(s), AllPut([ops[0]]), AllPut(more));
      forall i | 0 <= i < |ops| ensures SameOp(ops[i], other[i]) {
        assert i > 0 ==> SameOp(ops[1..][i - 1], more[i - 1]);
      }
    }
  }

  /** A run in which every put reports success keeps the order of what it puts, whatever the bytes are, if and
      only if no put of it overtakes. */
  lemma {:induction false} RunExact(s: State, ops: seq<Op>)
    requires s.error <= 0 && AllSucceed(s, ops)
    ensures (forall other :: SameOps(ops, other) ==> RunInOrder(s, other)) <==> !SomeOvertakes(s, ops)
  {
    hide RunInOrder, AllSucceed, SomeOvertakes, SameOps;
    if SomeOvertakes(s, ops) {
      var other := OvertakingRunShows(s, ops);
    } else {
      forall other | SameOps(ops, other) ensures RunInOrder(s, other) {
        RunShape(s, s, ops, other);
        NoOvertakingKeepsOrder(s, other);
      }
    }
  }

  // ---------- The object that the source updates in place ----------

  class QEMUFileBuffered {
    var backend: Backend
    var buffer: array<Byte>  // its length is buffer_capacity
    var bufferSize: nat
    var freezeOutput: bool
    var bytesXfer: nat
    var xferLimit: nat
    var lastError: int
    var closed: bool

    ghost predicate Valid()
      reads this
    {
      bufferSize <= buffer.Length
    }

    ghost function Value(): State
      reads this, buffer
      requires Valid()
    {
      State(backend, buffer[..bufferSize], freezeOutput, bytesXfer, xferLimit, lastError, closed)
    }

    constructor (script: seq<int>, bytesPerSec: nat)
      ensures Valid() && fresh(buffer) && Value() == Opened(script, bytesPerSec)
    {
      backend := Backend([], script, false);
      buffer := new Byte[0];
      bufferSize, freezeOutput, bytesXfer, xferLimit, lastError := 0, false, 0, bytesPerSec / 10, 0;
      closed := false;
    }

    /** buffered_append: grow the buffer when it is too small, then copy. */
    method Append(data: seq<Byte>)
      requires Valid()
      modifies this, buffer
      ensures Valid()
      ensures if |data| <= old(buffer.Length - bufferSize) then buffer == old(buffer)
              else fresh(buffer) && buffer.Length == old(buffer.Length) + |data| + 1024
      ensures Value() == old(Value()).(buffer := old(Value()).buffer + data)
    {
      if |data| > buffer.Length - bufferSize {
        var tmp := new Byte[buffer.Length + |data| + 1024];
        forall i | 0 <= i < bufferSize {
          tmp[i] := buffer[i];
        }
        buffer := tmp;
      }
      forall i | 0 <= i < |data| {
        buffer[bufferSize + i] := data[i];
      }
      bufferSize := bufferSize + |data|;
    }

    /** The memmove at the end of buffered_flush. */
    method DropFront(offset: nat)
      requires Valid() && offset <= bufferSize
      modifies this`bufferSize, buffer
      ensures Valid() && Value() == old(Value()).(buffer := old(Value()).buffer[offset..])
    {
      forall i | 0 <= i < bufferSize - offset {
        buffer[i] := buffer[offset + i];
      }
      bufferSize := bufferSize - offset;
      assert buffer[..bufferSize] == old(buffer[..bufferSize])[offset..];
    }

    /** The loop of buffered_flush: how much of the buffer the backend has taken. */
    method WriteOut() returns (offset: nat)
      requires Valid()
      modifies this`backend, this`freezeOutput, this`lastError
      ensures Valid() && offset <= bufferSize
      ensures Flush(old(Value())) == Value().(buffer := buffer[..bufferSize][offset..])
    {
      hide Flush, AfterPut;
      ghost var s := Value();
      offset := 0;
      assert s.buffer[0..] == s.buffer;
      while offset < bufferSize
        invariant Valid() && offset <= bufferSize
        invariant Flush(s) == Flush(Value().(buffer := s.buffer[offset..]))
      {
        var data := buffer[offset..bufferSize];
        assert data == s.buffer[offset..];
        FlushUnfolds(Value().(buffer := data));
        var ret := Answer(backend, |data|);
        backend := AfterPut(backend, data);
        if ret == -EAGAIN {
          freezeOutput := true;
          return;
        }
        if ret <= 0 {
          lastError := ret;
          return;
        }
        SliceOfDrop(s.buffer, offset, ret);
        offset := offset + ret;
      }
      FlushNothing(Value().(buffer := s.buffer[offset..]));
    }

    /** buffered_flush. */
    method FlushBuffer()
      requires Valid()
      modifies this, buffer
      ensures Valid() && buffer == old(buffer)
      ensures Value() == FlushUnlessError(old(Value()))
    {
      hide Flush;
      if lastError != 0 {
        return;
      }
      var offset := WriteOut();
      DropFront(offset);
    }

    /** The loop of buffered_put_buffer that bypasses the buffer. */
    method PutDirectly(data: seq<Byte>) returns (offset: nat, failed: bool)
      requires Valid()
      modifies this`backend, this`freezeOutput, this`lastError, this`bytesXfer
      ensures Valid() && offset <= |data|
      ensures PutDirect(old(Value()), data) == PutOutcome(Value(), data[offset..], failed)
    {
      hide AfterPut, PutDirect;
      ghost var s := Value();
      offset, failed := 0, false;
      assert data[0..] == data;
      while true
        invariant Valid() && offset <= |data| && !failed
        invariant PutDirect(s, data) == PutDirect(Value(), data[offset..])
        decreases |data| - offset
      {
        var rest := data[offset..];
        DirectUnfolds(Value(), rest);
        if freezeOutput || offset >= |data| || bytesXfer > xferLimit {
          return;
        }
        var ret := Answer(backend, |rest|);
        backend := AfterPut(backend, rest);
        if ret == -EAGAIN {
          freezeOutput := true;
          return;
        }
        if ret <= 0 {
          lastError, failed := ret, true;
          return;
        }
        SliceOfDrop(data, offset, ret);
        offset := offset + ret;
        bytesXfer := bytesXfer + ret;
      }
    }

    /** buffered_put_buffer. */
    method PutBuffer(data: seq<Byte>) returns (result: int)
      requires Valid()
      modifies this, buffer
      ensures Valid() && (buffer == old(buffer) || fresh(buffer))
      ensures (Value(), result) == Put(old(Value()), data)
    {
      if lastError != 0 {
        return lastError;
      }
      hide Flush, PutDirect;
      freezeOutput := false;
      FlushBuffer();
      var offset, failed := PutDirectly(data);
      if failed {
        result := -EINVAL;
      } else {
        Append(data[offset..]);
        result := |data|;
      }
    }

    /** buffered_close */
    method CloseFile()
      requires Valid()
      modifies this, buffer
      ensures Valid() && buffer == old(buffer)
      ensures Value() == Close(old(Value()))
    {
      while lastError == 0 && bufferSize != 0
        invariant Valid() && buffer == old(buffer)
        invariant Close(old(Value())) == Close(Value())
        decreases |backend.script|, bufferSize
      {
        FlushShrinks(Value());
        FlushBuffer();
      }
      closed := true;
    }

    /** buffered_rate_tick. */
    method RateTick()
      requires Valid()
      modifies this, buffer
      ensures Valid() && buffer == old(buffer)
      ensures Value() == Tick(old(Value()))
    {
      if lastError != 0 {
        CloseFile();
        return;
      }
      if freezeOutput {
        return;
      }
      bytesXfer := 0;
      FlushBuffer();
    }

    /** buffered_rate_limit */
    method CheckRateLimit() returns (ret: int)
      requires Valid()
      ensures ret == RateLimit(Value())
    {
      if lastError != 0 {
        return lastError;
      }
      if freezeOutput {
        return 1;
      }
      if bytesXfer > xferLimit {
        return 1;
      }
      return 0;
    }

    /** buffered_set_rate_limit */
    method SetRateLimit(newRate: int) returns (ret: int)
      requires Valid() && -0x8000_0000_0000_0000 <= newRate < 0x8000_0000_0000_0000
      modifies this`xferLimit
      ensures Valid() && Value() == SetLimit(old(Value()), newRate)
      ensures ret == ToSigned(xferLimit)
    {
      if lastError == 0 {
        xferLimit := ToSize(Tenth(newRate));
      }
      ret := ToSigned(xferLimit);
    }
  }
}
