/** What bottom halves do, as a function on values: the meaning of vmm/async.c without the linked list. */
module BhWorld {
  /** What a callback, or the main program, does. A poll carries the behaviour of the callbacks
      it will invoke, in order; a callback without an entry does nothing. A bottom half is named
      by the position of its creation; clients never use one that has been freed. */
  datatype Action =
    | New
    | Schedule(bh: nat)
    | ScheduleIdle(bh: nat)
    | Cancel(bh: nat)
    | Delete(bh: nat)
    | Poll(callbacks: seq<Script>)

  datatype Script = Script(actions: seq<Action>)

  datatype Bh = Bh(scheduled: bool, idle: bool, deleted: bool, freed: bool)

  /** A callback invocation: which bottom half, at which nesting depth, and whether it was idle. */
  datatype Call = Call(bh: nat, depth: nat, idle: bool)

  /** Every bottom half ever created, the nesting depth of polls, and the callbacks invoked so far. */
  datatype World = World(bhs: seq<Bh>, nesting: nat, calls: seq<Call>)

  /** The listed bottom halves among the first n: the newest first, without the freed ones. */
  function Order(bhs: seq<Bh>, n: nat): (order: seq<nat>)
    requires n <= |bhs|
    ensures forall i :: 0 <= i < |order| ==> order[i] < n && !bhs[order[i]].freed
  {
    if n == 0 then [] else (if bhs[n - 1].freed then [] else [n - 1]) + Order(bhs, n - 1)
  }

  /** Scheduling what is scheduled changes nothing. */
  function Touched(b: Bh, a: Action): Bh {
    match a
    case Schedule(_) => if b.scheduled then b else b.(scheduled := true, idle := false)
    case ScheduleIdle(_) => if b.scheduled then b else b.(scheduled := true, idle := true)
    case Cancel(_) => b.(scheduled := false)
    case Delete(_) => b.(scheduled := false, deleted := true)
    case _ => b
  }

  function Touch(w: World, h: nat, a: Action): World {
    if h < |w.bhs| && !w.bhs[h].freed then w.(bhs := w.bhs[h := Touched(w.bhs[h], a)]) else w
  }

  function Exec(w: World, a: Action): (n: World)
    ensures |w.bhs| <= |n.bhs| && n.nesting == w.nesting
    decreases a
  {
    match a
    case New => w.(bhs := w.bhs + [Bh(false, false, false, false)])
    case Schedule(h) => Touch(w, h, a)
    case ScheduleIdle(h) => Touch(w, h, a)
    case Cancel(h) => Touch(w, h, a)
    case Delete(h) => Touch(w, h, a)
    case Poll(callbacks) => PollOnce(w, callbacks).world
  }

  /** The first n actions of a callback. */
  function RunFirst(w: World, script: Script, n: nat): (r: World)
    requires n <= |script.actions|
    ensures |w.bhs| <= |r.bhs| && r.nesting == w.nesting
    decreases script, n
  {
    if n == 0 then w else Exec(RunFirst(w, script, n - 1), script.actions[n - 1])
  }

  /** A pending bottom half is taken off the schedule. */
  function Started(w: World, h: nat): World
    requires h < |w.bhs|
  {
    w.(bhs := w.bhs[h := w.bhs[h].(scheduled := false, idle := false)],
       calls := w.calls + [Call(h, w.nesting, w.bhs[h].idle)])
  }

  predicate Pending(w: World, h: nat)
    requires h < |w.bhs|
  {
    w.bhs[h].scheduled && !w.bhs[h].deleted
  }

  /** Bottom half h gets its turn; its callback is the k-th of this poll. */
  function Visited(w: World, callbacks: seq<Script>, k: nat, h: nat): (n: World)
    requires h < |w.bhs|
    ensures |w.bhs| <= |n.bhs| && n.nesting == w.nesting
    decreases callbacks, 0
  {
    if !Pending(w, h) then w
    else if k < |callbacks| then RunFirst(Started(w, h), callbacks[k], |callbacks[k].actions|)
    else Started(w, h)
  }

  /** A poll in progress: the world, how many callbacks it has invoked, and whether one of them was of a
      bottom half that was not idle. */
  datatype Polling = Polling(world: World, count: nat, busy: bool)

  /** The poll after the first i bottom halves of those listed at its start. */
  function PollFirst(w: World, callbacks: seq<Script>, order: seq<nat>, i: nat): (p: Polling)
    requires i <= |order| && forall j :: 0 <= j < |order| ==> order[j] < |w.bhs|
    ensures |w.bhs| <= |p.world.bhs| && p.world.nesting == w.nesting
    decreases callbacks, 1, i
  {
    if i == 0 then Polling(w, 0, false)
    else
      var p, h := PollFirst(w, callbacks, order, i - 1), order[i - 1];
      Polling(Visited(p.world, callbacks, p.count, h),
              p.count + (if Pending(p.world, h) then 1 else 0),
              p.busy || (Pending(p.world, h) && !p.world.bhs[h].idle))
  }

  /** The deleted bottom halves are freed. */
  function Collected(bhs: seq<Bh>): (r: seq<Bh>)
    ensures |r| == |bhs| && forall i :: 0 <= i < |bhs| ==> r[i] == bhs[i].(freed := bhs[i].freed || bhs[i].deleted)
  {
    seq(|bhs|, i requires 0 <= i < |bhs| => bhs[i].(freed := bhs[i].freed || bhs[i].deleted))
  }

  /** qemu_bh_poll */
  function PollOnce(w: World, callbacks: seq<Script>): (p: Polling)
    ensures |w.bhs| <= |p.world.bhs| && p.world.nesting == w.nesting
    decreases callbacks, 2
  {
    var order := Order(w.bhs, |w.bhs|);
    var p := PollFirst(w.(nesting := w.nesting + 1), callbacks, order, |order|);
    var n := p.world.(nesting := w.nesting);
    p.(world := if w.nesting == 0 then n.(bhs := Collected(n.bhs)) else n)
  }

  // ---------- While a poll is active nothing is freed ----------

  ghost predicate FreedKept(w: World, n: World) {
    |w.bhs| <= |n.bhs| && forall i :: 0 <= i < |w.bhs| ==> n.bhs[i].freed == w.bhs[i].freed
  }

  lemma {:induction false} ExecFreesNothing(w: World, a: Action)
    requires w.nesting > 0
    ensures FreedKept(w, Exec(w, a))
    decreases a
  {
    if a.Poll? {
      PollFreesNothing(w, a.callbacks);
    }
  }

  lemma {:induction false} RunFreesNothing(w: World, script: Script, n: nat)
    requires w.nesting > 0 && n <= |script.actions|
    ensures FreedKept(w, RunFirst(w, script, n))
    decreases script, n
  {
    if n > 0 {
      RunFreesNothing(w, script, n - 1);
      ExecFreesNothing(RunFirst(w, script, n - 1), script.actions[n - 1]);
    }
  }

  lemma {:induction false} PollFirstFreesNothing(w: World, callbacks: seq<Script>, order: seq<nat>, i: nat)
    requires w.nesting > 0 && i <= |order| && forall j :: 0 <= j < |order| ==> order[j] < |w.bhs|
    ensures FreedKept(w, PollFirst(w, callbacks, order, i).world)
    decreases callbacks, 1, i
  {
    if i > 0 {
      PollFirstFreesNothing(w, callbacks, order, i - 1);
      var p, h := PollFirst(w, callbacks, order, i - 1), order[i - 1];
      if p.count < |callbacks| {
        RunFreesNothing(Started(p.world, h), callbacks[p.count], |callbacks[p.count].actions|);
      }
    }
  }

  lemma {:induction false} PollFreesNothing(w: World, callbacks: seq<Script>)
    requires w.nesting > 0
    ensures FreedKept(w, PollOnce(w, callbacks).world)
    decreases callbacks, 2
  {
    hide PollFirst, Order;
    var order := Order(w.bhs, |w.bhs|);
    PollFirstFreesNothing(w.(nesting := w.nesting + 1), callbacks, order, |order|);
  }

  // ---------- Small programs ----------

  const START := World([], 0, [])

  /** The callback of the first bottom half schedules the second, which is the newer one and so had its turn
      already; it stays scheduled for the next poll. */
  lemma CallbackSchedules()
    ensures var w := Exec(Exec(Exec(START, New), New), Schedule(0));
      var p := PollOnce(w, [Script([Schedule(1)])]);
      && p.busy && p.world.calls == [Call(0, 1, false)] && p.world.nesting == 0
      && p.world.bhs == [Bh(false, false, false, false), Bh(true, false, false, false)]
  {
    var b, s := Bh(false, false, false, false), Bh(true, false, false, false);
    var w := World([s, b], 0, []);
    assert Exec(Exec(Exec(START, New), New), Schedule(0)) == w;
    assert Order(w.bhs, 2) == [1] + ([0] + Order(w.bhs, 0)) == [1, 0];
    var up, script := w.(nesting := 1), Script([Schedule(1)]);
    assert PollFirst(up, [script], [1, 0], 0) == Polling(up, 0, false);
    assert !Pending(up, 1);
    assert PollFirst(up, [script], [1, 0], 1) == Polling(up, 0, false);
    var v := World([b, b], 1, [Call(0, 1, false)]);
    assert Started(up, 0) == v;
    assert RunFirst(v, script, 1) == Exec(RunFirst(v, script, 0), Schedule(1)) == v.(bhs := [b, s]);
    assert PollFirst(up, [script], [1, 0], 2) == Polling(v.(bhs := [b, s]), 1, true);
  }

  /** An idle bottom half runs, but does not count as progress; a deleted one does not run and is freed. */
  lemma IdleAndDeleted()
    ensures var w := Exec(Exec(Exec(Exec(START, New), New), ScheduleIdle(0)), Schedule(1));
      var p := PollOnce(Exec(w, Delete(1)), []);
      && !p.busy && p.world.calls == [Call(0, 1, true)]
      && p.world.bhs == [Bh(false, false, false, false), Bh(false, false, true, true)]
  {
    var b, d := Bh(true, true, false, false), Bh(false, false, true, false);
    var w := World([b, d], 0, []);
    assert Exec(Exec(Exec(Exec(Exec(START, New), New), ScheduleIdle(0)), Schedule(1)), Delete(1)) == w;
    assert Order(w.bhs, 2) == [1] + ([0] + Order(w.bhs, 0)) == [1, 0];
    var up := w.(nesting := 1);
    assert PollFirst(up, [], [1, 0], 1) == Polling(up, 0, false);
    assert PollFirst(up, [], [1, 0], 2) == Polling(Started(up, 0), 1, false);
  }
}
