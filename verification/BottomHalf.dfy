/** The bottom halves of vmm/async.c: a linked list polled re-entrantly, with deletion deferred
    until no poll is active. Callbacks are arbitrary finite sequences of calls into this module. */
module BottomHalf {
  import opened BhWorld

  class QEMUBH {
    var scheduled: bool
    var idle: bool
    var deleted: bool
    var next: QEMUBH?
    // How often this bottom half was put on schedule, ran, and was taken off without running.
    ghost var schedules: nat
    ghost var runs: nat
    ghost var cancels: nat

    constructor (next: QEMUBH?)
      ensures this.next == next && !scheduled && !idle && !deleted && Balanced()
      ensures schedules == runs == cancels == 0
    {
      scheduled, idle, deleted, this.next := false, false, false, next;
      schedules, runs, cancels := 0, 0, 0;
    }

    /** Every scheduling is pending, has run once, or was cancelled. */
    ghost predicate Balanced()
      reads this
    {
      schedules == runs + cancels + if scheduled then 1 else 0
    }

    ghost predicate Pending()
      reads this
    {
      scheduled && !deleted
    }

    /** Counters and the deletion mark only grow and stay in balance, and what was pending is still pending
        or has run or was cancelled in between. */
    twostate predicate Evolved()
      reads this
    {
      && old(schedules) <= schedules && old(runs) <= runs && old(cancels) <= cancels
      && (old(deleted) ==> deleted)
      && (old(scheduled && !deleted) ==> (scheduled && !deleted) || Settled())
      && (old(Balanced()) ==> Balanced())
    }

    /** It has run or was cancelled since. */
    twostate predicate Settled()
      reads this
    {
      old(runs) < runs || old(cancels) < cancels
    }

    /** qemu_bh_schedule and qemu_bh_schedule_idle. */
    method PutOnSchedule(isIdle: bool)
      modifies this`scheduled, this`idle, this`schedules
      ensures Evolved() && scheduled
      ensures if old(scheduled) then idle == old(idle) && schedules == old(schedules)
              else idle == isIdle && schedules == old(schedules) + 1
    {
      if scheduled {
        return;
      }
      scheduled, idle := true, isIdle;
      schedules := schedules + 1;
    }

    /** qemu_bh_cancel. */
    method Unschedule()
      modifies this`scheduled, this`cancels
      ensures Evolved() && !scheduled
      ensures cancels == old(cancels) + if old(scheduled) then 1 else 0
    {
      cancels := cancels + if scheduled then 1 else 0;
      scheduled := false;
    }

    /** qemu_bh_delete: only a mark. */
    method MarkDeleted()
      modifies this`scheduled, this`cancels, this`deleted
      ensures Evolved() && !scheduled && deleted
      ensures cancels == old(cancels) + if old(scheduled) then 1 else 0
    {
      Unschedule();
      deleted := true;
    }

    ghost function Flags(freed: bool): Bh
      reads this`scheduled, this`idle, this`deleted
    {
      Bh(scheduled, idle, deleted, freed)
    }

    /** One of the calls above. */
    method Act(a: Action)
      requires a.Schedule? || a.ScheduleIdle? || a.Cancel? || a.Delete?
      modifies this`scheduled, this`idle, this`deleted, this`schedules, this`cancels
      ensures Evolved()
      ensures Flags(false) == Touched(old(Flags(false)), a)
    {
      match a
      case Schedule(_) => PutOnSchedule(false);
      case ScheduleIdle(_) => PutOnSchedule(true);
      case Cancel(_) => Unschedule();
      case Delete(_) => MarkDeleted();
    }

    /** The flag updates in qemu_bh_poll just before the callback. */
    method StartRun() returns (busy: bool)
      requires Pending()
      modifies this`scheduled, this`idle, this`runs
      ensures Evolved() && !scheduled && !idle && runs == old(runs) + 1
      ensures busy == !old(idle)
    {
      scheduled, busy, idle := false, !idle, false;
      runs := runs + 1;
    }
  }

  /** A callback invocation: which bottom half, at which nesting depth, and whether it was idle. */
  datatype Event = Event(bh: QEMUBH, depth: nat, idle: bool)

  /** The next fields of a set of nodes. */
  ghost function NextMap(nodes: set<QEMUBH>): map<QEMUBH, QEMUBH?>
    reads nodes`next
  {
    map n | n in nodes :: n.next
  }

  ghost predicate Distinct(list: seq<QEMUBH>) {
    forall i, j :: 0 <= i < j < |list| ==> list[i] != list[j]
  }

  /** LinkedIn over a snapshot of the next fields. */
  ghost predicate Linked(list: seq<QEMUBH>, next: map<QEMUBH, QEMUBH?>) {
    && (forall i :: 0 <= i < |list| ==> list[i] in next)
    && Distinct(list)
    && (forall i {:trigger next[list[i]]} :: 0 <= i < |list| - 1 ==> next[list[i]] == list[i + 1])
    && (list != [] ==> next[list[|list| - 1]] == null)
  }

  /** The nodes of a list are linked in order and end in null. */
  ghost predicate LinkedIn(list: seq<QEMUBH>, nodes: set<QEMUBH>)
    reads nodes`next
  {
    && (forall n :: n in list ==> n in nodes)
    && Distinct(list)
    && (forall i {:trigger list[i].next} :: 0 <= i < |list| - 1 ==> list[i].next == list[i + 1])
    && (list != [] ==> list[|list| - 1].next == null)
  }

  lemma LinkedByMap(list: seq<QEMUBH>, nodes: set<QEMUBH>)
    ensures LinkedIn(list, nodes) <==> Linked(list, NextMap(nodes))
  {
    hide Distinct;
    var next := NextMap(nodes);
    assert (forall n :: n in list ==> n in nodes) <==> (forall i :: 0 <= i < |list| ==> list[i] in next);
    if forall n :: n in list ==> n in nodes {
      assert forall i :: 0 <= i < |list| ==> next[list[i]] == list[i].next;
    }
  }

  /** The effect of *bhp = bh->next on the links, where bh is node k and bhp the link to it. */
  lemma UnlinkNode(was: seq<QEMUBH>, k: nat, next: map<QEMUBH, QEMUBH?>, now: seq<QEMUBH>, next': map<QEMUBH, QEMUBH?>)
    requires k < |was| && now == was[..k] + was[k + 1..] && Linked(was, next)
    requires next' == if k == 0 then next else next[was[k - 1] := next[was[k]]]
    ensures Linked(now, next')
  {
    hide Distinct;
    RemoveAt(was, k, now);
    forall i | 0 <= i < |now| - 1 ensures next'[now[i]] == now[i + 1] {
      LinkStays(was, k, next, next', if i < k then i else i + 1);
    }
    if now != [] {
      LinkStays(was, k, next, next', if |now| - 1 < k then |now| - 1 else |now|);
    }
  }

  lemma LinkStays(was: seq<QEMUBH>, k: nat, next: map<QEMUBH, QEMUBH?>, next': map<QEMUBH, QEMUBH?>, i: nat)
    requires k < |was| && Linked(was, next) && i < |was| && i != k
    requires next' == if k == 0 then next else next[was[k - 1] := next[was[k]]]
    ensures was[i] in next' && next'[was[i]] == next[was[if i + 1 == k then k else i]]
  {}

  ghost predicate Suffix(s: seq<QEMUBH>, t: seq<QEMUBH>) {
    |s| <= |t| && t[|t| - |s|..] == s
  }

  /** From entry `from` on, the log has a callback at this depth of a bottom half that was not idle. */
  ghost predicate RanBusy(log: seq<Event>, from: nat, depth: nat) {
    exists j :: from <= j < |log| && log[j].depth == depth && !log[j].idle
  }

  lemma RanBusyMore(log: seq<Event>, more: seq<Event>, from: nat, depth: nat)
    requires log <= more && from <= |log|
    ensures RanBusy(more, from, depth) <==> RanBusy(log, from, depth) || RanBusy(more, |log|, depth)
  {}

  lemma RanBusyNothing(log: seq<Event>, depth: nat)
    ensures !RanBusy(log, |log|, depth)
  {}

  /** Removing node k from a list of distinct nodes. */
  lemma RemoveAt(was: seq<QEMUBH>, k: nat, now: seq<QEMUBH>)
    requires k < |was| && now == was[..k] + was[k + 1..]
    requires Distinct(was)
    ensures Distinct(now)
    ensures forall n :: n in now <==> n in was && n != was[k]
    ensures forall i {:trigger now[i]} :: 0 <= i < |now| ==> now[i] == was[if i < k then i else i + 1]
  {
    forall n | n in was && n != was[k] ensures n in now {
      var i :| 0 <= i < |was| && was[i] == n;
      assert now[if i < k then i else i - 1] == n;
    }
  }

  ghost function Without(list: seq<QEMUBH>, dead: set<QEMUBH>): seq<QEMUBH> {
    if list == [] then []
    else (if list[0] in dead then [] else [list[0]]) + Without(list[1..], dead)
  }

  /** Sweeping list0 has kept `kept` and has `rest` to go. */
  ghost predicate Swept(list0: seq<QEMUBH>, dead: set<QEMUBH>, kept: seq<QEMUBH>, rest: seq<QEMUBH>) {
    Without(list0, dead) == kept + Without(rest, dead)
  }

  lemma SweptStep(list0: seq<QEMUBH>, dead: set<QEMUBH>, kept: seq<QEMUBH>, rest: seq<QEMUBH>)
    requires Swept(list0, dead, kept, rest) && rest != []
    ensures Swept(list0, dead, if rest[0] in dead then kept else kept + [rest[0]], rest[1..])
  {}

  lemma SweptEnds(list0: seq<QEMUBH>, dead: set<QEMUBH>, kept: seq<QEMUBH>)
    ensures Swept(list0, dead, [], list0)
    ensures Swept(list0, dead, kept, []) ==> Without(list0, dead) == kept
  {}

  lemma {:induction false} WithoutElements(list: seq<QEMUBH>, dead: set<QEMUBH>)
    ensures forall n :: n in Without(list, dead) <==> n in list && n !in dead
  {
    if list != [] {
      WithoutElements(list[1..], dead);
    }
  }

  /** Those of the first n nodes that are not freed, the last first. */
  ghost function Listing(nodes: seq<QEMUBH>, bhs: seq<Bh>, n: nat): (list: seq<QEMUBH>)
    requires n <= |bhs| == |nodes|
  {
    if n == 0 then []
    else if bhs[n - 1].freed then Listing(nodes, bhs, n - 1)
    else [nodes[n - 1]] + Listing(nodes, bhs, n - 1)
  }

  lemma {:induction false} ListingOrder(nodes: seq<QEMUBH>, bhs: seq<Bh>, n: nat)
    requires n <= |bhs| == |nodes|
    ensures |Listing(nodes, bhs, n)| == |Order(bhs, n)|
    ensures forall i :: 0 <= i < |Order(bhs, n)| ==> Listing(nodes, bhs, n)[i] == nodes[Order(bhs, n)[i]]
  {
    if n > 0 {
      ListingOrder(nodes, bhs, n - 1);
    }
  }

  lemma {:induction false} SameListing(nodes: seq<QEMUBH>, a: seq<Bh>, b: seq<Bh>, n: nat)
    requires n <= |a| == |b| == |nodes| && forall i :: 0 <= i < n ==> a[i].freed == b[i].freed
    ensures Listing(nodes, a, n) == Listing(nodes, b, n)
  {
    if n > 0 {
      SameListing(nodes, a, b, n - 1);
    }
  }

  lemma ListingUnfolds(nodes: seq<QEMUBH>, bhs: seq<Bh>, n: nat)
    requires 0 < n <= |bhs| == |nodes|
    ensures Listing(nodes, bhs, n) ==
      if bhs[n - 1].freed then Listing(nodes, bhs, n - 1) else [nodes[n - 1]] + Listing(nodes, bhs, n - 1)
  {}

  lemma {:induction false} LongerListing(nodes: seq<QEMUBH>, bhs: seq<Bh>, bh: QEMUBH, b: Bh, n: nat)
    requires n <= |bhs| == |nodes|
    ensures Listing(nodes + [bh], bhs + [b], n) == Listing(nodes, bhs, n)
  {
    if n > 0 {
      LongerListing(nodes, bhs, bh, b, n - 1);
    }
  }

  /** Freeing the deleted bottom halves takes them out of the list. */
  lemma {:induction false} CollectedListing(nodes: seq<QEMUBH>, bhs: seq<Bh>, dead: set<QEMUBH>, n: nat)
    requires n <= |bhs| == |nodes| && forall i :: 0 <= i < |nodes| ==> (nodes[i] in dead <==> bhs[i].deleted)
    ensures Listing(nodes, Collected(bhs), n) == Without(Listing(nodes, bhs, n), dead)
  {
    if n > 0 {
      CollectedListing(nodes, bhs, dead, n - 1);
      assert Collected(bhs)[n - 1].freed == (bhs[n - 1].freed || bhs[n - 1].deleted);
      hide Collected;
      WithoutFront(nodes[n - 1], Listing(nodes, bhs, n - 1), dead);
    }
  }

  lemma WithoutFront(n: QEMUBH, list: seq<QEMUBH>, dead: set<QEMUBH>)
    ensures Without([n] + list, dead) == if n in dead then Without(list, dead) else [n] + Without(list, dead)
  {
    assert ([n] + list)[1..] == list;
  }

  lemma TouchedFreed(b: Bh, a: Action)
    ensures Touched(b, a).freed == b.freed
  {}

  lemma PollStarts(w: World, callbacks: seq<Script>, order: seq<nat>)
    requires forall j :: 0 <= j < |order| ==> order[j] < |w.bhs|
    ensures PollFirst(w, callbacks, order, 0) == Polling(w, 0, false)
  {}

  lemma PollUnfolds(w: World, callbacks: seq<Script>, order: seq<nat>, i: nat)
    requires i < |order| && forall j :: 0 <= j < |order| ==> order[j] < |w.bhs|
    ensures var p, h := PollFirst(w, callbacks, order, i), order[i];
      PollFirst(w, callbacks, order, i + 1) ==
        Polling(Visited(p.world, callbacks, p.count, h),
                p.count + (if BhWorld.Pending(p.world, h) then 1 else 0),
                p.busy || (BhWorld.Pending(p.world, h) && !p.world.bhs[h].idle))
  {
    hide Visited, BhWorld.Pending;
  }

  /** The flags of some bottom halves. */
  ghost function FlagsIn(bhs: seq<QEMUBH>, freed: set<QEMUBH>): (flags: seq<Bh>)
    reads bhs
    ensures |flags| == |bhs|
    ensures forall i :: 0 <= i < |bhs| ==> flags[i] == bhs[i].Flags(bhs[i] in freed)
  {
    if bhs == [] then []
    else
      var n := |bhs| - 1;
      FlagsIn(bhs[..n], freed) + [bhs[n].Flags(bhs[n] in freed)]
  }

  class Context {
    var first: QEMUBH?
    var nesting: nat
    var handles: seq<QEMUBH>      // every bottom half ever created, as its creator holds it
    var freed: set<QEMUBH>        // the nodes given to g_free
    ghost var list: seq<QEMUBH>   // the nodes reachable from first
    ghost var nodes: set<QEMUBH>
    ghost var log: seq<Event>

    /** The list links the nodes that were not freed. */
    ghost predicate Valid()
      reads this`handles, this`list, this`nodes, this`freed, this`first, nodes`next
    {
      && (forall n :: n in handles ==> n in nodes)
      && (forall n :: n in nodes ==> n in handles)
      && Distinct(handles)
      && (forall n :: n in list ==> n in nodes)
      && (forall n :: n in nodes ==> (n in list <==> n !in freed))
      && LinkedIn(list, nodes)
      && first == (if list == [] then null else list[0])
    }

    constructor ()
      ensures Valid() && nesting == 0 && list == [] && freed == {} && nodes == {} && log == [] && Matches(START)
    {
      first, nesting, handles, freed := null, 0, [], {};
      list, nodes, log := [], {}, [];
    }

    /** The flags of all bottom halves. */
    ghost function Flags(): (bhs: seq<Bh>)
      reads this`handles, this`freed, handles
      ensures |bhs| == |handles|
    {
      FlagsIn(handles, freed)
    }

    /** The callbacks invoked so far. */
    ghost predicate ShowsCalls(calls: seq<Call>)
      reads this`handles, this`log
    {
      && |calls| == |log|
      && forall j :: 0 <= j < |log| ==>
           calls[j].bh < |handles| && log[j] == Event(handles[calls[j].bh], calls[j].depth, calls[j].idle)
    }

    /** The bottom halves are what w says, and the list has those that are not freed, the newest first. */
    ghost predicate Matches(w: World)
      reads this`handles, this`freed, this`nesting, this`log, this`list, handles
    {
      && Flags() == w.bhs && ShowsCalls(w.calls) && w.nesting == nesting
      && list == Listing(handles, w.bhs, |w.bhs|)
    }

    /** What every call keeps: nodes and the log grow, bottom halves evolve, the nesting depth is
        restored, and as long as a poll is active no node is freed and the list only grows in front. Callbacks
        were invoked at the given depth or deeper. */
    twostate predicate Kept(depth: nat)
      reads this, nodes
    {
      && old(nodes) <= nodes && fresh(nodes - old(nodes)) && old(handles) <= handles
      && (forall n :: n in old(nodes) ==> n.Evolved())
      && (forall n :: n in nodes && n !in old(nodes) ==> n.Balanced())
      && nesting == old(nesting)
      && old(freed) <= freed
      && old(log) <= log
      && (forall j :: |old(log)| <= j < |log| ==> log[j].depth >= depth)
      && (nesting > 0 ==> freed == old(freed) && Suffix(old(list), list))
    }

    /** qemu_bh_new */
    method BhNew(ghost w: World) returns (bh: QEMUBH)
      requires Valid() && Matches(w)
      modifies this
      ensures Valid() && Kept(nesting + 1) && fresh(bh) && list == [bh] + old(list) && handles == old(handles) + [bh]
      ensures Matches(Exec(w, New))
    {
      hide Valid, Listing, FlagsIn;
      bh := AddFirst();
      ghost var b := Bh(false, false, false, false);
      assert Flags() == w.bhs + [b];
      LongerListing(old(handles), w.bhs, bh, b, |w.bhs|);
      ListingUnfolds(handles, w.bhs + [b], |w.bhs| + 1);
    }

    method AddFirst() returns (bh: QEMUBH)
      requires Valid()
      modifies this
      ensures Valid() && Kept(nesting + 1) && fresh(bh) && list == [bh] + old(list) && handles == old(handles) + [bh]
      ensures freed == old(freed) && log == old(log) && !bh.scheduled && !bh.idle && !bh.deleted
    {
      bh := new QEMUBH(first);
      first := bh;
      handles := handles + [bh];
      ghost var rest := list;
      list := [bh] + list;
      nodes := nodes + {bh};
      assert forall i {:trigger list[i]} :: 0 < i < |list| ==> list[i] == rest[i - 1];
    }

    /** qemu_bh_schedule, qemu_bh_schedule_idle, qemu_bh_cancel and qemu_bh_delete. */
    method TouchBh(bh: QEMUBH, a: Action, ghost h: nat, ghost w: World)
      requires Valid() && Matches(w) && (a.Schedule? || a.ScheduleIdle? || a.Cancel? || a.Delete?)
      requires h < |handles| && handles[h] == bh && bh !in freed
      modifies bh`scheduled, bh`idle, bh`deleted, bh`schedules, bh`cancels
      ensures bh.Evolved() && Matches(Touch(w, h, a))
    {
      HandlesDiffer(h);
      hide Valid, Listing, FlagsIn;
      ghost var was := Flags();
      assert was[h] == bh.Flags(false);
      bh.Act(a);
      FlagsNow(was, h, bh.Flags(false));
      TouchedFreed(was[h], a);
      SameListing(handles, w.bhs, Touch(w, h, a).bhs, |w.bhs|);
    }

    /** The flags when those of handle h alone have changed. */
    lemma FlagsNow(was: seq<Bh>, h: nat, b: Bh)
      requires h < |handles| == |was| && handles[h].Flags(handles[h] in freed) == b
      requires forall i :: 0 <= i < |handles| && i != h ==> handles[i].Flags(handles[i] in freed) == was[i]
      ensures Flags() == was[h := b]
    {
      hide FlagsIn;
    }

    lemma HandlesDiffer(h: nat)
      requires Valid() && h < |handles|
      ensures forall i :: 0 <= i < |handles| && i != h ==> handles[i] != handles[h]
    {}

    lemma HandlesAreNodes()
      requires Valid()
      ensures forall i :: 0 <= i < |handles| ==> handles[i] in nodes
    {}

    method Do(a: Action, ghost w: World)
      requires Valid() && Matches(w)
      modifies this, nodes
      ensures Valid() && Kept(nesting + 1) && Matches(Exec(w, a))
      decreases a
    {
      hide Valid, Matches;
      if a.New? {
        var bh := BhNew(w);
      } else if a.Poll? {
        var ret := PollAll(a.callbacks, w);
      } else if a.bh < |handles| && handles[a.bh] !in freed {
        FlagsOf(w, a.bh);
        TouchBh(handles[a.bh], a, a.bh, w);
      } else {
        NotUsable(w, a.bh);
      }
    }

    lemma FlagsOf(w: World, h: nat)
      requires Valid() && Matches(w) && h < |handles|
      ensures h < |w.bhs| && handles[h] in nodes && w.bhs[h].freed == (handles[h] in freed)
      ensures handles[h].scheduled == w.bhs[h].scheduled && handles[h].deleted == w.bhs[h].deleted
      ensures handles[h].idle == w.bhs[h].idle
    {
      assert Flags()[h] == w.bhs[h];
    }

    lemma NotUsable(w: World, h: nat)
      requires Valid() && Matches(w) && (h >= |handles| || handles[h] in freed)
      ensures h >= |w.bhs| || w.bhs[h].freed
    {
      if h < |handles| {
        assert Flags()[h] == w.bhs[h];
      }
    }

    method RunScript(script: Script, ghost w: World)
      requires Valid() && Matches(w)
      modifies this, nodes
      ensures Valid() && Kept(nesting + 1) && Matches(RunFirst(w, script, |script.actions|))
      decreases script
    {
      hide Valid, Matches, Exec;
      for i := 0 to |script.actions|
        invariant Valid() && Kept(nesting + 1) && Matches(RunFirst(w, script, i))
      {
        Do(script.actions[i], RunFirst(w, script, i));
      }
    }

    /** qemu_bh_poll: what is pending at entry has run or was cancelled by exit; the result tells
        whether this poll itself ran a bottom half that was not idle; the outermost poll frees
        exactly the deleted nodes, a nested one none. */
    method PollAll(callbacks: seq<Script>, ghost w: World) returns (ret: bool)
      requires Valid() && Matches(w)
      modifies this, nodes
      ensures Valid() && Kept(nesting + 1)
      ensures Matches(PollOnce(w, callbacks).world) && ret == PollOnce(w, callbacks).busy
      ensures forall n :: n in old(list) && old(n.scheduled && !n.deleted) ==> n.Settled()
      ensures ret <==> RanBusy(log, |old(log)|, nesting + 1)
      ensures nesting == 0 ==> forall n :: n in nodes && n !in old(freed) ==> (n in freed <==> n.deleted)
      decreases callbacks, 3
    {
      hide RanBusy, Valid, Suffix, Matches, PollFirst, Order;
      ret := Nested(callbacks, w);
      assert nesting == w.nesting by { DepthOf(w, callbacks); }
      if nesting == 0 {
        ghost var order := Order(w.bhs, |w.bhs|);
        Collect(PollFirst(w.(nesting := w.nesting + 1), callbacks, order, |order|).world.(nesting := w.nesting));
      }
    }

    /** The loop one level deeper. */
    method Nested(callbacks: seq<Script>, ghost w: World) returns (ret: bool)
      requires Valid() && Matches(w)
      modifies this, nodes
      ensures Valid() && Kept(nesting + 1) && freed == old(freed) && Suffix(old(list), list)
      ensures var order := Order(w.bhs, |w.bhs|);
        var p := PollFirst(w.(nesting := w.nesting + 1), callbacks, order, |order|);
        Matches(p.world.(nesting := w.nesting)) && ret == p.busy
      ensures forall n :: n in old(list) && old(n.scheduled && !n.deleted) ==> n.Settled()
      ensures ret <==> RanBusy(log, |old(log)|, nesting + 1)
      decreases callbacks, 2
    {
      hide RanBusy, Valid, Suffix, PollFirst, Order, Matches;
      SetNesting(nesting + 1, w);
      ghost var up := w.(nesting := w.nesting + 1);
      ret := PollLoop(callbacks, up);
      SetNesting(nesting - 1, PollFirst(up, callbacks, Order(up.bhs, |up.bhs|), |Order(up.bhs, |up.bhs|)|).world);
    }

    method SetNesting(depth: nat, ghost w: World)
      requires Valid() && Matches(w)
      modifies this`nesting
      ensures Valid() && nesting == depth && Matches(w.(nesting := depth)) && w.nesting == old(nesting)
    {
      nesting := depth;
    }

    /** Node i of what the list was is followed by node i + 1, whatever was put in front since. */
    lemma NextOf(list0: seq<QEMUBH>, i: nat)
      requires Valid() && Suffix(list0, list) && i < |list0|
      ensures list0[i] in nodes && list0[i].next == if i + 1 < |list0| then list0[i + 1] else null
    {
      var d := |list| - |list0|;
      assert list0[i] == list[d + i];
      assert list[d + i].next == if i + 1 < |list0| then list[d + i + 1] else null;
    }

    lemma FirstOf()
      requires Valid()
      ensures first == if list == [] then null else list[0]
    {}

    method TakeOff(bh: QEMUBH, ghost w: World, ghost h: nat) returns (busy: bool)
      requires Valid() && bh.scheduled && !bh.deleted && Matches(w) && h < |handles| && handles[h] == bh
      modifies bh`scheduled, bh`idle, bh`runs
      ensures bh.Evolved() && bh.runs == old(bh.runs) + 1
      ensures h < |w.bhs| && busy == !w.bhs[h].idle
      ensures Matches(w.(bhs := w.bhs[h := w.bhs[h].(scheduled := false, idle := false)]))
    {
      HandlesDiffer(h);
      FlagsOf(w, h);
      hide Valid, Listing, FlagsIn, ShowsCalls;
      ghost var was := Flags();
      busy := bh.StartRun();
      ghost var b := was[h].(scheduled := false, idle := false);
      FlagsNow(was, h, b);
      SameListing(handles, w.bhs, w.bhs[h := b], |w.bhs|);
    }

    /** Take a pending bottom half off the schedule and record its run. */
    method Start(bh: QEMUBH, ghost w: World, ghost h: nat) returns (busy: bool)
      requires Valid() && bh in nodes && bh.scheduled && !bh.deleted
      requires Matches(w) && h < |handles| && handles[h] == bh
      modifies this`log, bh`scheduled, bh`idle, bh`runs
      ensures Valid() && bh.Evolved() && bh.Settled() && bh.runs == old(bh.runs) + 1
      ensures log == old(log) + [Event(bh, nesting, !busy)]
      ensures h < |w.bhs| && Matches(Started(w, h)) && busy == !w.bhs[h].idle
    {
      hide Valid, Listing, FlagsIn;
      busy := TakeOff(bh, w, h);
      log := log + [Event(bh, nesting, !busy)];
    }

    /** One iteration of the loop of qemu_bh_poll. */
    method Visit(bh: QEMUBH, callbacks: seq<Script>, k: nat, ghost w: World, ghost h: nat)
      returns (ran: bool, busy: bool)
      requires Valid() && nesting > 0 && bh in nodes
      requires Matches(w) && h < |handles| && handles[h] == bh
      modifies this, nodes
      ensures Valid() && Kept(nesting)
      ensures ran == old(bh.scheduled && !bh.deleted)
      ensures ran ==> bh.Settled()
      ensures busy <==> RanBusy(log, |old(log)|, nesting)
      ensures h < |w.bhs| && Matches(Visited(w, callbacks, k, h))
      ensures ran == Pending(w, h) && busy == (ran && !w.bhs[h].idle)
      decreases callbacks, 0
    {
      hide Valid, Matches, RunFirst, Started;
      FlagsOf(w, h);
      ran, busy := false, false;
      if !bh.deleted && bh.scheduled {
        ran := true;
        busy := Start(bh, w, h);
        if k < |callbacks| {
          RunScript(callbacks[k], Started(w, h));
        }
        assert log[|old(log)|].depth == nesting && log[|old(log)|].idle == !busy;
      }
    }

    lemma ListedAt(w: World)
      requires Valid() && Matches(w)
      ensures var order := Order(w.bhs, |w.bhs|);
        && |w.bhs| == |handles| && w.nesting == nesting && |list| == |order|
        && forall i :: 0 <= i < |order| ==> list[i] == handles[order[i]]
    {
      ListingOrder(handles, w.bhs, |w.bhs|);
    }

    /** The loop of qemu_bh_poll. The saved next pointer stays good because nothing is unlinked. */
    method PollLoop(callbacks: seq<Script>, ghost w: World) returns (ret: bool)
      requires Valid() && nesting > 0 && Matches(w)
      modifies this, nodes
      ensures Valid() && Kept(nesting)
      ensures var p := PollFirst(w, callbacks, Order(w.bhs, |w.bhs|), |Order(w.bhs, |w.bhs|)|);
        Matches(p.world) && ret == p.busy
      ensures forall n :: n in old(list) && old(n.scheduled && !n.deleted) ==> n.Settled()
      ensures ret <==> RanBusy(log, |old(log)|, nesting)
      decreases callbacks, 1
    {
      hide Valid, RanBusy, Matches, Visited, PollFirst, Order, BhWorld.Pending;
      ret := false;
      FirstOf();
      ListedAt(w);
      ghost var order, handles0 := Order(w.bhs, |w.bhs|), handles;
      PollStarts(w, callbacks, order);
      var bh, k := first, 0;
      RanBusyNothing(log, nesting);
      ghost var list0, i := list, 0;
      while bh != null
        invariant Valid() && Kept(nesting)
        invariant 0 <= i <= |list0| && bh == (if i < |list0| then list0[i] else null)
        invariant Matches(PollFirst(w, callbacks, order, i).world) && k == PollFirst(w, callbacks, order, i).count
        invariant ret == PollFirst(w, callbacks, order, i).busy
        invariant forall q :: 0 <= q < i && old(list0[q].scheduled && !list0[q].deleted) ==> list0[q].Settled()
        invariant ret <==> RanBusy(log, |old(log)|, nesting)
        decreases |list0| - i
      {
        NextOf(list0, i);
        ghost var before := log;
        var next := bh.next;
        assert bh == handles0[order[i]] == handles[order[i]];
        var ran, busy := Visit(bh, callbacks, k, PollFirst(w, callbacks, order, i).world, order[i]);
        if ran {
          k := k + 1;
        }
        ret := ret || busy;
        RanBusyMore(before, log, |old(log)|, nesting);
        PollUnfolds(w, callbacks, order, i);
        bh := next;
        i := i + 1;
      }
    }

    /** The link that leads to the node after kept leads to the head of rest. */
    lemma LinkAfter(prev: QEMUBH?, kept: seq<QEMUBH>, rest: seq<QEMUBH>)
      requires Valid() && list == kept + rest
      requires prev == if kept == [] then null else kept[|kept| - 1]
      ensures prev != null ==> prev in nodes
      ensures rest != [] ==> rest[0] in nodes
      ensures (if prev == null then first else prev.next) == if rest == [] then null else rest[0]
    {
      if kept != [] {
        assert list[|kept| - 1] == prev;
      }
      if rest != [] {
        assert list[|kept|] == rest[0];
      }
    }

    /** The removal loop at the end of the outermost poll: exactly the deleted nodes are unlinked
        and freed. */
    method Sweep()
      requires Valid()
      modifies this`first, this`list, this`freed, nodes`next
      ensures Valid()
      ensures var dead := set n | n in nodes && n.deleted;
        list == Without(old(list), dead) && old(freed) <= freed
    {
      hide Valid, Swept, Without;
      ghost var dead := set n | n in nodes && n.deleted;
      SweptEnds(list, dead, []);
      ghost var kept: seq<QEMUBH>, rest := [], list;
      var prev: QEMUBH? := null;
      var bh := first;
      assert kept + rest == list;
      LinkAfter(prev, kept, rest);
      while bh != null
        invariant Valid() && list == kept + rest
        invariant prev == (if kept == [] then null else kept[|kept| - 1])
        invariant bh == (if rest == [] then null else rest[0])
        invariant Swept(old(list), dead, kept, rest)
        invariant old(freed) <= freed
        decreases |rest|
      {
        LinkAfter(prev, kept, rest);
        SweptStep(old(list), dead, kept, rest);
        if bh.deleted {
          Unlink(prev, bh, kept, rest);
        } else {
          prev := bh;
          kept := kept + [bh];
        }
        rest := rest[1..];
        LinkAfter(prev, kept, rest);
        bh := if prev == null then first else prev.next;
      }
      SweptEnds(old(list), dead, kept);
      assert kept + [] == kept;
      assert dead == set n | n in nodes && n.deleted;
    }

    method Collect(ghost w: World)
      requires Valid() && Matches(w)
      modifies this`first, this`list, this`freed, nodes`next
      ensures Valid() && old(freed) <= freed && Matches(w.(bhs := Collected(w.bhs)))
      ensures forall n :: n in nodes && n !in old(freed) ==> (n in freed <==> n.deleted)
    {
      hide Valid, Without, Listing, FlagsIn;
      ListedOrFreed();
      ghost var dead := set n | n in nodes && n.deleted;
      WithoutElements(list, dead);
      HandlesAreNodes();
      ghost var was := Flags();
      DeadOnes(was, dead);
      CollectedListing(handles, was, dead, |was|);
      Sweep();
      assert dead == set n | n in nodes && n.deleted;
      ListedOrFreed();
      assert Flags() == Collected(was);
    }

    lemma DeadOnes(bhs: seq<Bh>, dead: set<QEMUBH>)
      requires Valid() && bhs == Flags() && dead == set n | n in nodes && n.deleted
      ensures forall i :: 0 <= i < |handles| ==> (handles[i] in dead <==> bhs[i].deleted)
    {
      HandlesAreNodes();
    }

    lemma DepthOf(w: World, callbacks: seq<Script>)
      requires Matches(PollFirst(w.(nesting := w.nesting + 1), callbacks, Order(w.bhs, |w.bhs|),
                                 |Order(w.bhs, |w.bhs|)|).world.(nesting := w.nesting))
      ensures nesting == w.nesting
    {}

    lemma ListedOrFreed()
      requires Valid()
      ensures forall n :: n in nodes ==> (n in list <==> n !in freed)
    {}

    /** *bhp = bh->next, where bhp is the link that leads to bh, and g_free(bh). */
    method Unlink(prev: QEMUBH?, bh: QEMUBH, ghost kept: seq<QEMUBH>, ghost rest: seq<QEMUBH>)
      requires Valid() && list == kept + rest && rest != [] && bh == rest[0]
      requires prev == if kept == [] then null else kept[|kept| - 1]
      modifies this`first, this`list, this`freed, (if prev == null then {} else {prev})`next
      ensures Valid() && list == kept + rest[1..] && freed == old(freed) + {bh}
    {
      hide LinkedIn, Linked;
      ghost var was, k, links := list, |kept|, NextMap(nodes);
      assert was[k] == bh && (k > 0 ==> was[k - 1] == prev);
      LinkedByMap(was, nodes);
      assert Distinct(was) && (k + 1 < |was| ==> bh.next == was[k + 1]) && (k + 1 == |was| ==> bh.next == null) by {
        NextOfNode(was, k, nodes);
      }
      assert bh in nodes;
      if prev == null {
        first := bh.next;
      } else {
        prev.next := bh.next;
      }
      list := kept + rest[1..];
      freed := freed + {bh};
      assert NextMap(nodes) == if k == 0 then links else links[was[k - 1] := links[bh]];
      UnlinkNode(was, k, links, list, NextMap(nodes));
      LinkedByMap(list, nodes);
      RemoveAt(was, k, list);
    }
  }

  /** A program over bottom halves does what its actions mean. */
  method Program(script: Script) returns (c: Context)
    ensures c.Valid() && c.Matches(RunFirst(START, script, |script.actions|))
  {
    c := new Context();
    c.RunScript(script, START);
  }

  lemma NextOfNode(list: seq<QEMUBH>, k: nat, nodes: set<QEMUBH>)
    requires LinkedIn(list, nodes) && k < |list|
    ensures Distinct(list) && list[k].next == if k + 1 < |list| then list[k + 1] else null
  {}
}
