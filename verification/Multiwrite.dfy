/** Completion counting of a multiwrite in vmm/block.c: any interleaving of submissions and
    completions runs the user callbacks exactly once, last, and with the first error. */
module Multiwrite {
  import opened Common

  /** A user callback that was invoked: its index and the error it was given. */
  datatype Call = Call(index: nat, error: int)

  /** MultiwriteCB, what was called so far, and whether it has been freed. */
  datatype Mcb = Mcb(error: int, numRequests: int, numCallbacks: nat, calls: seq<Call>, freed: bool)

  function AllCalls(n: nat, error: int): (c: seq<Call>)
    ensures |c| == n && forall i :: 0 <= i < n ==> c[i] == Call(i, error)
  {
    seq(n, i requires 0 <= i < n => Call(i, error))
  }

  /** multiwrite_cb */
  function Complete(m: Mcb, ret: int): Mcb {
    var error := if ret < 0 && m.error == 0 then ret else m.error;
    if m.numRequests == 1 then
      m.(error := error, numRequests := 0, calls := m.calls + AllCalls(m.numCallbacks, error), freed := true)
    else
      m.(error := error, numRequests := m.numRequests - 1)
  }

  // ---------- Runs ----------

  /** What happens to a multiwrite after its creation. */
  datatype Event =
    | Submit              // a request is accepted by the driver
    | SubmitFails         // a later request is refused; the source completes it with -EIO
    | Finishes(ret: int)  // the driver completes an accepted request
    | DummyDone           // all requests were tried; the dummy request is completed

  /** A multiwrite in progress: accepted requests in flight, whether the dummy request is still
      held, how many were accepted, and every completion so far. */
  datatype World = World(mcb: Mcb, inFlight: nat, dummy: bool, accepted: nat, done: seq<int>)

  predicate Possible(w: World, e: Event) {
    match e
    case Submit => w.dummy
    case SubmitFails => w.dummy && w.accepted > 0
    case Finishes(_) => w.inFlight > 0
    case DummyDone => w.dummy && w.accepted > 0
  }

  function Next(w: World, e: Event): World
    requires Possible(w, e)
  {
    var more := w.mcb.(numRequests := w.mcb.numRequests + 1);
    match e
    case Submit => w.(mcb := more, inFlight := w.inFlight + 1, accepted := w.accepted + 1)
    case SubmitFails => w.(mcb := Complete(more, -EIO), done := w.done + [-EIO])
    case Finishes(ret) => w.(mcb := Complete(w.mcb, ret), inFlight := w.inFlight - 1, done := w.done + [ret])
    case DummyDone => w.(mcb := Complete(w.mcb, 0), dummy := false, done := w.done + [0])
  }

  /** The state in which the requests are submitted. */
  function Created(numCallbacks: nat): World {
    World(Mcb(0, 1, numCallbacks, [], false), 0, true, 0, [])
  }

  ghost predicate Reaches(w: World, events: seq<Event>, w': World)
    decreases |events|
  {
    if events == [] then w == w'
    else Possible(w, events[0]) && Reaches(Next(w, events[0]), events[1..], w')
  }

  /** The first negative result, or 0. */
  function FirstError(done: seq<int>): int {
    if done == [] then 0 else if done[0] < 0 then done[0] else FirstError(done[1..])
  }

  lemma {:induction false} FirstErrorAppend(done: seq<int>, ret: int)
    ensures FirstError(done + [ret]) == if FirstError(done) == 0 && ret < 0 then ret else FirstError(done)
    ensures FirstError(done) <= 0
  {
    if done != [] {
      FirstErrorAppend(done[1..], ret);
      assert (done + [ret])[1..] == done[1..] + [ret];
    }
  }

  ghost predicate Inv(w: World, n: nat) {
    && w.mcb.numCallbacks == n
    && w.mcb.error == FirstError(w.done)
    && w.mcb.numRequests == w.inFlight + (if w.dummy then 1 else 0)
    && (w.mcb.freed <==> w.inFlight == 0 && !w.dummy)
    && w.mcb.calls == (if w.mcb.freed then AllCalls(n, w.mcb.error) else [])
  }

  lemma NextKeepsInv(w: World, e: Event, n: nat)
    requires Inv(w, n) && Possible(w, e)
    ensures Inv(Next(w, e), n)
  {
    match e
    case Submit =>
    case SubmitFails => FirstErrorAppend(w.done, -EIO);
    case Finishes(ret) => FirstErrorAppend(w.done, ret);
    case DummyDone => FirstErrorAppend(w.done, 0);
  }

  lemma {:induction false} RunKeepsInv(w: World, events: seq<Event>, w': World, n: nat)
    requires Inv(w, n) && Reaches(w, events, w')
    ensures Inv(w', n)
    decreases |events|
  {
    if events != [] {
      NextKeepsInv(w, events[0], n);
      RunKeepsInv(Next(w, events[0]), events[1..], w', n);
    }
  }

  /** In every run the callbacks are silent, and the object alive, until the dummy request and all
      accepted ones have completed; then each callback has been called exactly once, with the
      first error among the completions. */
  lemma CallbacksExactlyOnce(n: nat, events: seq<Event>, w: World)
    requires Reaches(Created(n), events, w)
    ensures w.dummy || w.inFlight > 0 ==> w.mcb.calls == [] && !w.mcb.freed
    ensures !w.dummy && w.inFlight == 0 ==> w.mcb.calls == AllCalls(n, FirstError(w.done)) && w.mcb.freed
  {
    RunKeepsInv(Created(n), events, w, n);
  }

  // ---------- The object that the source updates ----------

  class MultiwriteCB {
    var error: int
    var numRequests: int
    var numCallbacks: nat
    var calls: seq<Call>
    var freed: bool

    ghost function Value(): Mcb
      reads this
    {
      Mcb(error, numRequests, numCallbacks, calls, freed)
    }

    constructor (numCallbacks: nat)
      ensures Value() == Mcb(0, 0, numCallbacks, [], false)
    {
      error, numRequests, this.numCallbacks, calls, freed := 0, 0, numCallbacks, [], false;
    }

    /** multiwrite_user_cb */
    method UserCb()
      modifies this`calls
      ensures calls == old(calls) + AllCalls(numCallbacks, error)
    {
      for i := 0 to numCallbacks
        invariant calls == old(calls) + AllCalls(numCallbacks, error)[..i]
      {
        calls := calls + [Call(i, error)];
      }
    }

    /** multiwrite_cb */
    method Cb(ret: int)
      requires !freed
      modifies this
      ensures Value() == Complete(old(Value()), ret)
    {
      if ret < 0 && error == 0 {
        error := ret;
      }
      numRequests := numRequests - 1;
      if numRequests == 0 {
        UserCb();
        freed := true;
      }
    }
  }

  /** Completions so far and to come. */
  ghost function Outcomes(w: World): nat { |w.done| + w.inFlight }

  /** How many of the requests from i on are submitted: all before the first that the driver refuses. */
  function Submitted(accept: nat -> bool, merged: nat, i: nat): (k: nat)
    requires i <= merged
    ensures i <= k <= merged && (forall j :: i <= j < k ==> accept(j)) && (k < merged ==> !accept(k))
    decreases merged - i
  {
    if i == merged || !accept(i) then i else Submitted(accept, merged, i + 1)
  }

  /** Completions that arrive while the submission loop is running, as many as are in flight. */
  method Arrive(mcb: MultiwriteCB, rets: seq<int>, ghost w0: World, ghost n: nat)
    returns (ghost events: seq<Event>, ghost w: World)
    requires mcb.Value() == w0.mcb && Inv(w0, n) && w0.dummy
    modifies mcb
    ensures Reaches(w0, events, w) && mcb.Value() == w.mcb && w.dummy == w0.dummy && w.accepted == w0.accepted
    ensures Outcomes(w) == Outcomes(w0)
    ensures |w.done| == |w0.done| + if |rets| < w0.inFlight then |rets| else w0.inFlight
  {
    events, w := [], w0;
    for i := 0 to |rets|
      invariant |w.done| == |w0.done| + if i < w0.inFlight then i else w0.inFlight
      invariant Reaches(w0, events, w) && mcb.Value() == w.mcb && Inv(w, n)
      invariant w.dummy == w0.dummy && w.accepted == w0.accepted && Outcomes(w) == Outcomes(w0)
    {
      if mcb.numRequests > 1 {
        mcb.Cb(rets[i]);
        Extend(w0, events, w, Finishes(rets[i]));
        NextKeepsInv(w, Finishes(rets[i]), n);
        events, w := events + [Finishes(rets[i])], Next(w, Finishes(rets[i]));
      }
    }
  }

  lemma {:induction false} Extend(w: World, events: seq<Event>, w': World, e: Event)
    requires Reaches(w, events, w') && Possible(w', e)
    ensures Reaches(w, events + [e], Next(w', e))
    decreases |events|
  {
    if events != [] {
      Extend(Next(w, events[0]), events[1..], w', e);
      assert (events + [e])[1..] == events[1..] + [e];
    } else {
      assert ([e])[1..] == [];
    }
  }

  /** bdrv_aio_multiwrite after merging to `merged` requests. The driver accepts request i or not,
      and after it lets the completions early(i) arrive. errors are the error fields of the
      requests; ret is -1 exactly when no callback will ever run. */
  method AioMultiwrite(hasMedium: bool, errors: array<int>, merged: nat, accept: nat -> bool, early: nat -> seq<int>)
    returns (ret: int, mcb: MultiwriteCB?, ghost events: seq<Event>, ghost w: World)
    requires errors.Length > 0 ==> 1 <= merged
    modifies errors
    ensures ret == if !hasMedium || (errors.Length > 0 && !accept(0)) then -1 else 0
    ensures ret == -1 ==> forall i :: 0 <= i < errors.Length ==> errors[i] == if hasMedium then -EIO else -ENOMEDIUM
    ensures ret == 0 ==> errors[..] == old(errors[..])
    ensures ret == -1 && mcb != null ==> mcb.calls == [] && mcb.freed
    ensures ret == 0 && errors.Length > 0 ==>
      && mcb != null && Reaches(Created(errors.Length), events, w) && mcb.Value() == w.mcb && !w.dummy
      && w.accepted == Submitted(accept, merged, 0)
      && Outcomes(w) == w.accepted + 1 + (if w.accepted < merged then 1 else 0)
      && (w.accepted < merged ==> -EIO in w.done)
  {
    hide Reaches, FirstError;
    mcb, events, w := null, [], Created(errors.Length);
    ReachesItself(w);
    if !hasMedium {
      SetAll(errors, -ENOMEDIUM);
      return -1, mcb, events, w;
    }
    if errors.Length == 0 {
      return 0, mcb, events, w;
    }
    var m := new MultiwriteCB(errors.Length);
    mcb := m;
    m.numRequests := 1;
    var started: bool;
    started, events, w := SubmitAll(m, merged, accept, early, errors.Length);
    if !started {
      SetAll(errors, -EIO);
      m.freed := true;
      return -1, mcb, events, w;
    }
    m.Cb(0);
    Extend(Created(errors.Length), events, w, DummyDone);
    events, w := events + [DummyDone], Next(w, DummyDone);
    ret := 0;
  }

  /** The submission loop; it has started unless the very first request was refused. */
  method SubmitAll(m: MultiwriteCB, merged: nat, accept: nat -> bool, early: nat -> seq<int>, n: nat)
    returns (started: bool, ghost events: seq<Event>, ghost w: World)
    requires 1 <= merged && m.Value() == Created(n).mcb
    modifies m
    ensures started == accept(0)
    ensures !started ==> m.calls == []
    ensures started ==>
      && Reaches(Created(n), events, w) && m.Value() == w.mcb && Inv(w, n) && w.dummy
      && w.accepted == Submitted(accept, merged, 0) > 0
      && Outcomes(w) == w.accepted + (if w.accepted < merged then 1 else 0)
      && (w.accepted < merged ==> -EIO in w.done)
  {
    hide Reaches, FirstError;
    started, events, w := true, [], Created(n);
    ReachesItself(w);
    var i := 0;
    while i < merged
      invariant 0 <= i <= merged && (i > 0 ==> accept(0)) && (i == 0 ==> m.Value() == Created(n).mcb)
      invariant Reaches(Created(n), events, w) && m.Value() == w.mcb && Inv(w, n) && w.dummy
      invariant w.accepted == i == Outcomes(w) && Submitted(accept, merged, i) == Submitted(accept, merged, 0)
    {
      m.numRequests := m.numRequests + 1;
      if !accept(i) {
        if i == 0 {
          started := false;
          return;
        }
        m.Cb(-EIO);
        Extend(Created(n), events, w, SubmitFails);
        NextKeepsInv(w, SubmitFails, n);
        events, w := events + [SubmitFails], Next(w, SubmitFails);
        return;
      }
      Extend(Created(n), events, w, Submit);
      NextKeepsInv(w, Submit, n);
      events, w := events + [Submit], Next(w, Submit);
      ghost var more, w' := Arrive(m, early(i), w, n);
      Append(Created(n), events, w, more, w');
      RunKeepsInv(w, more, w', n);
      events, w := events + more, w';
      i := i + 1;
    }
  }

  lemma ReachesItself(w: World)
    ensures Reaches(w, [], w) && FirstError([]) == 0
  {}

  method SetAll(errors: array<int>, value: int)
    modifies errors
    ensures forall i :: 0 <= i < errors.Length ==> errors[i] == value
  {
    for i := 0 to errors.Length
      invariant forall j :: 0 <= j < i ==> errors[j] == value
    {
      errors[i] := value;
    }
  }

  lemma {:induction false} Append(w: World, events: seq<Event>, w': World, more: seq<Event>, w'': World)
    requires Reaches(w, events, w') && Reaches(w', more, w'')
    ensures Reaches(w, events + more, w'')
    decreases |events|
  {
    if events != [] {
      Append(Next(w, events[0]), events[1..], w', more, w'');
      assert (events + more)[1..] == events[1..] + more;
    } else {
      assert events + more == more;
    }
  }
}
