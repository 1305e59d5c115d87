/** What block drivers answer to the requests that they get: a list of numbers, the negative ones refusals.
    When the list is used up every request is accepted. */
module Answers {
  /** The driver refuses the next request. */
  predicate Refuses(answers: seq<int>) { answers != [] && answers[0] < 0 }

  function Rest(answers: seq<int>): seq<int> { if answers == [] then [] else answers[1..] }

  predicate AllGood(answers: seq<int>) { forall i :: 0 <= i < |answers| ==> answers[i] >= 0 }

  /** A call that makes one request, or none; a refusal is an error. */
  ghost predicate Asked(a: seq<int>, b: seq<int>, was: int, now: int, asks: bool) {
    if asks then b == Rest(a) && (if Refuses(a) then now < 0 else now == was) else b == a && now == was
  }

  /** The answers that were used. */
  function Used(a: seq<int>, b: seq<int>): seq<int>
    requires |b| <= |a|
  {
    a[..|a| - |b|]
  }

  /** Calls that use some of the answers: there is a new error exactly when one of them is a refusal. */
  ghost predicate Answered(a: seq<int>, b: seq<int>, was: int, now: int) {
    && |b| <= |a| && b == a[|a| - |b|..]
    && (if AllGood(Used(a, b)) then now == was else now < 0)
  }

  lemma NoneAsked(a: seq<int>, was: int)
    ensures Answered(a, a, was, was) && Used(a, a) == []
  {}

  lemma AskedMore(a: seq<int>, b: seq<int>, c: seq<int>, was: int, mid: int, now: int, asks: bool)
    requires Answered(a, b, was, mid) && Asked(b, c, mid, now, asks)
    ensures Answered(a, c, was, now)
  {
    var k := |a| - |b|;
    if asks && b != [] {
      assert b[0] == a[k];
      assert Used(a, c) == Used(a, b) + [a[k]];
    }
  }

  /** Used by a caller that stops at the first refusal. */
  lemma StopsAtRefusal(a: seq<int>, b: seq<int>, c: seq<int>, asks: bool)
    requires Answered(a, b, 0, 0) && c == if asks then Rest(b) else b
    ensures |c| <= |a|
    ensures !(asks && Refuses(b)) ==> Answered(a, c, 0, 0)
    ensures asks && Refuses(b) ==>
      var used := Used(a, c); used != [] && AllGood(used[..|used| - 1]) && used[|used| - 1] == b[0]
  {
    AskedMore(a, b, c, 0, 0, if asks && Refuses(b) then -1 else 0, asks);
    if asks && Refuses(b) {
      assert Used(a, c)[..|Used(a, c)| - 1] == Used(a, b);
    }
  }
}
