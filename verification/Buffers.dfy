/** Overwriting a stretch of a buffer, the effect of memcpy. */
module Buffers {
  /** `s` with the elements from `pos` on replaced by `b`. */
  function Splice<T>(s: seq<T>, pos: nat, b: seq<T>): (r: seq<T>)
    requires pos + |b| <= |s|
    ensures |r| == |s|
    ensures r[..pos] == s[..pos] && r[pos..pos + |b|] == b && r[pos + |b|..] == s[pos + |b|..]
  {
    s[..pos] + b + s[pos + |b|..]
  }

  lemma SpliceAt<T>(s: seq<T>, pos: nat, b: seq<T>, i: nat)
    requires pos + |b| <= |s| && i < |s|
    ensures Splice(s, pos, b)[i] == if pos <= i < pos + |b| then b[i - pos] else s[i]
  {}

  /** A second write over the same stretch wins. */
  lemma SpliceAgain<T>(s: seq<T>, pos: nat, b: seq<T>, c: seq<T>)
    requires pos + |b| <= |s| && |b| == |c|
    ensures Splice(Splice(s, pos, b), pos, c) == Splice(s, pos, c)
  {}

  /** Adjacent writes are one write of the concatenation. */
  lemma SpliceAdjacent<T>(s: seq<T>, pos: nat, b: seq<T>, c: seq<T>)
    requires pos + |b| + |c| <= |s|
    ensures Splice(Splice(s, pos, b), pos + |b|, c) == Splice(s, pos, b + c)
  {}

  lemma SpliceAll<T>(s: seq<T>, b: seq<T>)
    requires |b| == |s|
    ensures Splice(s, 0, b) == b
  {}

  lemma SpliceNothing<T>(s: seq<T>, pos: nat)
    requires pos <= |s|
    ensures Splice(s, pos, []) == s
  {}

  lemma SliceOfDrop<T>(s: seq<T>, pos: nat, n: nat)
    requires pos + n <= |s|
    ensures s[pos..pos + n] == s[pos..][..n] && s[pos + n..] == s[pos..][n..]
  {}

  lemma SliceOfSlice<T>(s: seq<T>, a: nat, b: nat, c: nat, d: nat)
    requires a <= b <= |s| && c <= d <= b - a
    ensures s[a..b][c..d] == s[a + c..a + d]
  {
    var t := s[a..b];
    assert forall i :: 0 <= i < d - c ==> t[c..d][i] == t[c + i] == s[a + (c + i)];
  }

  lemma SliceJoin<T>(s: seq<T>, a: nat, b: nat, c: nat)
    requires a <= b <= c <= |s|
    ensures s[a..b] + s[b..c] == s[a..c]
  {}

  lemma MiddleSlice<T>(x: seq<T>, y: seq<T>, z: seq<T>)
    ensures (x + (y + z))[|x|..|x| + |y|] == y
  {}

  lemma SplitThree<T>(s: seq<T>, i: nat, n: nat)
    requires i + n <= |s|
    ensures s == s[..i] + (s[i..i + n] + s[i + n..])
  {}

  /** Overwriting the middle of three parts. */
  lemma SpliceMiddle<T>(x: seq<T>, y: seq<T>, z: seq<T>, b: seq<T>)
    requires |b| == |y|
    ensures Splice(x + (y + z), |x|, b) == x + (b + z)
  {
    var s := x + (y + z);
    assert s[..|x|] == x;
    assert s[|x| + |b|..] == z;
    assert (x + b) + z == x + (b + z);
  }
}
