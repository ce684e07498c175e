/** Sequence rearrangements that the solver does not find on its own cheaply. */
module Seqs {

  lemma Assoc<T>(a: seq<T>, b: seq<T>, c: seq<T>)
    ensures a + b + c == a + (b + c)
  {
  }

  /** What follows `a` at position `i`. */
  lemma DropAppend<T>(s: seq<T>, i: nat, a: seq<T>, b: seq<T>)
    requires i <= |s| && s[i..] == a + b
    ensures i + |a| <= |s| && s[i + |a|..] == b
  {
    var t := s[i..];
    assert s[i + |a|..] == t[|a|..];
  }

  lemma Split<T>(s: seq<T>, i: nat, j: nat, k: nat)
    requires i <= j <= k <= |s|
    ensures s[i..j] + s[j..k] == s[i..k]
    ensures s[i..][..j - i] == s[i..j]
    ensures s[i..][j - i..] == s[j..]
  {
  }

  lemma DropFirst<T>(x: T, a: seq<T>, b: seq<T>, c: seq<T>)
    ensures ([x] + a + b + c)[1..] == a + b + c && ([x] + a + b + c)[0] == x
  {
  }

  /** A slice of a slice. */
  lemma Inner<T>(s: seq<T>, lo: nat, hi: nat, i: nat, j: nat)
    requires lo <= hi <= |s| && i <= j <= hi - lo
    ensures s[lo..hi][i..j] == s[lo + i..lo + j]
  {
    var a, b := s[lo..hi][i..j], s[lo + i..lo + j];
    assert |a| == |b| && forall k | 0 <= k < |a| :: a[k] == b[k];
  }

  /** Slices that meet, the second taken from a rest. */
  lemma Extends<T>(s: seq<T>, i: nat, j: nat, n: nat)
    requires i <= j <= |s| && j + n <= |s|
    ensures s[i..j] + s[j..][..n] == s[i..j + n] && s[j..][n..] == s[j + n..]
  {
    assert s[j..][..n] == s[j..j + n];
    Split(s, i, j, j + n);
    Split(s, j, j + n, |s|);
  }

  /** Moving the first element of a list to the end of an accumulator. */
  lemma HeadTail<T>(acc: seq<T>, s: seq<T>)
    requires s != []
    ensures acc + [s[0]] + s[1..] == acc + s && |s[1..]| < |s|
  {
  }

  lemma Cons<T>(s: seq<T>)
    requires s != []
    ensures [s[0]] + s[1..] == s
  {
  }

  lemma Nil<T>(s: seq<T>)
    ensures s + [] == s && [] + s == s
  {
  }

  /** The position of the first `d`; -1 if there is none. */
  function IndexOf<T(==)>(s: seq<T>, d: T): (i: int)
    ensures -1 <= i < |s|
    ensures i >= 0 ==> s[i] == d && d !in s[..i]
    ensures i < 0 ==> d !in s
  {
    if s == [] then -1
    else if s[0] == d then 0
    else
      var i := IndexOf(s[1..], d);
      assert s == [s[0]] + s[1..];
      if i < 0 then -1
      else
        assert s[..i + 1] == [s[0]] + s[1..][..i];
        i + 1
  }
}
