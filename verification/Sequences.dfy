/** Small facts about slices and concatenations. */
module Sequences {
  lemma Cut<T>(s: seq<T>, n: nat)
    requires n <= |s|
    ensures s == s[..n] + s[n..]
  {
  }

  lemma Whole<T>(s: seq<T>)
    ensures s[..|s|] == s && s[0..] == s
  {
  }

  lemma WithNothing<T>(s: seq<T>)
    ensures s + [] == s && [] + s == s
  {
  }

  /** A slice and its next element. */
  lemma OneFurther<T>(s: seq<T>, n: nat)
    requires n < |s|
    ensures s[..n + 1] == s[..n] + [s[n]]
    ensures s[..n + 1][..n] == s[..n] && s[..n + 1][n] == s[n]
  {
  }

  lemma SliceFirst<T>(s: seq<T>, i: nat, e: nat)
    requires i < e <= |s|
    ensures s[i..e] == [s[i]] + s[i + 1..e]
  {
  }

  lemma SliceLast<T>(s: seq<T>, i: nat, e: nat)
    requires i <= e < |s|
    ensures s[i..e + 1] == s[i..e] + [s[e]]
  {
  }

  lemma OneElement<T>(s: seq<T>, i: nat)
    requires i < |s|
    ensures s[i..i + 1] == [s[i]]
  {
  }

  lemma FrontAndLast<T>(s: seq<T>)
    requires s != []
    ensures s == s[..|s| - 1] + [s[|s| - 1]]
  {
  }

  lemma Parts<T>(a: seq<T>, b: seq<T>)
    ensures (a + b)[..|a|] == a && (a + b)[|a|..] == b
  {
  }

  lemma Regroup<T>(a: seq<T>, b: seq<T>, c: seq<T>)
    ensures a + (b + c) == (a + b) + c
  {
  }

  /** The elements from the last to the first. */
  function Backwards<T>(s: seq<T>): (r: seq<T>)
    ensures |r| == |s|
  {
    seq(|s|, i requires 0 <= i < |s| => s[|s| - 1 - i])
  }

  lemma BackwardsMore<T>(x: T, s: seq<T>)
    ensures Backwards([x] + s) == Backwards(s) + [x]
  {
  }

  /** The first `n` from the back, put back in order, are the last `n`. */
  lemma BackwardsTake<T>(s: seq<T>, n: nat)
    requires n <= |s|
    ensures Backwards(Backwards(s)[..n]) == s[|s| - n..]
  {
  }

  lemma BackwardsTwice<T>(s: seq<T>)
    ensures Backwards(Backwards(s)) == s
  {
  }
}
