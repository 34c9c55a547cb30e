/**
  Substring search, splitting, joining and replacing, as Python's `str.split`,
  `str.join`, `str.count` and `str.replace` do them: leftmost first, and never overlapping.
*/
module Text {
  import opened Options

  /** `pat` stands in `s` at index `j`. */
  predicate At(s: string, pat: string, j: int) {
    0 <= j && j + |pat| <= |s| && s[j..j + |pat|] == pat
  }

  lemma {:induction false} AtTail(s: string, pat: string)
    requires s != ""
    ensures forall j: nat :: At(s[1..], pat, j) <==> At(s, pat, j + 1)
  {
    forall j: nat
      ensures At(s[1..], pat, j) <==> At(s, pat, j + 1)
    {
      if j + 1 + |pat| <= |s| {
        assert s[1..][j..j + |pat|] == s[j + 1..j + 1 + |pat|];
      }
    }
  }

  /** The leftmost occurrence of `pat`. */
  function Find(s: string, pat: string): (r: Option<nat>)
    ensures r.Some? ==> At(s, pat, r.value) && forall j :: 0 <= j < r.value ==> !At(s, pat, j)
    ensures r.None? ==> forall j :: !At(s, pat, j)
    decreases |s|
  {
    if |s| < |pat| then None
    else if s[..|pat|] == pat then Some(0)
    else
      AtTail(s, pat);
      match Find(s[1..], pat)
      case None => assert forall j: int :: j >= 1 ==> (At(s, pat, j) <==> At(s[1..], pat, j - 1)); None
      case Some(i) => assert forall j: int :: j >= 1 ==> (At(s, pat, j) <==> At(s[1..], pat, j - 1)); Some(i + 1)
  }

  lemma {:induction false} FindIs(s: string, pat: string, i: nat)
    requires At(s, pat, i) && forall j: nat :: j < i ==> !At(s, pat, j)
    ensures Find(s, pat) == Some(i)
  {
  }

  /** A differing character rules an occurrence out. */
  lemma {:induction false} NotAt(s: string, pat: string, j: nat, k: nat)
    requires k < |pat| && j + k < |s| && s[j + k] != pat[k]
    ensures !At(s, pat, j)
  {
    if j + |pat| <= |s| {
      assert s[j..j + |pat|][k] == s[j + k];
    }
  }

  function Split(s: string, sep: string): (parts: seq<string>)
    requires sep != ""
    ensures |parts| >= 1
    decreases |s|
  {
    match Find(s, sep)
    case None => [s]
    case Some(i) => [s[..i]] + Split(s[i + |sep|..], sep)
  }

  function Join(parts: seq<string>, sep: string): string {
    if parts == [] then ""
    else if |parts| == 1 then parts[0]
    else parts[0] + sep + Join(parts[1..], sep)
  }

  lemma {:induction false} JoinCons(p: string, rest: seq<string>, sep: string)
    requires rest != []
    ensures Join([p] + rest, sep) == p + sep + Join(rest, sep)
  {
    assert ([p] + rest)[1..] == rest;
  }

  /** What a splitter leaves behind: every piece but the last runs up to the first separator after
      it, and the last piece holds none. */
  ghost predicate Proper(parts: seq<string>, sep: string) {
    && parts != []
    && (forall i :: 0 <= i < |parts| - 1 ==> Find(parts[i] + sep, sep) == Some(|parts[i]|))
    && Find(parts[|parts| - 1], sep) == None
  }

  /** An occurrence at the end of `p + sep` stays the first one whatever follows. */
  lemma {:induction false} FindExtend(p: string, sep: string, rest: string)
    requires sep != "" && Find(p + sep, sep) == Some(|p|)
    ensures Find(p + sep + rest, sep) == Some(|p|)
  {
    var s := p + sep;
    assert At(s + rest, sep, |p|) by {
      assert (s + rest)[|p|..|p| + |sep|] == sep;
    }
    forall j | 0 <= j < |p|
      ensures !At(s + rest, sep, j)
    {
      assert (s + rest)[j..j + |sep|] == s[j..j + |sep|];
      assert !At(s, sep, j);
    }
  }

  /** A text around its first separator. */
  lemma {:induction false} AroundFirst(s: string, sep: string, i: nat)
    requires At(s, sep, i)
    ensures s == s[..i] + sep + s[i + |sep|..]
  {
    assert s[i..] == s[i..i + |sep|] + s[i + |sep|..];
    assert s == s[..i] + s[i..];
  }

  lemma {:induction false} AtInPrefix(s: string, pat: string, n: nat, j: nat)
    requires j + |pat| <= n <= |s|
    ensures At(s[..n], pat, j) <==> At(s, pat, j)
  {
    assert s[..n][j..j + |pat|] == s[j..j + |pat|];
  }

  lemma {:induction false} PrefixToOccurrence(s: string, sep: string, i: nat)
    requires At(s, sep, i)
    ensures i + |sep| <= |s| && s[..i + |sep|] == s[..i] + sep
  {
  }

  lemma {:induction false} FindInPrefix(s: string, sep: string, i: nat)
    requires sep != "" && Find(s, sep) == Some(i)
    ensures i + |sep| <= |s|
    ensures Find(s[..i] + sep, sep) == Some(i)
  {
    var n := i + |sep|;
    PrefixToOccurrence(s, sep, i);
    AtInPrefix(s, sep, n, i);
    forall j: nat | j < i
      ensures !At(s[..n], sep, j)
    {
      AtInPrefix(s, sep, n, j);
    }
    FindIs(s[..n], sep, i);
  }

  lemma {:induction false} ProperCons(p: string, rest: seq<string>, sep: string)
    requires sep != "" && Find(p + sep, sep) == Some(|p|) && Proper(rest, sep)
    ensures Proper([p] + rest, sep)
  {
    var parts := [p] + rest;
    assert parts[|parts| - 1] == rest[|rest| - 1];
    forall k: nat | k < |parts| - 1
      ensures Find(parts[k] + sep, sep) == Some(|parts[k]|)
    {
      if k == 0 {
        assert parts[k] == p;
      } else {
        assert parts[k] == rest[k - 1];
      }
    }
  }

  /** Splitting loses nothing and leaves proper pieces. */
  lemma {:induction false} SplitThenJoin(s: string, sep: string)
    requires sep != ""
    ensures Join(Split(s, sep), sep) == s
    ensures Proper(Split(s, sep), sep)
    decreases |s|
  {
    match Find(s, sep) {
      case None =>
      case Some(i) =>
        FindInPrefix(s, sep, i);
        AroundFirst(s, sep, i);
        var rest := Split(s[i + |sep|..], sep);
        SplitThenJoin(s[i + |sep|..], sep);
        ProperCons(s[..i], rest, sep);
        JoinCons(s[..i], rest, sep);
    }
  }

  /** Joining proper pieces and splitting again gives the same pieces back. */
  lemma {:induction false} JoinThenSplit(parts: seq<string>, sep: string)
    requires sep != "" && Proper(parts, sep)
    ensures Split(Join(parts, sep), sep) == parts
    decreases |parts|
  {
    if |parts| == 1 {
    } else {
      var rest := parts[1..];
      ProperRest(parts, sep);
      JoinThenSplit(rest, sep);
      SplitOnce(parts[0], sep, Join(rest, sep));
      assert parts == [parts[0]] + rest;
      JoinCons(parts[0], rest, sep);
    }
  }

  lemma {:induction false} ProperRest(parts: seq<string>, sep: string)
    requires Proper(parts, sep) && |parts| > 1
    ensures Proper(parts[1..], sep) && Find(parts[0] + sep, sep) == Some(|parts[0]|)
  {
    var rest := parts[1..];
    assert forall i :: 0 <= i < |rest| ==> rest[i] == parts[i + 1];
  }

  /** The first piece of a text and what follows its separator. */
  lemma {:induction false} SplitOnce(p: string, sep: string, tail: string)
    requires sep != "" && Find(p + sep, sep) == Some(|p|)
    ensures Split(p + sep + tail, sep) == [p] + Split(tail, sep)
  {
    FindExtend(p, sep, tail);
    var s := p + sep + tail;
    assert s[..|p|] == p && s[|p| + |sep|..] == tail;
  }

  /** Splitting at the first `n` separators only. */
  function SplitN(s: string, sep: string, n: nat): (parts: seq<string>)
    requires sep != ""
    ensures |parts| >= 1
    decreases |s|
  {
    if n == 0 || Find(s, sep).None? then [s]
    else
      var i := Find(s, sep).value;
      [s[..i]] + SplitN(s[i + |sep|..], sep, n - 1)
  }

  function Replace(s: string, from: string, to: string, n: nat): string
    requires from != ""
    decreases |s|
  {
    if n == 0 || Find(s, from).None? then s
    else
      var i := Find(s, from).value;
      s[..i] + to + Replace(s[i + |from|..], from, to, n - 1)
  }

  /** Replacing is splitting at the first `n` occurrences and joining with the new text; the pieces
      joined with the old text are the original. */
  lemma {:induction false} ReplaceIsRejoin(s: string, from: string, to: string, n: nat)
    requires from != ""
    ensures Join(SplitN(s, from, n), from) == s
    ensures Join(SplitN(s, from, n), to) == Replace(s, from, to, n)
    ensures |SplitN(s, from, n)| == 1 + (if n <= |Split(s, from)| - 1 then n else |Split(s, from)| - 1)
    decreases |s|
  {
    if n == 0 || Find(s, from).None? {
    } else {
      var i := Find(s, from).value;
      FindInPrefix(s, from, i);
      AroundFirst(s, from, i);
      var rest := s[i + |from|..];
      ReplaceIsRejoin(rest, from, to, n - 1);
      JoinCons(s[..i], SplitN(rest, from, n - 1), from);
      JoinCons(s[..i], SplitN(rest, from, n - 1), to);
    }
  }

  /** Replacing as many occurrences as there are replaces them all. */
  lemma {:induction false} ReplaceAll(s: string, from: string, to: string, n: nat)
    requires from != "" && n >= |Split(s, from)| - 1
    ensures Replace(s, from, to, n) == Join(Split(s, from), to)
    decreases |s|
  {
    if Find(s, from).None? {
    } else {
      var i := Find(s, from).value;
      var rest := s[i + |from|..];
      JoinCons(s[..i], Split(rest, from), to);
      ReplaceAll(rest, from, to, n - 1);
    }
  }

  lemma {:induction false} JoinAppend(a: seq<string>, b: seq<string>, sep: string)
    requires a != [] && b != []
    ensures Join(a + b, sep) == Join(a, sep) + sep + Join(b, sep)
    decreases |a|
  {
    if |a| == 1 {
      assert (a + b)[1..] == b;
    } else {
      assert (a + b)[1..] == a[1..] + b;
      JoinAppend(a[1..], b, sep);
    }
  }
}
