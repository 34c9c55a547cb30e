/** The glob-to-regex compiler for module paths, against a direct glob matcher. */
module Glob {
  import Sequences

  /** The regular expressions the compiler emits are built from these. `AnyChar` is `.`, which does not
      match a line feed. */
  datatype Regex =
    | Empty
    | Lit(c: char)
    | NotSlash
    | AnyChar
    | Star(r: Regex)
    | Cat(a: Regex, b: Regex)
    | Opt(r: Regex)

  /** The whole of `s` matches. */
  predicate Matches(r: Regex, s: string)
    decreases r, |s|
  {
    match r
    case Empty => s == ""
    case Lit(c) => s == [c]
    case NotSlash => |s| == 1 && s[0] != '/'
    case AnyChar => |s| == 1 && s[0] != '\n'
    case Star(q) => s == "" || exists k :: 1 <= k <= |s| && Matches(q, s[..k]) && Matches(r, s[k..])
    case Cat(a, b) => exists k :: 0 <= k <= |s| && Matches(a, s[..k]) && Matches(b, s[k..])
    case Opt(q) => s == "" || Matches(q, s)
  }

  /** `(?:.*` followed by a slash`)?`. */
  const Directories := Opt(Cat(Star(AnyChar), Lit('/')))

  predicate StartsWithStars(p: string) { |p| >= 2 && p[0] == '*' && p[1] == '*' }

  /** The pattern after `**` and one slash, if there is one. */
  function AfterStars(p: string): (q: string)
    requires StartsWithStars(p)
    ensures |q| < |p|
  {
    if |p| > 2 && p[2] == '/' then p[3..] else p[2..]
  }

  function Compile(p: string): seq<Regex> {
    if p == "" then []
    else if StartsWithStars(p) then [Directories] + Compile(AfterStars(p))
    else [if p[0] == '*' then Star(NotSlash) else if p[0] == '?' then NotSlash else Lit(p[0])] + Compile(p[1..])
  }

  lemma {:induction false} CompileStars(pattern: string, i: nat)
    requires i + 1 < |pattern| && pattern[i] == '*' && pattern[i + 1] == '*'
    ensures var next := if i + 2 < |pattern| && pattern[i + 2] == '/' then i + 3 else i + 2;
      Compile(pattern[i..]) == [Directories] + Compile(pattern[next..])
  {
    var rest := pattern[i..];
    assert rest[2..] == pattern[i + 2..];
    if |rest| > 2 && rest[2] == '/' {
      assert rest[3..] == pattern[i + 3..];
    }
  }

  lemma {:induction false} CompileOther(pattern: string, i: nat)
    requires i < |pattern| && !(i + 1 < |pattern| && pattern[i] == '*' && pattern[i + 1] == '*')
    ensures Compile(pattern[i..])
         == [if pattern[i] == '*' then Star(NotSlash) else if pattern[i] == '?' then NotSlash else Lit(pattern[i])]
            + Compile(pattern[i + 1..])
  {
    assert pattern[i..][1..] == pattern[i + 1..];
  }

  /** The loop of `_glob_to_regex`. */
  method GlobToRegex(pattern: string) returns (out: seq<Regex>)
    ensures out == Compile(pattern)
  {
    var i := 0;
    out := [];
    assert pattern[0..] == pattern;
    while i < |pattern|
      invariant 0 <= i <= |pattern|
      invariant Compile(pattern) == out + Compile(pattern[i..])
    {
      var c := pattern[i];
      ghost var before := out;
      if c == '*' && i + 1 < |pattern| && pattern[i + 1] == '*' {
        CompileStars(pattern, i);
        out := out + [Directories];
        i := i + 2;
        if i < |pattern| && pattern[i] == '/' {
          i := i + 1;
        }
        Sequences.Regroup(before, [Directories], Compile(pattern[i..]));
      } else {
        CompileOther(pattern, i);
        var piece := if c == '*' then Star(NotSlash) else if c == '?' then NotSlash else Lit(c);
        out := out + [piece];
        i := i + 1;
        Sequences.Regroup(before, [piece], Compile(pattern[i..]));
      }
    }
  }

  function Sequence(pieces: seq<Regex>): Regex {
    if pieces == [] then Empty else Cat(pieces[0], Sequence(pieces[1..]))
  }

  predicate FullMatch(pieces: seq<Regex>, s: string) { Matches(Sequence(pieces), s) }

  /** Matching a path against a glob directly: `**` stands for nothing or anything without line feeds up to a slash,
      also at the end of a pattern; `*` for a run without slashes; `?` for one character that is no slash. */
  predicate GlobMatches(p: string, s: string)
    decreases |p|, |s|
  {
    if p == "" then s == ""
    else if StartsWithStars(p) then
      var q := AfterStars(p);
      GlobMatches(q, s) || exists k :: 0 <= k < |s| && DirectoryEnd(s, k) && GlobMatches(q, s[k + 1..])
    else if p[0] == '*' then
      GlobMatches(p[1..], s) || (s != "" && s[0] != '/' && GlobMatches(p, s[1..]))
    else
      s != "" && (if p[0] == '?' then s[0] != '/' else s[0] == p[0]) && GlobMatches(p[1..], s[1..])
  }

  /** A slash at `k`, and no line feed before it. */
  predicate DirectoryEnd(s: string, k: nat)
    requires k < |s|
  {
    s[k] == '/' && NewlineFree(s[..k])
  }

  predicate SlashFree(s: string) { '/' !in s }

  predicate NewlineFree(s: string) { '\n' !in s }

  lemma {:induction false} StarNotSlash(s: string)
    ensures Matches(Star(NotSlash), s) <==> SlashFree(s)
  {
    if s != "" {
      StarNotSlash(s[1..]);
      assert s == [s[0]] + s[1..];
      assert Matches(NotSlash, s[..1]) <==> s[0] != '/';
      if Matches(Star(NotSlash), s) {
        var k :| 1 <= k <= |s| && Matches(NotSlash, s[..k]) && Matches(Star(NotSlash), s[k..]);
        assert k == 1;
      }
    }
  }

  lemma {:induction false} StarAnyChar(s: string)
    ensures Matches(Star(AnyChar), s) <==> NewlineFree(s)
  {
    if s != "" {
      StarAnyChar(s[1..]);
      assert s == [s[0]] + s[1..];
      assert Matches(AnyChar, s[..1]) <==> s[0] != '\n';
      if Matches(Star(AnyChar), s) {
        var k :| 1 <= k <= |s| && Matches(AnyChar, s[..k]) && Matches(Star(AnyChar), s[k..]);
        assert k == 1;
      }
    }
  }

  /** Nothing, or anything that ends in a slash. */
  predicate EndsInSlash(s: string) { s == "" || s[|s| - 1] == '/' }

  lemma {:induction false} DirectoriesMatch(s: string)
    ensures Matches(Directories, s) <==> EndsInSlash(s) && NewlineFree(s)
  {
    var inner := Cat(Star(AnyChar), Lit('/'));
    if s != "" {
      var n := |s| - 1;
      if Matches(inner, s) {
        var k :| 0 <= k <= |s| && Matches(Star(AnyChar), s[..k]) && Matches(Lit('/'), s[k..]);
        assert s[k..] == ['/'] && s == s[..k] + s[k..];
        StarAnyChar(s[..k]);
      }
      if s[n] == '/' && NewlineFree(s) {
        StarAnyChar(s[..n]);
        assert s[n..] == ['/'];
        assert Matches(Star(AnyChar), s[..n]) && Matches(Lit('/'), s[n..]);
      }
    }
  }

  /** The first piece takes a prefix and the others the rest. */
  ghost predicate SplitsAt(first: Regex, rest: seq<Regex>, s: string, k: int) {
    0 <= k <= |s| && Matches(first, s[..k]) && FullMatch(rest, s[k..])
  }

  lemma {:induction false} Unfold(first: Regex, rest: seq<Regex>, s: string)
    ensures FullMatch([first] + rest, s) <==> exists k :: SplitsAt(first, rest, s, k)
  {
    assert ([first] + rest)[1..] == rest;
    var r := Sequence([first] + rest);
    assert r == Cat(first, Sequence(rest));
    if Matches(r, s) {
      var k :| 0 <= k <= |s| && Matches(first, s[..k]) && Matches(Sequence(rest), s[k..]);
      assert SplitsAt(first, rest, s, k);
    }
    if exists k :: SplitsAt(first, rest, s, k) {
      var k :| SplitsAt(first, rest, s, k);
      assert Matches(first, s[..k]) && Matches(Sequence(rest), s[k..]);
    }
  }

  /** The compiled expression accepts exactly the paths the direct matcher accepts. */
  lemma {:induction false} CompiledMatchesGlob(p: string, s: string)
    ensures FullMatch(Compile(p), s) <==> GlobMatches(p, s)
    decreases |p|, |s|
  {
    if p != "" {
      if StartsWithStars(p) {
        StarsAgree(p, s);
      } else if p[0] == '*' {
        StarAgrees(p, s);
      } else {
        OneAgrees(p, s);
      }
    }
  }

  lemma {:induction false} StarsAgree(p: string, s: string)
    requires StartsWithStars(p)
    ensures FullMatch(Compile(p), s) <==> GlobMatches(p, s)
    decreases |p|, |s|, 0
  {
    var q := AfterStars(p);
    Unfold(Directories, Compile(q), s);
    forall k | 0 <= k <= |s|
      ensures SplitsAt(Directories, Compile(q), s, k) <==>
        (k == 0 || DirectoryEnd(s, k - 1)) && GlobMatches(q, s[k..])
    {
      DirectoriesMatch(s[..k]);
      CompiledMatchesGlob(q, s[k..]);
      if k > 0 {
        Sequences.OneFurther(s, k - 1);
      }
    }
    assert s[0..] == s;
    if exists k :: SplitsAt(Directories, Compile(q), s, k) {
      var k :| SplitsAt(Directories, Compile(q), s, k);
      if k > 0 {
        assert DirectoryEnd(s, k - 1) && GlobMatches(q, s[k - 1 + 1..]);
      }
    }
    if GlobMatches(p, s) && !GlobMatches(q, s) {
      var k :| 0 <= k < |s| && DirectoryEnd(s, k) && GlobMatches(q, s[k + 1..]);
      assert SplitsAt(Directories, Compile(q), s, k + 1);
    }
    if GlobMatches(q, s) {
      assert SplitsAt(Directories, Compile(q), s, 0);
    }
  }

  lemma {:induction false} StarAgrees(p: string, s: string)
    requires p != "" && p[0] == '*' && !StartsWithStars(p)
    ensures FullMatch(Compile(p), s) <==> GlobMatches(p, s)
    decreases |p|, |s|, 0
  {
    var rest := Compile(p[1..]);
    Unfold(Star(NotSlash), rest, s);
    CompiledMatchesGlob(p[1..], s);
    assert s[..0] == "" && s[0..] == s;
    StarNotSlash("");
    if s != "" {
      CompiledMatchesGlob(p, s[1..]);
      Unfold(Star(NotSlash), rest, s[1..]);
      forall k | 1 <= k <= |s|
        ensures SplitsAt(Star(NotSlash), rest, s, k) <==> s[0] != '/' && SplitsAt(Star(NotSlash), rest, s[1..], k - 1)
      {
        StarNotSlash(s[..k]);
        StarNotSlash(s[1..][..k - 1]);
        assert s[..k] == [s[0]] + s[1..][..k - 1];
        assert s[1..][k - 1..] == s[k..];
      }
    }
    if exists k :: SplitsAt(Star(NotSlash), rest, s, k) {
      var k :| SplitsAt(Star(NotSlash), rest, s, k);
      if k > 0 {
        assert SplitsAt(Star(NotSlash), rest, s[1..], k - 1);
      }
    }
    if FullMatch(rest, s) {
      assert SplitsAt(Star(NotSlash), rest, s, 0);
    }
    if s != "" && s[0] != '/' && exists k :: SplitsAt(Star(NotSlash), rest, s[1..], k) {
      var k :| SplitsAt(Star(NotSlash), rest, s[1..], k);
      assert SplitsAt(Star(NotSlash), rest, s, k + 1);
    }
  }

  lemma {:induction false} OneAgrees(p: string, s: string)
    requires p != "" && p[0] != '*'
    ensures FullMatch(Compile(p), s) <==> GlobMatches(p, s)
    decreases |p|, |s|, 0
  {
    var first := if p[0] == '?' then NotSlash else Lit(p[0]);
    Unfold(first, Compile(p[1..]), s);
    if exists k :: SplitsAt(first, Compile(p[1..]), s, k) {
      var k :| SplitsAt(first, Compile(p[1..]), s, k);
      assert k == 1 && s[..1][0] == s[0];
      CompiledMatchesGlob(p[1..], s[1..]);
    }
    if GlobMatches(p, s) {
      CompiledMatchesGlob(p[1..], s[1..]);
      assert s[..1] == [s[0]];
      assert SplitsAt(first, Compile(p[1..]), s, 1);
    }
  }

  /** `match_module_paths`: some pattern accepts the path. */
  method MatchModulePaths(modulePaths: seq<string>, path: string) returns (matched: bool)
    ensures matched <==> exists i :: 0 <= i < |modulePaths| && GlobMatches(modulePaths[i], path)
  {
    for i := 0 to |modulePaths|
      invariant forall j :: 0 <= j < i ==> !GlobMatches(modulePaths[j], path)
    {
      var pieces := GlobToRegex(modulePaths[i]);
      CompiledMatchesGlob(modulePaths[i], path);
      if FullMatch(pieces, path) {
        return true;
      }
    }
    matched := false;
  }

  // ---- Whole segments between a prefix and a suffix ----

  predicate Segment(s: string) { SlashFree(s) && NewlineFree(s) }

  /** Path segments, each followed by its slash. */
  function Directory(segments: seq<string>): string {
    if segments == [] then "" else segments[0] + "/" + Directory(segments[1..])
  }

  ghost predicate WholeSegments(s: string) {
    exists segments: seq<string> :: s == Directory(segments) && forall i :: 0 <= i < |segments| ==> Segment(segments[i])
  }

  lemma {:induction false} SegmentsEndInSlash(segments: seq<string>)
    ensures EndsInSlash(Directory(segments))
    ensures (forall i :: 0 <= i < |segments| ==> Segment(segments[i])) ==> NewlineFree(Directory(segments))
  {
    if segments != [] {
      SegmentsEndInSlash(segments[1..]);
    }
  }

  lemma {:induction false} CutIntoSegments(s: string) returns (segments: seq<string>)
    requires EndsInSlash(s) && NewlineFree(s)
    ensures s == Directory(segments) && forall i :: 0 <= i < |segments| ==> Segment(segments[i])
    decreases |s|
  {
    if s == "" {
      segments := [];
    } else {
      var tail := CutIntoSegments(AfterSlash(s));
      segments := [s[..FirstSlash(s)]] + tail;
      assert segments[1..] == tail;
      assert s == s[..FirstSlash(s)] + "/" + AfterSlash(s);
    }
  }

  function FirstSlash(s: string): (k: nat)
    requires '/' in s
    ensures k < |s| && s[k] == '/' && SlashFree(s[..k])
  {
    if s[0] == '/' then 0
    else
      var k := FirstSlash(s[1..]);
      assert s[..k + 1] == [s[0]] + s[1..][..k];
      k + 1
  }

  function AfterSlash(s: string): (t: string)
    requires s != "" && s[|s| - 1] == '/'
    ensures EndsInSlash(t) && |t| < |s|
  {
    s[FirstSlash(s) + 1..]
  }

  lemma {:induction false} WholeSegmentsEndInSlash(s: string)
    ensures WholeSegments(s) <==> EndsInSlash(s) && NewlineFree(s)
  {
    if WholeSegments(s) {
      var segments: seq<string> :| s == Directory(segments) && forall i :: 0 <= i < |segments| ==> Segment(segments[i]);
      SegmentsEndInSlash(segments);
    }
    if EndsInSlash(s) && NewlineFree(s) {
      var segments := CutIntoSegments(s);
    }
  }

  /** A slash after the pattern starts a new token: the pattern does not end in `**`. */
  predicate Closed(p: string) {
    if p == "" then true
    else if StartsWithStars(p) then p[2..] != "" && Closed(AfterStars(p))
    else Closed(p[1..])
  }

  lemma {:induction false} CompileAppend(p: string, q: string)
    requires Closed(p) && q != "" && q[0] == '/'
    ensures Compile(p + q) == Compile(p) + Compile(q)
    decreases |p|
  {
    if p == "" {
      assert p + q == q;
    } else if StartsWithStars(p) {
      assert AfterStars(p + q) == AfterStars(p) + q;
      CompileAppend(AfterStars(p), q);
    } else {
      assert (p + q)[1..] == p[1..] + q;
      CompileAppend(p[1..], q);
    }
  }

  ghost predicate JoinsAt(a: seq<Regex>, b: seq<Regex>, s: string, k: int) {
    0 <= k <= |s| && FullMatch(a, s[..k]) && FullMatch(b, s[k..])
  }

  /** Cutting twice: the pieces before, between and after two places. */
  lemma {:induction false} CutTwice(s: string, i: nat, k: nat)
    requires i <= k <= |s|
    ensures s[..k][..i] == s[..i] && s[..k][i..] == s[i..][..k - i] && s[i..][k - i..] == s[k..]
  {
  }

  lemma {:induction false} SequenceAppend(a: seq<Regex>, b: seq<Regex>, s: string)
    ensures FullMatch(a + b, s) <==> exists k :: JoinsAt(a, b, s, k)
    decreases |a|, 0
  {
    if a == [] {
      Sequences.WithNothing(b);
      Sequences.Whole(s);
      if FullMatch(b, s) {
        assert JoinsAt(a, b, s, 0);
      }
    } else {
      HeadAndRest(a, b);
      if FullMatch(a + b, s) {
        JoinFound(a[0], a[1..], b, s);
      }
      if exists k :: JoinsAt(a, b, s, k) {
        var k :| JoinsAt(a, b, s, k);
        JoinUsed(a[0], a[1..], b, s, k);
      }
    }
  }

  lemma {:induction false} HeadAndRest(a: seq<Regex>, b: seq<Regex>)
    requires a != []
    ensures a == [a[0]] + a[1..] && a + b == [a[0]] + (a[1..] + b)
  {
  }

  lemma {:induction false} JoinFound(first: Regex, rest: seq<Regex>, b: seq<Regex>, s: string)
    requires FullMatch([first] + (rest + b), s)
    ensures exists k :: JoinsAt([first] + rest, b, s, k)
    decreases |rest|, 1
  {
    Unfold(first, rest + b, s);
    var i :| SplitsAt(first, rest + b, s, i);
    SequenceAppend(rest, b, s[i..]);
    var j :| JoinsAt(rest, b, s[i..], j);
    CutTwice(s, i, i + j);
    Unfold(first, rest, s[..i + j]);
    assert SplitsAt(first, rest, s[..i + j], i);
    assert JoinsAt([first] + rest, b, s, i + j);
  }

  lemma {:induction false} JoinUsed(first: Regex, rest: seq<Regex>, b: seq<Regex>, s: string, k: int)
    requires JoinsAt([first] + rest, b, s, k)
    ensures FullMatch([first] + (rest + b), s)
    decreases |rest|, 1
  {
    Unfold(first, rest, s[..k]);
    var i :| SplitsAt(first, rest, s[..k], i);
    CutTwice(s, i, k);
    SequenceAppend(rest, b, s[i..]);
    assert JoinsAt(rest, b, s[i..], k - i);
    Unfold(first, rest + b, s);
    assert SplitsAt(first, rest + b, s, i);
  }

  /** `s` is a path under the prefix, a slash, whole segments, and a path under the suffix. */
  ghost predicate BetweenSegments(prefix: string, suffix: string, s: string, i: int, j: int) {
    && 0 <= i < j <= |s| && s[i] == '/'
    && GlobMatches(prefix, s[..i]) && WholeSegments(s[i + 1..j]) && GlobMatches(suffix, s[j..])
  }

  /** With two stars between slashes, a path matches the pattern exactly when zero or more whole
      segments separate a match of the prefix from a match of the suffix. */
  lemma {:induction false} SegmentsBetween(prefix: string, suffix: string, s: string)
    requires Closed(prefix)
    ensures GlobMatches(prefix + ("/**/" + suffix), s) <==> exists i, j :: BetweenSegments(prefix, suffix, s, i, j)
  {
    var tail := "/**/" + suffix;
    var compiled := [Lit('/')] + ([Directories] + Compile(suffix));
    CompileBetween(prefix, suffix);
    CompiledMatchesGlob(prefix + tail, s);
    SequenceAppend(Compile(prefix), compiled, s);
    forall i: nat | i <= |s|
      ensures JoinsAt(Compile(prefix), compiled, s, i) <==> exists j :: BetweenSegments(prefix, suffix, s, i, j)
    {
      TailJoins(prefix, suffix, s, i);
    }
    if exists i, j :: BetweenSegments(prefix, suffix, s, i, j) {
      var i, j :| BetweenSegments(prefix, suffix, s, i, j);
      assert JoinsAt(Compile(prefix), compiled, s, i);
    }
  }

  lemma {:induction false} CompileBetween(prefix: string, suffix: string)
    requires Closed(prefix)
    ensures Compile(prefix + ("/**/" + suffix)) == Compile(prefix) + ([Lit('/')] + ([Directories] + Compile(suffix)))
  {
    var tail := "/**/" + suffix;
    CompileAppend(prefix, tail);
    CompileOther(tail, 0);
    CompileStars(tail, 1);
    assert tail[0..] == tail && tail[4..] == suffix;
  }

  lemma {:induction false} TailJoins(prefix: string, suffix: string, s: string, i: nat)
    requires i <= |s|
    ensures JoinsAt(Compile(prefix), [Lit('/')] + ([Directories] + Compile(suffix)), s, i)
       <==> exists j :: BetweenSegments(prefix, suffix, s, i, j)
  {
    CompiledMatchesGlob(prefix, s[..i]);
    TailMatches(suffix, s, i);
    if exists j :: BetweenSegments(prefix, suffix, s, i, j) {
      var j :| BetweenSegments(prefix, suffix, s, i, j);
      assert WholeSegments(s[i + 1..j]) && GlobMatches(suffix, s[j..]);
    }
    if JoinsAt(Compile(prefix), [Lit('/')] + ([Directories] + Compile(suffix)), s, i) {
      var j :| i < j <= |s| && s[i] == '/' && WholeSegments(s[i + 1..j]) && GlobMatches(suffix, s[j..]);
      assert BetweenSegments(prefix, suffix, s, i, j);
    }
  }

  /** The rest of the path after the prefix: a slash, whole segments, and the suffix. */
  lemma {:induction false} TailMatches(suffix: string, s: string, i: nat)
    requires i <= |s|
    ensures FullMatch([Lit('/')] + ([Directories] + Compile(suffix)), s[i..])
       <==> exists j :: i < j <= |s| && s[i] == '/' && WholeSegments(s[i + 1..j]) && GlobMatches(suffix, s[j..])
  {
    var t := s[i..];
    var rest := [Directories] + Compile(suffix);
    Unfold(Lit('/'), rest, t);
    if t != "" {
      var u := s[i + 1..];
      assert t[1..] == u && t[..1] == [s[i]];
      Unfold(Directories, Compile(suffix), u);
      forall k | 0 <= k <= |u|
        ensures SplitsAt(Directories, Compile(suffix), u, k) <==>
          WholeSegments(s[i + 1..i + 1 + k]) && GlobMatches(suffix, s[i + 1 + k..])
      {
        assert u[..k] == s[i + 1..i + 1 + k] && u[k..] == s[i + 1 + k..];
        DirectoriesMatch(u[..k]);
        WholeSegmentsEndInSlash(u[..k]);
        CompiledMatchesGlob(suffix, u[k..]);
      }
      if FullMatch([Lit('/')] + rest, t) {
        var k :| SplitsAt(Lit('/'), rest, t, k);
        assert k == 1;
        var m :| SplitsAt(Directories, Compile(suffix), u, m);
        assert i < i + 1 + m <= |s|;
      }
      if exists j :: i < j <= |s| && s[i] == '/' && WholeSegments(s[i + 1..j]) && GlobMatches(suffix, s[j..]) {
        var j :| i < j <= |s| && s[i] == '/' && WholeSegments(s[i + 1..j]) && GlobMatches(suffix, s[j..]);
        assert SplitsAt(Directories, Compile(suffix), u, j - i - 1);
        assert SplitsAt(Lit('/'), rest, t, 1);
      }
    }
  }

  // ---- A prefix that ends in two stars swallows the slash ----

  /** A path the pattern accepts: stars stand for nothing. */
  function Sample(p: string): string
    decreases |p|
  {
    if p == "" then ""
    else if StartsWithStars(p) then Sample(AfterStars(p))
    else (if p[0] == '*' then "" else if p[0] == '?' then "x" else [p[0]]) + Sample(p[1..])
  }

  function Slashes(s: string): nat {
    if s == "" then 0 else (if s[0] == '/' then 1 else 0) + Slashes(s[1..])
  }

  lemma {:induction false} SlashesOfSum(a: string, b: string)
    ensures Slashes(a + b) == Slashes(a) + Slashes(b)
  {
    if a == "" {
      assert a + b == b;
    } else {
      assert (a + b)[1..] == a[1..] + b;
      SlashesOfSum(a[1..], b);
    }
  }

  lemma {:induction false} SampleMatches(p: string)
    ensures GlobMatches(p, Sample(p))
    decreases |p|
  {
    if p == "" {
    } else if StartsWithStars(p) {
      SampleMatches(AfterStars(p));
    } else {
      SampleMatches(p[1..]);
      Sequences.WithNothing(Sample(p[1..]));
      Sequences.Parts("x", Sample(p[1..]));
      Sequences.Parts([p[0]], Sample(p[1..]));
    }
  }

  lemma {:induction false} SlashesAfter(s: string, k: nat)
    requires k <= |s|
    ensures Slashes(s[k..]) <= Slashes(s)
  {
    assert s == s[..k] + s[k..];
    SlashesOfSum(s[..k], s[k..]);
  }

  /** No accepted path has fewer slashes than the sample. */
  lemma {:induction false} SampleHasFewestSlashes(p: string, s: string)
    requires GlobMatches(p, s)
    ensures Slashes(Sample(p)) <= Slashes(s)
    decreases |p|, |s|
  {
    if p == "" {
    } else if StartsWithStars(p) {
      var q := AfterStars(p);
      if GlobMatches(q, s) {
        SampleHasFewestSlashes(q, s);
      } else {
        var k :| 0 <= k < |s| && DirectoryEnd(s, k) && GlobMatches(q, s[k + 1..]);
        SampleHasFewestSlashes(q, s[k + 1..]);
        SlashesAfter(s, k + 1);
      }
    } else if p[0] == '*' {
      if GlobMatches(p[1..], s) {
        SampleHasFewestSlashes(p[1..], s);
        assert Sample(p) == Sample(p[1..]);
      } else {
        SampleHasFewestSlashes(p, s[1..]);
      }
    } else {
      SampleHasFewestSlashes(p[1..], s[1..]);
      assert Sample(p)[1..] == Sample(p[1..]);
    }
  }

  lemma {:induction false} OpenPrefixSample(prefix: string, suffix: string)
    requires !Closed(prefix)
    ensures Sample(prefix + ("/**/" + suffix)) == Sample(prefix) + Sample(suffix)
    decreases |prefix|
  {
    var tail := "/**/" + suffix;
    var p := prefix + tail;
    if StartsWithStars(prefix) {
      if prefix[2..] == "" {
        assert AfterStars(p) == "**/" + suffix;
        assert AfterStars("**/" + suffix) == suffix;
      } else {
        assert AfterStars(p) == AfterStars(prefix) + tail;
        OpenPrefixSample(AfterStars(prefix), suffix);
      }
    } else {
      assert p[1..] == prefix[1..] + tail;
      OpenPrefixSample(prefix[1..], suffix);
    }
  }

  lemma {:induction false} SlashBetween(s: string, i: nat, j: nat)
    requires i < j <= |s| && s[i] == '/'
    ensures Slashes(s) > Slashes(s[..i]) + Slashes(s[j..])
  {
    Sequences.Cut(s, i);
    SlashesOfSum(s[..i], s[i..]);
    var below := s[i..];
    SlashesAfter(below[1..], j - i - 1);
    assert below[1..][j - i - 1..] == s[j..];
  }

  /** Between a match of the prefix and one of the suffix there is one slash more than in the samples. */
  lemma {:induction false} BetweenHasMoreSlashes(prefix: string, suffix: string, s: string, i: int, j: int)
    requires BetweenSegments(prefix, suffix, s, i, j)
    ensures Slashes(s) > Slashes(Sample(prefix)) + Slashes(Sample(suffix))
  {
    SampleHasFewestSlashes(prefix, s[..i]);
    SampleHasFewestSlashes(suffix, s[j..]);
    SlashBetween(s, i, j);
  }

  /** The path does what two stars between slashes promise. */
  ghost predicate SeparatesSegments(prefix: string, suffix: string, s: string) {
    GlobMatches(prefix + ("/**/" + suffix), s) <==> exists i, j :: BetweenSegments(prefix, suffix, s, i, j)
  }

  /** Two stars between slashes stand for whole segments on every path exactly when the prefix does not
      itself end in two stars. */
  lemma {:induction false} SegmentsBetweenExactly(prefix: string, suffix: string)
    ensures (forall s :: SeparatesSegments(prefix, suffix, s)) <==> Closed(prefix)
  {
    if Closed(prefix) {
      forall s
        ensures SeparatesSegments(prefix, suffix, s)
      {
        SegmentsBetween(prefix, suffix, s);
      }
    } else {
      OpenPrefixFails(prefix, suffix);
    }
  }

  lemma {:induction false} OpenPrefixFails(prefix: string, suffix: string)
    requires !Closed(prefix)
    ensures exists s :: !SeparatesSegments(prefix, suffix, s)
  {
    var s := Sample(prefix + ("/**/" + suffix));
    SampleMatches(prefix + ("/**/" + suffix));
    OpenPrefixSample(prefix, suffix);
    SlashesOfSum(Sample(prefix), Sample(suffix));
    forall i, j
      ensures !BetweenSegments(prefix, suffix, s, i, j)
    {
      if BetweenSegments(prefix, suffix, s, i, j) {
        BetweenHasMoreSlashes(prefix, suffix, s, i, j);
      }
    }
    assert !SeparatesSegments(prefix, suffix, s);
  }

  // ---- Two stars at the end ----

  /** The path is one under the prefix, a slash, and whole segments. */
  ghost predicate UnderDirectory(prefix: string, s: string, i: int) {
    0 <= i < |s| && s[i] == '/' && GlobMatches(prefix, s[..i]) && WholeSegments(s[i + 1..])
  }

  /** Two stars at the end stand for whole segments with all their slashes, as two stars and a slash do. */
  lemma {:induction false} TrailingStars(prefix: string, s: string)
    requires Closed(prefix)
    ensures GlobMatches(prefix + "/**", s) <==> GlobMatches(prefix + "/**/", s)
    ensures GlobMatches(prefix + "/**", s) <==> exists i :: UnderDirectory(prefix, s, i)
  {
    CompileTrailing(prefix);
    CompiledMatchesGlob(prefix + "/**", s);
    CompiledMatchesGlob(prefix + "/**/", s);
    SegmentsBetween(prefix, "", s);
    Sequences.WithNothing("/**/");
    BetweenAndNothing(prefix, s);
  }

  lemma {:induction false} BetweenAndNothing(prefix: string, s: string)
    ensures (exists i, j :: BetweenSegments(prefix, "", s, i, j)) <==> exists i :: UnderDirectory(prefix, s, i)
  {
    if i, j :| BetweenSegments(prefix, "", s, i, j) {
      Sequences.Whole(s);
      assert UnderDirectory(prefix, s, i);
    }
    if i :| UnderDirectory(prefix, s, i) {
      assert BetweenSegments(prefix, "", s, i, |s|);
    }
  }

  lemma {:induction false} CompileTrailing(prefix: string)
    requires Closed(prefix)
    ensures Compile(prefix + "/**") == Compile(prefix + "/**/")
  {
    CompileAppend(prefix, "/**");
    CompileAppend(prefix, "/**/");
    assert "/**"[1..] == "**" && "/**/"[1..] == "**/";
    assert AfterStars("**") == "" && AfterStars("**/") == "";
  }

  /** So such a pattern accepts the directories below the prefix, and no file: `src/` and `src/a/`, but neither
      `src/a.py` nor `src/a/b.py`. */
  lemma {:induction false} TrailingStarsAcceptNoFile(prefix: string, s: string)
    requires Closed(prefix) && (s == "" || s[|s| - 1] != '/')
    ensures !GlobMatches(prefix + "/**", s)
  {
    TrailingStars(prefix, s);
    if i :| UnderDirectory(prefix, s, i) {
      WholeSegmentsEndInSlash(s[i + 1..]);
    }
  }
}
