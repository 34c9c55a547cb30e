/**
  Where the block separator, a line `---` between two line feeds, occurs. The separator overlaps
  itself, so which pieces can stand next to each other needs care.
*/
module Separators {
  import opened Options
  import opened Text
  import opened Lines

  const SEP := "\n---\n"
  const RULE := "---"

  /** A block that can be followed by a separator: none starts earlier. */
  ghost predicate Clean(b: string) { Find(b + SEP, SEP) == Some(|b|) }

  /** Only the first of the lines may be a rule. */
  predicate CleanLines(lines: seq<string>) {
    forall i :: 1 <= i < |lines| ==> lines[i] != RULE
  }

  /** Only the first and the last of the lines may be a rule. */
  predicate InnerClean(lines: seq<string>) {
    forall i :: 1 <= i < |lines| - 1 ==> lines[i] != RULE
  }

  /** A clean block holds no separator, not even with a line feed added. */
  lemma {:induction false} CleanAlone(b: string)
    requires Clean(b)
    ensures Find(b, SEP) == None && Find(b + NL, SEP) == None
  {
    forall j: nat
      ensures !At(b + NL, SEP, j) && !At(b, SEP, j)
    {
      if j + |SEP| <= |b + NL| {
        assert (b + NL)[j..j + |SEP|] == (b + SEP)[j..j + |SEP|];
        assert j < |b| && !At(b + SEP, SEP, j);
        if j + |SEP| <= |b| {
          assert b[j..j + |SEP|] == (b + SEP)[j..j + |SEP|];
        }
      }
    }
  }

  /** The separator does not start inside a line. */
  lemma {:induction false} NotInsideLine(line: string, rest: string, j: nat)
    requires OneLine(line) && j < |line|
    ensures !At(line + NL + rest, SEP, j)
  {
    assert (line + NL + rest)[j] == line[j];
    NotAt(line + NL + rest, SEP, j, 0);
  }

  predicate StartsWithRuleLine(s: string) { |s| >= 4 && s[..4] == RULE + NL }

  /** It starts at the end of a line exactly when the next line is a rule with another line after it. */
  lemma {:induction false} AtLineEnd(line: string, rest: string)
    ensures At(line + NL + rest, SEP, |line|) <==> StartsWithRuleLine(rest)
  {
    var s := line + NL + rest;
    if |rest| >= 4 {
      assert s[|line|..|line| + |SEP|] == NL + rest[..4];
      assert SEP == NL + (RULE + NL);
      assert (NL + rest[..4])[1..] == rest[..4] && (NL + (RULE + NL))[1..] == RULE + NL;
    }
  }

  lemma {:induction false} AfterLine(line: string, rest: string, j: nat)
    ensures At(line + NL + rest, SEP, |line| + 1 + j) <==> At(rest, SEP, j)
  {
    var s := line + NL + rest;
    if j + |SEP| <= |rest| {
      assert s[|line| + 1 + j..|line| + 1 + j + |SEP|] == rest[j..j + |SEP|];
    }
  }

  lemma {:induction false} RuleThenMore(line: string, rest: string)
    requires OneLine(line)
    ensures StartsWithRuleLine(line + NL + rest) <==> line == RULE
  {
    var s := line + NL + rest;
    assert s[|line|] == '\n';
    if StartsWithRuleLine(s) {
      var first := s[..4];
      assert forall k :: 0 <= k < 4 ==> s[k] == first[k];
      assert first[0] == first[1] == first[2] == '-' && first[3] == '\n';
      assert forall k :: 0 <= k < |line| ==> s[k] == line[k];
      assert |line| == 3;
      assert line == [line[0], line[1], line[2]];
    }
    if line == RULE {
      assert s[..4] == RULE + NL;
    }
  }

  /** A text starts with a whole line `---` exactly when its first line is that. */
  lemma {:induction false} RuleIsFirstLine(lines: seq<string>)
    requires lines != [] && forall i :: 0 <= i < |lines| ==> OneLine(lines[i])
    ensures StartsWithRuleLine(Join(lines, NL)) <==> |lines| > 1 && lines[0] == RULE
  {
    if |lines| == 1 {
      var s := lines[0];
      if |s| >= 4 {
        assert s[..4][3] == s[3] != '\n';
      }
    } else {
      RuleThenMore(lines[0], Join(lines[1..], NL));
    }
  }

  lemma {:induction false} NoSeparatorCons(line: string, rest: string)
    requires OneLine(line)
    ensures Find(line + NL + rest, SEP) == None <==> Find(rest, SEP) == None && !StartsWithRuleLine(rest)
  {
    var s := line + NL + rest;
    AtLineEnd(line, rest);
    if Find(rest, SEP).Some? {
      AfterLine(line, rest, Find(rest, SEP).value);
    }
    if Find(s, SEP).Some? {
      var j := Find(s, SEP).value;
      if j < |line| {
        NotInsideLine(line, rest, j);
      } else if j > |line| {
        AfterLine(line, rest, j - |line| - 1);
      }
    }
  }

  /** A text of lines holds no separator exactly when no inner line is a rule. */
  lemma {:induction false} NoSeparator(lines: seq<string>)
    requires lines != [] && forall i :: 0 <= i < |lines| ==> OneLine(lines[i])
    ensures Find(Join(lines, NL), SEP) == None <==> InnerClean(lines)
  {
    if |lines| == 1 {
      var s := lines[0];
      if Find(s, SEP).Some? {
        NotAt(s, SEP, Find(s, SEP).value, 0);
      }
    } else {
      NoSeparator(lines[1..]);
      RuleIsFirstLine(lines[1..]);
      NoSeparatorCons(lines[0], Join(lines[1..], NL));
      InnerCleanTail(lines);
    }
  }

  lemma {:induction false} InnerCleanTail(lines: seq<string>)
    requires |lines| > 1
    ensures InnerClean(lines) <==> InnerClean(lines[1..]) && (|lines| > 2 ==> lines[1] != RULE)
  {
    if InnerClean(lines[1..]) && (|lines| > 2 ==> lines[1] != RULE) {
      forall i | 1 <= i < |lines| - 1
        ensures lines[i] != RULE
      {
        assert i > 1 ==> lines[i] == lines[1..][i - 1];
      }
    }
  }

  /** An occurrence starting within the last three characters of `b` would need a dash where the
      separator after `b` has its line feed. */
  lemma {:induction false} NoSelfOverlap(b: string, j: nat)
    requires |b| + 1 - |SEP| < j < |b|
    ensures !At(b + SEP, SEP, j)
  {
    assert (b + SEP)[|b|] == '\n';
    NotAt(b + SEP, SEP, j, |b| - j);
  }

  /** A block is clean exactly when it holds no separator even with a line feed added. */
  lemma {:induction false} CleanWithNewline(b: string)
    ensures Clean(b) <==> Find(b + NL, SEP) == None
  {
    if Clean(b) {
      CleanAlone(b);
    }
    if Find(b + NL, SEP) == None {
      var s := b + SEP;
      assert s[|b|..|b| + |SEP|] == SEP;
      forall j: nat | j < |b|
        ensures !At(s, SEP, j)
      {
        assert !At(b + NL, SEP, j);
        if j + |SEP| <= |b| + 1 {
          assert s[j..j + |SEP|] == (b + NL)[j..j + |SEP|];
        } else {
          NoSelfOverlap(b, j);
        }
      }
      FindIs(s, SEP, |b|);
    }
  }

  lemma {:induction false} CleanTerminated(lines: seq<string>)
    ensures InnerClean(lines + [""]) <==> CleanLines(lines)
  {
    var longer := lines + [""];
    assert forall i :: 0 <= i < |lines| ==> longer[i] == lines[i];
  }

  /** A block is clean exactly when no line but the first is a rule. */
  lemma {:induction false} CleanIs(b: string)
    ensures Clean(b) <==> CleanLines(Split(b, NL))
  {
    CleanWithNewline(b);
    LinesOfTerminated(b);
    LinesOf(b + NL);
    NoSeparator(Split(b + NL, NL));
    CleanTerminated(Split(b, NL));
  }
}
