/**
  Taking the lines out of a prompt that tell an agent to call a tool it does not have, and the guard that
  reports such calls.
*/
module PromptStrip {
  import opened Options
  import opened Text
  import opened Lines
  import Sequences

  // ---- Call directives ----

  const TICK := "`"

  /** A backquote at `i`, then the name, then white space up to an opening parenthesis at `j`. */
  predicate DirectiveAt(text: string, tool: string, i: int, j: int) {
    && At(text, TICK + tool, i)
    && i + 1 + |tool| <= j < |text|
    && text[j] == '('
    && Blank(text[i + 1 + |tool|..j])
  }

  predicate HasDirective(text: string, tool: string) {
    exists i, j :: 0 <= i < |text| && 0 <= j < |text| && DirectiveAt(text, tool, i, j)
  }

  predicate Matches(text: string, disabled: set<string>) {
    exists t :: t in disabled && HasDirective(text, t)
  }

  lemma {:induction false} DirectiveShift(a: string, text: string, z: string, tool: string, i: nat, j: nat)
    requires DirectiveAt(text, tool, i, j)
    ensures DirectiveAt(a + text + z, tool, |a| + i, |a| + j)
  {
    var all := a + text + z;
    var n := i + 1 + |tool|;
    assert all[|a| + i..|a| + n] == text[i..n];
    assert all[|a| + n..|a| + j] == text[n..j];
  }

  lemma {:induction false} MatchesWithin(a: string, text: string, z: string, disabled: set<string>)
    requires Matches(text, disabled)
    ensures Matches(a + text + z, disabled)
  {
    var t :| t in disabled && HasDirective(text, t);
    var i, j :| 0 <= i < |text| && 0 <= j < |text| && DirectiveAt(text, t, i, j);
    DirectiveShift(a, text, z, t, i, j);
    assert HasDirective(a + text + z, t);
  }

  /** A stretch of lines is a stretch of the joined text. */
  lemma {:induction false} JoinHolds(lines: seq<string>, h: nat, e: nat) returns (a: string, z: string)
    requires h < e <= |lines|
    ensures Join(lines, NL) == a + Join(lines[h..e], NL) + z
  {
    a, z := "", "";
    var front, back := lines[..h], lines[e..];
    assert lines == front + (lines[h..e] + back);
    if back != [] {
      JoinAppend(lines[h..e], back, NL);
      z := NL + Join(back, NL);
    } else {
      assert lines[h..e] + back == lines[h..e];
    }
    if front != [] {
      JoinAppend(front, lines[h..e] + back, NL);
      a := Join(front, NL) + NL;
    } else {
      assert lines == lines[h..e] + back;
    }
  }

  // ---- Bullet blocks ----

  predicate StartsBullet(stripped: string) { At(stripped, "* ", 0) || At(stripped, "- ", 0) }

  predicate IsBullet(line: string) { StartsBullet(TrimLeft(line)) }

  function Indent(line: string): nat { |line| - |TrimLeft(line)| }

  /** The line continues a bullet item of the given indentation. */
  predicate Continues(line: string, indent: nat) {
    TrimLeft(line) != "" && Indent(line) > indent && !IsBullet(line)
  }

  /** Where the continuation lines from `j` on end. */
  function BlockEnd(lines: seq<string>, j: nat, indent: nat): (e: nat)
    requires j <= |lines|
    ensures j <= e <= |lines|
    ensures forall m :: j <= m < e ==> Continues(lines[m], indent)
    ensures e < |lines| ==> !Continues(lines[e], indent)
    decreases |lines| - j
  {
    if j == |lines| || !Continues(lines[j], indent) then j else BlockEnd(lines, j + 1, indent)
  }

  /** Line `k` lies in the item whose bullet is line `h`. */
  ghost predicate InBlock(lines: seq<string>, h: nat, k: nat) {
    && h <= k < |lines|
    && IsBullet(lines[h])
    && (forall m :: h < m <= k ==> Continues(lines[m], Indent(lines[h])))
  }

  function Block(lines: seq<string>, h: nat): seq<string>
    requires h < |lines|
  {
    lines[h..BlockEnd(lines, h + 1, Indent(lines[h]))]
  }

  // ---- What is taken out ----

  /** Line `k` goes: it holds a directive itself, or lies in a bullet item that holds one. */
  ghost predicate Goes(lines: seq<string>, disabled: set<string>, k: nat) {
    && k < |lines|
    && (|| Matches(lines[k], disabled)
        || exists h: nat :: InBlock(lines, h, k) && Matches(Join(Block(lines, h), NL), disabled))
  }

  ghost function Going(lines: seq<string>, disabled: set<string>): nat -> bool {
    (k: nat) => Goes(lines, disabled, k)
  }

  /** The lines from `i` on that do not go. */
  function Remaining(lines: seq<string>, goes: nat -> bool, i: nat): seq<string>
    requires i <= |lines|
    decreases |lines| - i
  {
    if i == |lines| then []
    else (if goes(i) then [] else [lines[i]]) + Remaining(lines, goes, i + 1)
  }

  function NonEmpty(tools: seq<string>): set<string> { set t | t in tools && t != "" }

  ghost function Stripped(prompt: string, tools: seq<string>): string {
    var lines := Split(prompt, NL);
    Join(Remaining(lines, Going(lines, NonEmpty(tools)), 0), NL)
  }

  /** No bullet item reaches over `i` from above. */
  ghost predicate Boundary(lines: seq<string>, i: nat) {
    forall h: nat :: h < i ==> !InBlock(lines, h, i)
  }

  function ChunkEnd(lines: seq<string>, i: nat): (e: nat)
    requires i < |lines|
    ensures i < e <= |lines|
  {
    if IsBullet(lines[i]) then BlockEnd(lines, i + 1, Indent(lines[i])) else i + 1
  }

  lemma {:induction false} OnlyOwnBlock(lines: seq<string>, i: nat, h: nat, k: nat)
    requires i < |lines| && Boundary(lines, i) && i <= k < ChunkEnd(lines, i) && InBlock(lines, h, k)
    ensures h == i
  {
    if h < i {
      assert InBlock(lines, h, i);
    }
  }

  lemma {:induction false} ChunkEndsAtBoundary(lines: seq<string>, i: nat)
    requires i < |lines| && Boundary(lines, i)
    ensures Boundary(lines, ChunkEnd(lines, i))
  {
    var e := ChunkEnd(lines, i);
    forall h: nat | h < e
      ensures !InBlock(lines, h, e)
    {
      if InBlock(lines, h, e) {
        if h < i {
          assert InBlock(lines, h, i);
        }
      }
    }
  }

  lemma {:induction false} LineMatchesChunk(lines: seq<string>, disabled: set<string>, i: nat, k: nat, e: nat)
    requires i <= k < e <= |lines| && Matches(lines[k], disabled)
    ensures Matches(Join(lines[i..e], NL), disabled)
  {
    var chunk := lines[i..e];
    var a, z := JoinHolds(chunk, k - i, k - i + 1);
    Sequences.OneElement(chunk, k - i);
    MatchesWithin(a, lines[k], z, disabled);
  }

  /** A chunk goes as a whole. */
  lemma {:induction false} ChunkGoes(lines: seq<string>, disabled: set<string>, i: nat, k: nat)
    requires i < |lines| && Boundary(lines, i) && i <= k < ChunkEnd(lines, i)
    ensures Goes(lines, disabled, k) <==> Matches(Join(lines[i..ChunkEnd(lines, i)], NL), disabled)
  {
    var e := ChunkEnd(lines, i);
    if Matches(lines[k], disabled) {
      LineMatchesChunk(lines, disabled, i, k, e);
    } else if Goes(lines, disabled, k) {
      var h: nat :| InBlock(lines, h, k) && Matches(Join(Block(lines, h), NL), disabled);
      OnlyOwnBlock(lines, i, h, k);
    } else if IsBullet(lines[i]) {
      assert InBlock(lines, i, k) && Block(lines, i) == lines[i..e];
    } else {
      assert lines[i..e] == [lines[k]];
    }
  }

  lemma {:induction false} RemainingStretch(lines: seq<string>, goes: nat -> bool, i: nat, e: nat, gone: bool)
    requires i <= e <= |lines| && forall k: nat :: i <= k < e ==> goes(k) == gone
    ensures Remaining(lines, goes, i) == (if gone then [] else lines[i..e]) + Remaining(lines, goes, e)
    decreases e - i
  {
    if i < e {
      RemainingStretch(lines, goes, i + 1, e, gone);
      Sequences.SliceFirst(lines, i, e);
      Sequences.Regroup([lines[i]], lines[i + 1..e], Remaining(lines, goes, e));
    }
  }

  lemma {:induction false} ChunkRemains(lines: seq<string>, disabled: set<string>, goes: nat -> bool, i: nat)
    requires goes == Going(lines, disabled) && i < |lines| && Boundary(lines, i)
    ensures var e := ChunkEnd(lines, i);
      Remaining(lines, goes, i)
      == (if Matches(Join(lines[i..e], NL), disabled) then [] else lines[i..e]) + Remaining(lines, goes, e)
  {
    var e := ChunkEnd(lines, i);
    var gone := Matches(Join(lines[i..e], NL), disabled);
    forall k: nat | i <= k < e
      ensures goes(k) == gone
    {
      ChunkGoes(lines, disabled, i, k);
    }
    RemainingStretch(lines, goes, i, e, gone);
  }

  /** One round of the outer loop. */
  lemma {:induction false} ChunkStep(lines: seq<string>, disabled: set<string>, goes: nat -> bool, i: nat,
                                     out: seq<string>)
    requires goes == Going(lines, disabled) && i < |lines| && Boundary(lines, i)
    ensures var e := ChunkEnd(lines, i);
      && Boundary(lines, e)
      && out + Remaining(lines, goes, i)
         == (if Matches(Join(lines[i..e], NL), disabled) then out else out + lines[i..e]) + Remaining(lines, goes, e)
  {
    ChunkEndsAtBoundary(lines, i);
    ChunkRemains(lines, disabled, goes, i);
  }

  lemma {:induction false} NothingGoes(prompt: string, tools: seq<string>)
    requires !Matches(prompt, NonEmpty(tools))
    ensures Stripped(prompt, tools) == prompt
  {
    var lines, disabled := Split(prompt, NL), NonEmpty(tools);
    var goes := Going(lines, disabled);
    LinesOf(prompt);
    forall k: nat | k < |lines|
      ensures !goes(k)
    {
      if Goes(lines, disabled, k) {
        var h, e := GoingStretch(lines, disabled, k);
        var a, z := JoinHolds(lines, h, e);
        MatchesWithin(a, Join(lines[h..e], NL), z, disabled);
        assert false;
      }
    }
    RemainingStretch(lines, goes, 0, |lines|, false);
    assert lines[0..|lines|] + [] == lines;
  }

  lemma {:induction false} GoingStretch(lines: seq<string>, disabled: set<string>, k: nat) returns (h: nat, e: nat)
    requires k < |lines| && Goes(lines, disabled, k)
    ensures h < e <= |lines| && Matches(Join(lines[h..e], NL), disabled)
  {
    if Matches(lines[k], disabled) {
      h, e := k, k + 1;
      assert lines[h..e] == [lines[k]];
    } else {
      h :| InBlock(lines, h, k) && Matches(Join(Block(lines, h), NL), disabled);
      e := BlockEnd(lines, h + 1, Indent(lines[h]));
    }
  }

  /** The inner loop: a bullet line with its continuation lines. */
  method GatherBlock(lines: seq<string>, i: nat) returns (block: seq<string>, j: nat)
    requires i < |lines| && IsBullet(lines[i])
    ensures j == ChunkEnd(lines, i) && block == lines[i..j]
  {
    var indent := Indent(lines[i]);
    block := [lines[i]];
    j := i + 1;
    while j < |lines| && Continues(lines[j], indent)
      invariant i < j <= |lines|
      invariant block == lines[i..j]
      invariant BlockEnd(lines, j, indent) == BlockEnd(lines, i + 1, indent)
    {
      Sequences.SliceLast(lines, i, j);
      block := block + [lines[j]];
      j := j + 1;
    }
  }

  /** `strip_disabled_tool_directives`: exactly the lines that go are taken out. */
  method StripDisabledToolDirectives(prompt: string, tools: seq<string>) returns (result: string)
    ensures result == Stripped(prompt, tools)
  {
    var disabled := NonEmpty(tools);
    if disabled == {} {
      NothingGoes(prompt, tools);
      return prompt;
    }
    var lines := Split(prompt, NL);
    ghost var goes := Going(lines, disabled);
    var out: seq<string> := [];
    var i := 0;
    while i < |lines|
      invariant 0 <= i <= |lines| && Boundary(lines, i)
      invariant out + Remaining(lines, goes, i) == Remaining(lines, goes, 0)
    {
      ChunkStep(lines, disabled, goes, i, out);
      if IsBullet(lines[i]) {
        var block, j := GatherBlock(lines, i);
        if !Matches(Join(block, NL), disabled) {
          out := out + block;
        }
        i := j;
      } else {
        assert lines[i..i + 1] == [lines[i]];
        if !Matches(lines[i], disabled) {
          out := out + [lines[i]];
        }
        i := i + 1;
      }
    }
    assert out + [] == out;
    result := Join(out, NL);
  }

  // ---- What the stripped prompt looks like ----

  /** `lines[at[0]], lines[at[1]], ...` with increasing indices. */
  ghost predicate Picks(lines: seq<string>, at: seq<nat>, picked: seq<string>) {
    && |at| == |picked|
    && (forall n :: 0 <= n < |at| ==> at[n] < |lines| && picked[n] == lines[at[n]])
    && (forall m, n :: 0 <= m < n < |at| ==> at[m] < at[n])
  }

  lemma {:induction false} PickOneMore(lines: seq<string>, i: nat, at: seq<nat>, picked: seq<string>)
    requires i < |lines| && Picks(lines, at, picked) && forall k :: k in at ==> i < k
    ensures Picks(lines, [i] + at, [lines[i]] + picked)
  {
    assert forall n :: 0 <= n < |at| ==> at[n] in at;
  }

  /** The survivors are the lines that do not go, each once and in order. */
  lemma {:induction false} SurvivorsInOrder(lines: seq<string>, goes: nat -> bool, i: nat) returns (at: seq<nat>)
    requires i <= |lines|
    ensures Picks(lines, at, Remaining(lines, goes, i))
    ensures forall k: nat :: k in at <==> i <= k < |lines| && !goes(k)
    decreases |lines| - i
  {
    if i == |lines| {
      at := [];
    } else {
      at := SurvivorsInOrder(lines, goes, i + 1);
      if !goes(i) {
        PickOneMore(lines, i, at, Remaining(lines, goes, i + 1));
        at := [i] + at;
      }
    }
  }

  lemma {:induction false} SurvivorsAreClean(lines: seq<string>, disabled: set<string>, left: seq<string>)
    requires forall i :: 0 <= i < |lines| ==> OneLine(lines[i])
    requires left == Remaining(lines, Going(lines, disabled), 0)
    ensures forall n :: 0 <= n < |left| ==> OneLine(left[n]) && !Matches(left[n], disabled)
  {
    var goes := Going(lines, disabled);
    var at := SurvivorsInOrder(lines, goes, 0);
    forall n | 0 <= n < |left|
      ensures OneLine(left[n]) && !Matches(left[n], disabled)
    {
      assert at[n] in at;
      assert !Goes(lines, disabled, at[n]);
    }
  }

  /** No line of the stripped prompt holds a directive for a disabled tool. */
  lemma {:induction false} NoLineMatches(prompt: string, tools: seq<string>, k: nat)
    requires k < |Split(Stripped(prompt, tools), NL)|
    ensures !Matches(Split(Stripped(prompt, tools), NL)[k], NonEmpty(tools))
  {
    var lines := Split(prompt, NL);
    LinesOf(prompt);
    var left := Remaining(lines, Going(lines, NonEmpty(tools)), 0);
    SurvivorsAreClean(lines, NonEmpty(tools), left);
    if left != [] {
      SplitOfLines(left);
    }
  }

  // ---- The guard ----

  predicate IsIdentifier(s: string) {
    && s != ""
    && !('0' <= s[0] <= '9')
    && forall i :: 0 <= i < |s| ==> 'a' <= s[i] <= 'z' || 'A' <= s[i] <= 'Z' || '0' <= s[i] <= '9' || s[i] == '_'
  }

  /** `unregistered_call_directives` reports the tool. */
  predicate Reported(prompt: string, resolved: set<string>, known: Option<set<string>>, tool: string) {
    IsIdentifier(tool) && HasDirective(prompt, tool) && (known.Some? ==> tool in known.value) && tool !in resolved
  }

  lemma {:induction false} NewlineBetween(text: string, n: nat, i: nat, j: nat)
    requires i <= j < |text| && n <= j && text[n] == '\n'
    ensures i <= n ==> !OneLine(text[i..j + 1])
  {
    if i <= n {
      assert text[i..j + 1][n - i] == '\n';
    }
  }

  /** A stretch without a line feed lies in one line. */
  lemma {:induction false} StretchInLine(lines: seq<string>, i: nat, j: nat) returns (k: nat, start: nat)
    requires lines != [] && i <= j < |Join(lines, NL)| && OneLine(Join(lines, NL)[i..j + 1])
    ensures k < |lines| && start <= i && j - start < |lines[k]| && start + |lines[k]| <= |Join(lines, NL)|
    ensures Join(lines, NL)[start..start + |lines[k]|] == lines[k]
    decreases |lines|
  {
    var text := Join(lines, NL);
    var n := |lines[0]|;
    k, start := 0, 0;
    if |lines| > 1 && j >= n {
      NewlineBetween(text, n, i, j);
      var rest := Join(lines[1..], NL);
      assert text[n + 1..] == rest;
      assert rest[i - n - 1..j - n] == text[i..j + 1];
      var l, from := StretchInLine(lines[1..], i - n - 1, j - n - 1);
      k, start := l + 1, from + n + 1;
      assert text[start..start + |lines[k]|] == rest[from..from + |lines[k]|];
    }
  }

  lemma {:induction false} SliceOfSlice(s: string, start: nat, end: nat, i: nat, j: nat)
    requires start <= i <= j <= end <= |s|
    ensures s[start..end][i - start..j - start] == s[i..j]
  {
    var t := s[start..end];
    assert forall k :: 0 <= k < j - i ==> t[i - start..j - start][k] == t[i - start + k] == s[i + k] == s[i..j][k];
  }

  lemma {:induction false} DirectiveInStretch(text: string, tool: string, start: nat, end: nat, i: nat, j: nat)
    requires start <= i && j < end <= |text| && DirectiveAt(text, tool, i, j)
    ensures DirectiveAt(text[start..end], tool, i - start, j - start)
  {
    var part := text[start..end];
    var n := i + 1 + |tool|;
    SliceOfSlice(text, start, end, i, n);
    SliceOfSlice(text, start, end, n, j);
  }

  /** Any directive left for a disabled tool runs over a line break. */
  lemma {:induction false} OnlyBrokenDirectivesStay(prompt: string, tools: seq<string>, tool: string, i: nat, j: nat)
    requires tool in tools && tool != "" && DirectiveAt(Stripped(prompt, tools), tool, i, j)
    ensures '\n' in Stripped(prompt, tools)[i..j]
  {
    var text := Stripped(prompt, tools);
    if OneLine(text[i..j]) {
      var lines := Split(text, NL);
      LinesOf(text);
      assert text[i..j + 1] == text[i..j] + ['('];
      var k, start := StretchInLine(lines, i, j);
      DirectiveInStretch(text, tool, start, start + |lines[k]|, i, j);
      assert HasDirective(lines[k], tool);
      assert Matches(lines[k], NonEmpty(tools));
      NoLineMatches(prompt, tools, k);
    }
  }

  ghost predicate BrokenDirective(text: string, tool: string) {
    exists i: nat, j: nat :: DirectiveAt(text, tool, i, j) && '\n' in text[i..j]
  }

  /** After stripping, the guard reports a disabled tool exactly when a directive for it over a line break
      is left. */
  lemma {:induction false} GuardAfterStripping(prompt: string, tools: seq<string>, resolved: set<string>, tool: string)
    requires tool in tools && IsIdentifier(tool) && tool !in resolved
    ensures Reported(Stripped(prompt, tools), resolved, None, tool) <==> BrokenDirective(Stripped(prompt, tools), tool)
  {
    var text := Stripped(prompt, tools);
    if HasDirective(text, tool) {
      var i, j :| 0 <= i < |text| && 0 <= j < |text| && DirectiveAt(text, tool, i, j);
      OnlyBrokenDirectivesStay(prompt, tools, tool, i, j);
    }
  }

  // ---- Which lines make one ----

  /** The line ends in a backquote, the name and white space. */
  predicate Opens(line: string, tool: string) {
    exists i :: 0 <= i < |line| && OpensAt(line, tool, i)
  }

  predicate OpensAt(line: string, tool: string, i: nat) {
    At(line, TICK + tool, i) && Blank(line[i + 1 + |tool|..])
  }

  /** The text starts with white space and an opening parenthesis. */
  predicate Closes(text: string) { exists j :: 0 <= j < |text| && ClosesAt(text, j) }

  predicate ClosesAt(text: string, j: nat)
    requires j < |text|
  {
    text[j] == '(' && Blank(text[..j])
  }

  /** `line` on top of `rest`. */
  function Above(line: string, rest: string): string { line + NL + rest }

  lemma {:induction false} ClosesAbove(line: string, rest: string)
    ensures Closes(Above(line, rest)) <==> Closes(line) || (Blank(line) && Closes(rest))
  {
    var text, n := Above(line, rest), |line| + 1;
    if j :| 0 <= j < |text| && ClosesAt(text, j) {
      if j < n {
        assert j < |line|;
        assert text[..j] == line[..j] && ClosesAt(line, j);
      } else {
        BlankParts(text, 0, j, |line|);
        assert text[0..j] == text[..j] && text[0..|line|] == line && text[n..j] == rest[..j - n];
        assert ClosesAt(rest, j - n);
      }
    }
    if j :| 0 <= j < |line| && ClosesAt(line, j) {
      assert text[..j] == line[..j];
      assert ClosesAt(text, j);
    }
    if Blank(line) && Closes(rest) {
      var j :| 0 <= j < |rest| && ClosesAt(rest, j);
      assert text[..n + j] == line + NL + rest[..j];
      assert ClosesAt(text, n + j);
    }
  }

  /** A directive over a line break starts in the first line or lies below it. */
  lemma {:induction false} BrokenAbove(line: string, rest: string, tool: string)
    requires OneLine(line) && OneLine(tool)
    ensures BrokenDirective(Above(line, rest), tool)
      <==> (Opens(line, tool) && Closes(rest)) || BrokenDirective(rest, tool)
  {
    var text := Above(line, rest);
    if i: nat, j: nat :| DirectiveAt(text, tool, i, j) && '\n' in text[i..j] {
      if i <= |line| {
        BrokenFromTop(line, rest, tool, i, j);
      } else {
        BrokenBelow(line, rest, tool, i, j);
      }
    }
    if Opens(line, tool) && Closes(rest) {
      TopBreaks(line, rest, tool);
    }
    if i: nat, j: nat :| DirectiveAt(rest, tool, i, j) && '\n' in rest[i..j] {
      BelowBreaks(line, rest, tool, i, j);
    }
  }

  lemma {:induction false} BelowBreaks(line: string, rest: string, tool: string, i: nat, j: nat)
    requires DirectiveAt(rest, tool, i, j) && '\n' in rest[i..j]
    ensures BrokenDirective(Above(line, rest), tool)
  {
    BrokenShift(line + NL, rest, tool, i, j);
  }

  lemma {:induction false} BrokenShift(a: string, text: string, tool: string, i: nat, j: nat)
    requires DirectiveAt(text, tool, i, j) && '\n' in text[i..j]
    ensures BrokenDirective(a + text, tool)
  {
    DirectiveBelow(a, text, tool, i, j);
    SliceShift(a, text, i, j);
    BrokenIs(a + text, tool, |a| + i, |a| + j);
  }

  lemma {:induction false} DirectiveBelow(a: string, text: string, tool: string, i: nat, j: nat)
    requires DirectiveAt(text, tool, i, j)
    ensures DirectiveAt(a + text, tool, |a| + i, |a| + j)
  {
    DirectiveShift(a, text, [], tool, i, j);
    assert a + text + [] == a + text;
  }

  lemma {:induction false} BrokenIs(text: string, tool: string, i: nat, j: nat)
    requires DirectiveAt(text, tool, i, j) && '\n' in text[i..j]
    ensures BrokenDirective(text, tool)
  {
  }

  lemma {:induction false} SliceShift(a: string, text: string, i: nat, j: nat)
    requires i <= j <= |text|
    ensures (a + text)[|a| + i..|a| + j] == text[i..j]
  {
  }

  lemma {:induction false} BrokenBelow(line: string, rest: string, tool: string, i: nat, j: nat)
    requires DirectiveAt(Above(line, rest), tool, i, j) && '\n' in Above(line, rest)[i..j] && i > |line|
    ensures BrokenDirective(rest, tool)
  {
    var text, n := Above(line, rest), |line| + 1;
    DirectiveInStretch(text, tool, n, |text|, i, j);
    assert text[n..|text|] == rest;
    assert rest[i - n..j - n] == text[i..j];
  }

  /** A backquote and a name in the first line do not reach into the rest. */
  lemma {:induction false} NameFits(line: string, rest: string, tool: string, i: nat)
    requires OneLine(tool) && i <= |line| && At(Above(line, rest), TICK + tool, i)
    ensures i + 1 + |tool| <= |line| && At(line, TICK + tool, i)
  {
    var text, e := Above(line, rest), i + 1 + |tool|;
    if e > |line| {
      NameChar(text, TICK + tool, i, |line| - i);
    } else {
      assert line[i..e] == text[i..e];
    }
  }

  lemma {:induction false} NameChar(text: string, name: string, i: nat, m: nat)
    requires At(text, name, i) && m < |name|
    ensures i + m < |text| && text[i + m] == name[m]
  {
    assert text[i..i + |name|][m] == text[i + m];
  }

  lemma {:induction false} NewlineIsBelow(line: string, rest: string, p: nat)
    requires OneLine(line) && p < |Above(line, rest)| && Above(line, rest)[p] == '\n'
    ensures p >= |line|
  {
  }

  lemma {:induction false} BreakBelow(line: string, rest: string, i: nat, j: nat)
    requires OneLine(line) && i <= |line| && j <= |Above(line, rest)| && i <= j && '\n' in Above(line, rest)[i..j]
    ensures j > |line|
  {
    var text := Above(line, rest);
    var k :| 0 <= k < j - i && text[i..j][k] == '\n';
    assert text[i + k] == text[i..j][k];
    NewlineIsBelow(line, rest, i + k);
  }

  lemma {:induction false} BrokenFromTop(line: string, rest: string, tool: string, i: nat, j: nat)
    requires OneLine(line) && OneLine(tool) && i <= |line|
    requires DirectiveAt(Above(line, rest), tool, i, j) && '\n' in Above(line, rest)[i..j]
    ensures Opens(line, tool) && Closes(rest)
  {
    var text, n, e := Above(line, rest), |line| + 1, i + 1 + |tool|;
    NameFits(line, rest, tool, i);
    BreakBelow(line, rest, i, j);
    assert text[n - 1] == '\n';
    BlankParts(text, e, j, |line|);
    assert text[e..|line|] == line[e..] && text[n..j] == rest[..j - n];
    assert OpensAt(line, tool, i) && ClosesAt(rest, j - n);
  }

  lemma {:induction false} BlankParts(text: string, e: nat, j: nat, m: nat)
    requires e <= m <= j <= |text| && Blank(text[e..j])
    ensures Blank(text[e..m]) && (m < j ==> Blank(text[m + 1..j]))
  {
    assert forall k :: e <= k < j ==> text[k] == text[e..j][k - e];
  }

  lemma {:induction false} TopBreaks(line: string, rest: string, tool: string)
    requires Opens(line, tool) && Closes(rest)
    ensures BrokenDirective(Above(line, rest), tool)
  {
    var i :| 0 <= i < |line| && OpensAt(line, tool, i);
    var j :| 0 <= j < |rest| && ClosesAt(rest, j);
    var text, n, e := Above(line, rest), |line| + 1, i + 1 + |tool|;
    AcrossBreak(line, rest, i, e, j);
    BlankAcross(line[e..], rest[..j]);
    BrokenIs(text, tool, i, n + j);
  }

  lemma {:induction false} BlankAcross(a: string, b: string)
    requires Blank(a) && Blank(b)
    ensures Blank(a + NL + b)
  {
  }

  /** Slices that end in the first line, or run over its end. */
  lemma {:induction false} AcrossBreak(line: string, rest: string, i: nat, e: nat, j: nat)
    requires i <= e <= |line| && j <= |rest|
    ensures var text := Above(line, rest);
      && text[i..e] == line[i..e]
      && text[e..|line| + 1 + j] == line[e..] + NL + rest[..j]
      && '\n' in text[i..|line| + 1 + j]
  {
    var text := Above(line, rest);
    assert text[i..|line| + 1 + j][|line| - i] == '\n';
  }

  /** From line `p`, which opens a directive, to line `q`, which closes it, there are only blank lines. */
  predicate Meet(lines: seq<string>, tool: string, p: nat, q: nat) {
    && p < q < |lines| && Opens(lines[p], tool) && Closes(lines[q])
    && forall k :: p < k < q ==> Blank(lines[k])
  }

  ghost predicate SomeMeet(lines: seq<string>, tool: string) { exists p: nat, q: nat :: Meet(lines, tool, p, q) }

  ghost predicate ClosedFrom(lines: seq<string>, q: nat) {
    q < |lines| && Closes(lines[q]) && forall k :: 0 <= k < q ==> Blank(lines[k])
  }

  lemma {:induction false} ClosesJoined(lines: seq<string>)
    requires lines != []
    ensures Closes(Join(lines, NL)) <==> exists q: nat :: ClosedFrom(lines, q)
    decreases |lines|
  {
    if |lines| == 1 {
      assert Closes(lines[0]) ==> ClosedFrom(lines, 0);
    } else {
      var rest := lines[1..];
      ClosesJoined(rest);
      ClosesAbove(lines[0], Join(rest, NL));
      ClosedFromTail(lines);
    }
  }

  lemma {:induction false} ClosedFromTail(lines: seq<string>)
    requires |lines| > 1
    ensures (exists q: nat :: ClosedFrom(lines, q))
       <==> Closes(lines[0]) || (Blank(lines[0]) && exists q: nat :: ClosedFrom(lines[1..], q))
  {
    var rest := lines[1..];
    if q: nat :| ClosedFrom(lines, q) {
      if q > 0 {
        assert forall k :: 0 <= k < q - 1 ==> rest[k] == lines[k + 1];
        assert ClosedFrom(rest, q - 1);
      }
    }
    if Closes(lines[0]) {
      assert ClosedFrom(lines, 0);
    }
    if q: nat :| Blank(lines[0]) && ClosedFrom(rest, q) {
      assert forall k :: 0 < k < q + 1 ==> lines[k] == rest[k - 1];
      assert ClosedFrom(lines, q + 1);
    }
  }

  lemma {:induction false} MeetTail(lines: seq<string>, tool: string)
    requires |lines| > 1
    ensures SomeMeet(lines, tool)
       <==> (Opens(lines[0], tool) && exists q: nat :: ClosedFrom(lines[1..], q)) || SomeMeet(lines[1..], tool)
  {
    var rest := lines[1..];
    if p: nat, q: nat :| Meet(lines, tool, p, q) {
      assert forall k :: 0 <= k < q - 1 ==> rest[k] == lines[k + 1];
      if p == 0 {
        assert ClosedFrom(rest, q - 1);
      } else {
        assert Meet(rest, tool, p - 1, q - 1);
      }
    }
    if q: nat :| Opens(lines[0], tool) && ClosedFrom(rest, q) {
      assert forall k :: 0 < k < q + 1 ==> lines[k] == rest[k - 1];
      assert Meet(lines, tool, 0, q + 1);
    }
    if p: nat, q: nat :| Meet(rest, tool, p, q) {
      assert forall k :: p + 1 < k < q + 1 ==> lines[k] == rest[k - 1];
      assert Meet(lines, tool, p + 1, q + 1);
    }
  }

  /** The joined lines hold a directive over a line break exactly when two of them meet. */
  lemma {:induction false} BrokenExactly(lines: seq<string>, tool: string)
    requires OneLine(tool) && forall i :: 0 <= i < |lines| ==> OneLine(lines[i])
    ensures BrokenDirective(Join(lines, NL), tool) <==> SomeMeet(lines, tool)
    decreases |lines|
  {
    if |lines| > 1 {
      var rest := lines[1..];
      BrokenExactly(rest, tool);
      BrokenAbove(lines[0], Join(rest, NL), tool);
      ClosesJoined(rest);
      MeetTail(lines, tool);
    }
  }

  /** Lines `p` and `q` of the prompt stay, and the lines between them go or are blank; `p` opens a directive,
      and `q` closes it. */
  ghost predicate Leaves(lines: seq<string>, goes: nat -> bool, tool: string, p: nat, q: nat) {
    && p < q < |lines| && !goes(p) && !goes(q)
    && Opens(lines[p], tool) && Closes(lines[q])
    && forall k: nat :: p < k < q ==> goes(k) || Blank(lines[k])
  }

  ghost predicate SomeLeave(lines: seq<string>, goes: nat -> bool, tool: string) {
    exists p: nat, q: nat :: Leaves(lines, goes, tool, p, q)
  }

  lemma {:induction false} SurvivorsMeet(lines: seq<string>, goes: nat -> bool, tool: string)
    ensures SomeMeet(Remaining(lines, goes, 0), tool) <==> SomeLeave(lines, goes, tool)
  {
    var left := Remaining(lines, goes, 0);
    var at := SurvivorsInOrder(lines, goes, 0);
    if m: nat, n: nat :| Meet(left, tool, m, n) {
      MeetOutside(lines, goes, tool, left, at, m, n);
    }
    if p: nat, q: nat :| Leaves(lines, goes, tool, p, q) {
      MeetInside(lines, goes, tool, left, at, p, q);
    }
  }

  lemma {:induction false} MeetOutside(lines: seq<string>, goes: nat -> bool, tool: string, left: seq<string>,
                                       at: seq<nat>, m: nat, n: nat)
    requires Picks(lines, at, left) && forall k: nat :: k in at <==> k < |lines| && !goes(k)
    requires Meet(left, tool, m, n)
    ensures Leaves(lines, goes, tool, at[m], at[n])
  {
    assert at[m] in at && at[n] in at;
    forall k: nat | at[m] < k < at[n] && !goes(k)
      ensures Blank(lines[k])
    {
      assert k in at;
      var l :| 0 <= l < |at| && at[l] == k;
      assert m < l < n;
      assert left[l] == lines[k];
    }
  }

  lemma {:induction false} MeetInside(lines: seq<string>, goes: nat -> bool, tool: string, left: seq<string>,
                                      at: seq<nat>, p: nat, q: nat)
    requires Picks(lines, at, left) && forall k: nat :: k in at <==> k < |lines| && !goes(k)
    requires Leaves(lines, goes, tool, p, q)
    ensures SomeMeet(left, tool)
  {
    assert p in at && q in at;
    var m :| 0 <= m < |at| && at[m] == p;
    var n :| 0 <= n < |at| && at[n] == q;
    forall l | m < l < n
      ensures Blank(left[l])
    {
      assert at[l] in at;
    }
    assert Meet(left, tool, m, n);
  }

  lemma {:induction false} IdentifierIsOneLine(tool: string)
    requires IsIdentifier(tool)
    ensures OneLine(tool)
  {
  }

  /** After stripping, the guard reports a disabled tool exactly when two lines of the prompt that stay make a
      directive for it, the lines between them being blank or taken out. */
  lemma {:induction false} GuardReportsExactly(prompt: string, tools: seq<string>, resolved: set<string>,
                                               known: Option<set<string>>, tool: string)
    requires tool in tools && IsIdentifier(tool) && tool !in resolved && (known.Some? ==> tool in known.value)
    ensures var lines := Split(prompt, NL);
      Reported(Stripped(prompt, tools), resolved, known, tool)
      <==> SomeLeave(lines, Going(lines, NonEmpty(tools)), tool)
  {
    var lines := Split(prompt, NL);
    var goes := Going(lines, NonEmpty(tools));
    LinesOf(prompt);
    GuardAfterStripping(prompt, tools, resolved, tool);
    IdentifierIsOneLine(tool);
    var left := Remaining(lines, goes, 0);
    SurvivorsAreClean(lines, NonEmpty(tools), left);
    BrokenExactly(left, tool);
    SurvivorsMeet(lines, goes, tool);
  }

  /** So nothing is reported when no line of the prompt ends in an unfinished directive. */
  lemma {:induction false} NoReportWithoutOpenLines(prompt: string, tools: seq<string>, resolved: set<string>,
                                                    known: Option<set<string>>, tool: string)
    requires tool in tools && IsIdentifier(tool)
    requires forall k :: 0 <= k < |Split(prompt, NL)| ==> !Opens(Split(prompt, NL)[k], tool)
    ensures !Reported(Stripped(prompt, tools), resolved, known, tool)
  {
    if Reported(Stripped(prompt, tools), resolved, known, tool) {
      GuardReportsExactly(prompt, tools, resolved, known, tool);
    }
  }

  /** A prompt without directives for the disabled tools comes back as it is; so stripping twice changes
      nothing more once the guard is quiet. */
  lemma {:induction false} CleanPromptIsKept(prompt: string, tools: seq<string>)
    requires forall t :: t in tools && t != "" ==> !HasDirective(prompt, t)
    ensures Stripped(prompt, tools) == prompt
  {
    NothingGoes(prompt, tools);
  }

  /** A line, one that goes, and one that then follows the first. */
  const THREE_LINES := ["`t", "`t(x)", "(y"]

  const TWO_LINES := ["`t", "(y"]

  /** Taking a line out can itself bring such a directive about. */
  lemma {:induction false} StrippingCanMakeADirective()
    ensures Stripped(Join(THREE_LINES, NL), ["t"]) == Join(TWO_LINES, NL)
    ensures Reported(Join(TWO_LINES, NL), {}, None, "t") && BrokenDirective(Join(TWO_LINES, NL), "t")
  {
    StripOfLines(THREE_LINES, ["t"]);
    MiddleLineGoes();
    OnlyMiddleGone(THREE_LINES, Going(THREE_LINES, NonEmpty(["t"])));
    BrokenOverLine();
  }

  lemma {:induction false} StripOfLines(lines: seq<string>, tools: seq<string>)
    requires lines != [] && forall i :: 0 <= i < |lines| ==> OneLine(lines[i])
    ensures Stripped(Join(lines, NL), tools) == Join(Remaining(lines, Going(lines, NonEmpty(tools)), 0), NL)
  {
    SplitOfLines(lines);
  }

  lemma {:induction false} BrokenOverLine()
    ensures Reported(Join(TWO_LINES, NL), {}, None, "t") && BrokenDirective(Join(TWO_LINES, NL), "t")
  {
    var text := "`t\n(y";
    assert TWO_LINES[1..] == ["(y"];
    assert Join(TWO_LINES, NL) == text;
    assert DirectiveAt(text, "t", 0, 3) && text[0..3][2] == '\n';
  }

  lemma {:induction false} OnlyMiddleGone(lines: seq<string>, goes: nat -> bool)
    requires |lines| == 3 && !goes(0) && goes(1) && !goes(2)
    ensures Remaining(lines, goes, 0) == [lines[0], lines[2]]
  {
    assert Remaining(lines, goes, 2) == [lines[2]] + Remaining(lines, goes, 3);
  }

  lemma {:induction false} NoBulletHere(h: nat)
    requires h < 3
    ensures !IsBullet(THREE_LINES[h])
  {
    assert TrimLeft(THREE_LINES[h]) == THREE_LINES[h];
  }

  lemma {:induction false} MiddleLineGoes()
    ensures var disabled := NonEmpty(["t"]);
      !Goes(THREE_LINES, disabled, 0) && Goes(THREE_LINES, disabled, 1) && !Goes(THREE_LINES, disabled, 2)
  {
    forall h: nat | h < 3
      ensures !IsBullet(THREE_LINES[h])
    {
      NoBulletHere(h);
    }
    assert DirectiveAt(THREE_LINES[1], "t", 0, 2);
    assert HasDirective(THREE_LINES[1], "t");
  }
}
