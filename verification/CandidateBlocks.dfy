/**
  One block of the candidates file: recognising its fields line by line, and replacing or inserting
  its Status line.
*/
module CandidateBlocks {
  import opened Options
  import opened Text
  import opened Lines
  import Sequences

  datatype Candidate = Candidate(
    section: string, rule: string, rationale: string, proposedAt: string, source: string,
    status: string, filed: Option<string>)

  predicate StartsBlank(s: string) { s != "" && IsSpace(s[0]) }

  /** `### Proposed addition to <section>`. */
  function SectionOf(line: string): Option<string> {
    if !("###" <= line) || !StartsBlank(line[3..]) || !("Proposed addition to" <= TrimLeft(line[3..])) then None
    else
      var rest := TrimLeft(line[3..])[20..];
      if StartsBlank(rest) && Strip(rest) != "" then Some(Strip(rest)) else None
  }

  predicate IsHeading(line: string) { SectionOf(line).Some? }

  /** `> **Rule:** <text>`. */
  function RuleStart(line: string): Option<string> {
    if ">" <= line && "**Rule:**" <= TrimLeft(line[1..]) then Some(TrimLeft(line[1..])[9..]) else None
  }

  predicate IsRule(line: string) { RuleStart(line).Some? }

  /** What stands before and after the first occurrence. */
  function Cut(s: string, pat: string): Option<(string, string)> {
    match Find(s, pat)
    case None => None
    case Some(i) => Some((s[..i], s[i + |pat|..]))
  }

  const PROPOSED := "**Proposed:**"
  const RATIONALE := "**Rationale:**"
  const FROM := "(from"
  const CLOSE := ")"

  predicate IsRationale(line: string) {
    var cut := Cut(line, RATIONALE);
    cut.Some? && !Blank(cut.value.1)
  }

  /** `**Proposed:** <when> (from <ticket>)`. */
  function ProposedParts(line: string): Option<(string, string)> {
    match Cut(line, PROPOSED)
    case None => None
    case Some((_, rest)) => FromParts(rest)
  }

  function FromParts(rest: string): Option<(string, string)> {
    match Cut(rest, FROM)
    case None => None
    case Some((when, tail)) =>
      match Cut(tail, CLOSE)
      case None => None
      case Some((source, _)) =>
        if StartsBlank(tail) && Strip(when) != "" && Strip(source) != "" then Some((Strip(when), Strip(source)))
        else None
  }

  predicate IsProposed(line: string) { ProposedParts(line).Some? }

  /** The leading characters that are not white space. */
  function Token(s: string): (t: string)
    ensures t <= s
  {
    if s == "" || IsSpace(s[0]) then "" else [s[0]] + Token(s[1..])
  }

  const ARROW := '\U{2192}'
  const STATUS := "**Status:**"

  /** `**Status:** <word>` with an optional arrow and ticket. */
  function StatusOf(line: string): Option<(string, Option<string>)> {
    if !(STATUS <= line) then None
    else
      var rest := TrimLeft(line[|STATUS|..]);
      var word := Token(rest);
      var after := TrimLeft(rest[|word|..]);
      if word == "" then None
      else if after == "" then Some((word, None))
      else if after[0] == ARROW && Strip(after[1..]) != "" then Some((word, Some(Strip(after[1..]))))
      else None
  }

  predicate IsStatus(line: string) { StatusOf(line).Some? }

  predicate IsEmpty(line: string) { line == "" }

  /** The rule's paragraph runs to the next empty line. */
  function RuleText(lines: seq<string>, i: nat): string
    requires i < |lines| && IsRule(lines[i])
  {
    var end := First(lines[i + 1..], IsEmpty);
    Strip(Join([RuleStart(lines[i]).value] + (if end.Some? then lines[i + 1..][..end.value] else lines[i + 1..]), NL))
  }

  /** The rationale ends before an empty line with such a line below it. */
  predicate ClosesRationale(line: string) { "**Proposed" <= line || "**Status" <= line }

  function UpToClose(lines: seq<string>): seq<string> {
    if lines == [] || (lines[0] == "" && |lines| > 1 && ClosesRationale(lines[1])) then []
    else [lines[0]] + UpToClose(lines[1..])
  }

  /** The text of the first line with a rationale and of the lines below it. */
  function RationaleIn(lines: seq<string>): string
    requires First(lines, IsRationale).Some?
  {
    var r := First(lines, IsRationale).value;
    Strip(Join([Cut(lines[r], RATIONALE).value.1] + UpToClose(lines[r + 1..]), NL))
  }

  function LowerChar(c: char): char {
    if 'A' <= c <= 'Z' then c - 'A' + 'a' else c
  }

  function Lower(s: string): string {
    if s == "" then "" else [LowerChar(s[0])] + Lower(s[1..])
  }

  function ParseLines(lines: seq<string>): Option<Candidate> {
    var head, rule, rationale := First(lines, IsHeading), First(lines, IsRule), First(lines, IsRationale);
    var proposed, status := First(lines, IsProposed), First(lines, IsStatus);
    if head.None? || rule.None? || rationale.None? || proposed.None? || RuleText(lines, rule.value) == "" then None
    else
      Some(Assemble(SectionOf(lines[head.value]).value, RuleText(lines, rule.value), RationaleIn(lines),
                    ProposedParts(lines[proposed.value]).value,
                    if status.Some? then StatusOf(lines[status.value]) else None))
  }

  /** A block without a Status line is pending. */
  function Assemble(section: string, rule: string, rationale: string, parts: (string, string),
                    status: Option<(string, Option<string>)>): Candidate {
    Candidate(section, rule, rationale, parts.0, parts.1,
              if status.None? then "pending" else Lower(status.value.0),
              if status.None? then None else status.value.1)
  }

  function DropFront(lines: seq<string>): (r: seq<string>)
    ensures |r| <= |lines| && (r != [] ==> !Blank(r[0]))
  {
    if lines == [] || !Blank(lines[0]) then lines else DropFront(lines[1..])
  }

  function DropBack(lines: seq<string>): (r: seq<string>)
    ensures r <= lines
    ensures r != [] ==> !Blank(r[|r| - 1])
  {
    if lines == [] || !Blank(lines[|lines| - 1]) then lines else DropBack(lines[..|lines| - 1])
  }

  lemma {:induction false} DropFrontIsSuffix(lines: seq<string>)
    ensures DropFront(lines) == lines[|lines| - |DropFront(lines)|..]
  {
    if lines != [] && Blank(lines[0]) {
      DropFrontIsSuffix(lines[1..]);
    }
  }

  /** The first line trimmed on its left and the last on its right. */
  function TrimEnds(kept: seq<string>): (r: seq<string>)
    ensures |r| == |kept|
  {
    if kept == [] then []
    else
      var first := kept[0 := TrimLeft(kept[0])];
      first[|first| - 1 := TrimRight(first[|first| - 1])]
  }

  /** The lines of the stripped text. */
  function StripLines(lines: seq<string>): seq<string> {
    TrimEnds(DropBack(DropFront(lines)))
  }

  function ParseBlock(raw: string): Option<Candidate> {
    var lines := StripLines(Split(raw, NL));
    if lines == [] then None else ParseLines(lines)
  }

  // ---- Surrounding blank lines do not matter ----

  lemma {:induction false} DropFrontStep(lines: seq<string>)
    requires lines != []
    ensures DropFront(lines) == if Blank(lines[0]) then DropFront(lines[1..]) else lines
  {
  }

  lemma {:induction false} DropFrontTerminated(lines: seq<string>)
    ensures DropFront(lines + [""]) == if DropFront(lines) == [] then [] else DropFront(lines) + [""]
  {
    DropFrontStep(lines + [""]);
    if lines == [] {
      assert (lines + [""])[1..] == [];
    } else {
      DropFrontStep(lines);
      DropFrontTerminated(lines[1..]);
      assert (lines + [""])[1..] == lines[1..] + [""];
    }
  }

  lemma {:induction false} StripTerminated(lines: seq<string>)
    ensures StripLines(lines + [""]) == StripLines(lines)
  {
    DropFrontTerminated(lines);
    var kept := DropFront(lines);
    if kept != [] {
      assert (kept + [""])[..|kept|] == kept;
      assert DropBack(kept + [""]) == DropBack(kept);
    }
  }

  /** A line feed added at the end of a block does not change how it parses. */
  lemma {:induction false} ParseTerminated(raw: string)
    ensures ParseBlock(raw + NL) == ParseBlock(raw)
  {
    LinesOfTerminated(raw);
    StripTerminated(Split(raw, NL));
  }

  lemma {:induction false} AtShift(a: string, s: string, pat: string, j: nat)
    ensures At(a + s, pat, |a| + j) <==> At(s, pat, j)
  {
    if j + |pat| <= |s| {
      assert (a + s)[|a| + j..|a| + j + |pat|] == s[j..j + |pat|];
    }
  }

  lemma {:induction false} NotInBlank(a: string, s: string, pat: string, j: nat)
    requires Blank(a) && pat != "" && !IsSpace(pat[0]) && j < |a|
    ensures !At(a + s, pat, j)
  {
    NotAt(a + s, pat, j, 0);
  }

  lemma {:induction false} FindSkip(a: string, s: string, pat: string)
    requires Blank(a) && pat != "" && !IsSpace(pat[0])
    ensures Find(a + s, pat) == match Find(s, pat) case None => None case Some(i) => Some(|a| + i)
  {
    forall j: nat
      ensures At(a + s, pat, j) <==> j >= |a| && At(s, pat, j - |a|)
    {
      if j < |a| {
        NotInBlank(a, s, pat, j);
      } else {
        AtShift(a, s, pat, j - |a|);
      }
    }
    if Find(s, pat).Some? {
      FindIs(a + s, pat, |a| + Find(s, pat).value);
    }
  }

  lemma {:induction false} CutSkip(a: string, s: string, pat: string)
    requires Blank(a) && pat != "" && !IsSpace(pat[0]) && Cut(s, pat).Some?
    ensures Cut(a + s, pat) == Some((a + Cut(s, pat).value.0, Cut(s, pat).value.1))
  {
    FindSkip(a, s, pat);
    var i := Find(s, pat).value;
    ShiftedSlices(a, s, i, i + |pat|);
  }

  lemma {:induction false} ShiftedSlices(a: string, s: string, i: nat, j: nat)
    requires i <= j <= |s|
    ensures (a + s)[..|a| + i] == a + s[..i] && (a + s)[|a| + j..] == s[j..]
  {
  }

  lemma {:induction false} CutStable(t: string, z: string, pat: string)
    requires Cut(t, pat).Some?
    ensures Cut(t + z, pat) == Some((Cut(t, pat).value.0, Cut(t, pat).value.1 + z))
  {
    var i := Find(t, pat).value;
    assert t == (t + z)[..|t|];
    AtInPrefix(t + z, pat, |t|, i);
    forall j: nat | j < i
      ensures !At(t + z, pat, j)
    {
      AtInPrefix(t + z, pat, |t|, j);
    }
    FindIs(t + z, pat, i);
    assert (t + z)[..i] == t[..i];
    assert (t + z)[i + |pat|..] == t[i + |pat|..] + z;
  }

  lemma {:induction false} FromStable(rest: string, z: string)
    requires FromParts(rest).Some?
    ensures FromParts(rest + z) == FromParts(rest)
  {
    CutStable(rest, z, FROM);
    var tail := Cut(rest, FROM).value.1;
    CutStable(tail, z, CLOSE);
    assert (tail + z)[0] == tail[0];
  }

  lemma {:induction false} ProposedStable(line: string, z: string)
    requires IsProposed(line)
    ensures IsProposed(line + z)
  {
    CutStable(line, z, PROPOSED);
    FromStable(Cut(line, PROPOSED).value.1, z);
  }

  lemma {:induction false} ProposedSkip(a: string, line: string)
    requires Blank(a) && IsProposed(line)
    ensures IsProposed(a + line)
  {
    CutSkip(a, line, PROPOSED);
  }

  lemma {:induction false} ProposedLeft(line: string)
    requires IsProposed(TrimLeft(line))
    ensures IsProposed(line)
  {
    var a := TrimLeftCuts(line);
    ProposedSkip(a, TrimLeft(line));
  }

  lemma {:induction false} ProposedRight(line: string)
    requires IsProposed(TrimRight(line))
    ensures IsProposed(line)
  {
    var z := TrimRightCuts(line);
    ProposedStable(TrimRight(line), z);
  }

  lemma {:induction false} TrimEndsAt(kept: seq<string>, p: nat) returns (mid: string)
    requires p < |kept|
    ensures mid == kept[p] || mid == TrimLeft(kept[p])
    ensures TrimEnds(kept)[p] == mid || TrimEnds(kept)[p] == TrimRight(mid)
  {
    mid := if p == 0 then TrimLeft(kept[p]) else kept[p];
  }

  lemma {:induction false} KeptAt(lines: seq<string>, p: nat) returns (i: nat)
    requires p < |DropBack(DropFront(lines))|
    ensures i < |lines| && DropBack(DropFront(lines))[p] == lines[i]
  {
    var front := DropFront(lines);
    DropFrontIsSuffix(lines);
    i := |lines| - |front| + p;
    assert front[p] == lines[i];
  }

  /** A block that parses has a Proposed line, so its Status line can always be placed. */
  lemma {:induction false} ParsedHasProposed(raw: string)
    requires ParseBlock(raw).Some?
    ensures First(Split(raw, NL), IsProposed).Some?
  {
    var stripped := StripLines(Split(raw, NL));
    var p := First(stripped, IsProposed).value;
    var kept := DropBack(DropFront(Split(raw, NL)));
    var mid := TrimEndsAt(kept, p);
    var i := KeptAt(Split(raw, NL), p);
    if stripped[p] != mid {
      ProposedRight(mid);
    }
    if kept[p] != mid {
      ProposedLeft(kept[p]);
    }
    FirstNone(Split(raw, NL), IsProposed);
  }

  // ---- Rewriting the Status line ----

  function StatusLine(status: string, filed: Option<string>): string {
    STATUS + " " + status + (if filed.Some? && filed.value != "" then " " + [ARROW] + " " + filed.value else "")
  }

  /** The first line from `i` on that is not blank; the pattern for a Status line swallows the blank
      lines after it. */
  function NextFilled(lines: seq<string>, i: nat): (m: nat)
    requires i <= |lines|
    ensures i <= m <= |lines| && forall k :: i <= k < m ==> Blank(lines[k])
    decreases |lines| - i
  {
    if i == |lines| || !Blank(lines[i]) then i else NextFilled(lines, i + 1)
  }

  /** The new line in place of the first line of one kind, or below the first of the other if more lines
      follow it. */
  function Placed(lines: seq<string>, newLine: string, status: Option<nat>, proposed: Option<nat>): Option<seq<string>>
    requires status.Some? ==> status.value < |lines|
  {
    if status.Some? then
      Some(lines[..status.value] + [newLine] + lines[NextFilled(lines, status.value + 1)..])
    else if proposed.Some? && proposed.value + 1 < |lines| then
      Some(lines[..proposed.value + 1] + ["", newLine] + lines[proposed.value + 1..])
    else None
  }

  function RewriteLines(lines: seq<string>, newLine: string): Option<seq<string>> {
    Placed(lines, newLine, First(lines, IsStatus), First(lines, IsProposed))
  }

  function RewriteBlock(raw: string, newLine: string): string {
    match RewriteLines(Split(raw, NL), newLine)
    case Some(lines) => Join(lines, NL)
    case None => TrimRight(raw) + NL + NL + newLine + NL
  }

  // ---- The writer's format ----

  /** The fields the proposing stage writes; texts may run over several lines. */
  datatype Entry = Entry(
    section: string, rule: seq<string>, rationale: seq<string>, when: string, source: string,
    status: Option<(string, Option<string>)>)

  function ProposedLine(e: Entry): string {
    "**Proposed:** " + e.when + " (from " + e.source + ")"
  }

  function Heading(e: Entry): string { "### Proposed addition to " + e.section }

  function RuleLines(e: Entry): seq<string>
    requires e.rule != []
  {
    ["> **Rule:** " + e.rule[0]] + e.rule[1..]
  }

  function RationaleLines(e: Entry): seq<string>
    requires e.rationale != []
  {
    ["**Rationale:** " + e.rationale[0]] + e.rationale[1..]
  }

  /** Heading, rule and rationale. */
  function Front(e: Entry): seq<string>
    requires e.rule != [] && e.rationale != []
  {
    [Heading(e), ""] + RuleLines(e) + [""] + RationaleLines(e)
  }

  function Body(e: Entry): seq<string>
    requires e.rule != [] && e.rationale != []
  {
    Front(e) + ["", ProposedLine(e)]
  }

  function StatusLines(e: Entry): seq<string> {
    if e.status.None? then [] else ["", StatusLine(e.status.value.0, e.status.value.1)]
  }

  /** The stripped block: its body and its status lines. */
  function Core(e: Entry): seq<string>
    requires e.rule != [] && e.rationale != []
  {
    Body(e) + StatusLines(e)
  }

  /** Lines with or without an empty line before and a line feed after them. */
  function Surround(lead: bool, core: seq<string>, trail: bool): seq<string> {
    var tail := if trail then core + [""] else core;
    if lead then [""] + tail else tail
  }

  /** The block of an entry. */
  function Render(e: Entry, lead: bool, trail: bool): seq<string>
    requires e.rule != [] && e.rationale != []
  {
    Surround(lead, Core(e), trail)
  }

  predicate Word(s: string) { s != "" && forall i :: 0 <= i < |s| ==> !IsSpace(s[i]) }

  /** A status is one word; a ticket, if any, is one trimmed line. */
  predicate GoodStatus(status: string, filed: Option<string>) {
    Word(status) && (filed.Some? ==> Trimmed(filed.value) && OneLine(filed.value))
  }

  /** Every field fits on the lines it is written to. */
  predicate Shaped(e: Entry) {
    && Trimmed(e.section) && OneLine(e.section)
    && e.rule != [] && e.rationale != [] && !Blank(e.rule[0]) && !Blank(e.rationale[0])
    && (forall i :: 0 <= i < |e.rule| ==> e.rule[i] != "" && OneLine(e.rule[i]))
    && (forall i :: 0 <= i < |e.rationale| ==> OneLine(e.rationale[i]))
    && OneLine(e.when) && OneLine(e.source)
    && (e.status.Some? ==> GoodStatus(e.status.value.0, e.status.value.1))
  }

  /** No text line of the entry can be taken for its Proposed line or a Status line. */
  predicate Unconfused(e: Entry)
    requires e.rule != [] && e.rationale != []
  {
    && ProposedParts(ProposedLine(e)) == Some((e.when, e.source))
    && !IsProposed(Heading(e))
    && (forall i :: 0 <= i < |e.rule| ==> !IsProposed(RuleLines(e)[i]))
    && (forall i :: 0 <= i < |e.rationale| ==> !IsProposed(RationaleLines(e)[i]))
    && (forall i :: 0 <= i < |e.rule[1..]| ==> !IsStatus(e.rule[1..][i]))
    && (forall i :: 0 <= i < |e.rationale[1..]| ==> !IsStatus(e.rationale[1..][i]))
  }

  predicate WellFormed(e: Entry) { Shaped(e) && Unconfused(e) }

  lemma {:induction false} TokenStops(w: string, rest: string)
    requires (forall i :: 0 <= i < |w| ==> !IsSpace(w[i])) && (rest == "" || IsSpace(rest[0]))
    ensures Token(w + rest) == w
  {
    if w == "" {
      assert w + rest == rest;
    } else {
      assert (w + rest)[1..] == w[1..] + rest;
      TokenStops(w[1..], rest);
    }
  }

  lemma {:induction false} TrimSpace(s: string)
    ensures TrimLeft(" " + s) == TrimLeft(s)
    ensures s != "" && !IsSpace(s[0]) ==> TrimLeft(s) == s
    ensures Trimmed(s) ==> Strip(" " + s) == s
  {
    assert (" " + s)[1..] == s;
  }

  lemma {:induction false} WordReads(status: string, tail: string)
    requires Word(status) && (tail == "" || IsSpace(tail[0]))
    ensures var rest := TrimLeft(" " + (status + tail));
      rest == status + tail && Token(rest) == status && rest[|status|..] == tail
  {
    TrimSpace(status + tail);
    TokenStops(status, tail);
  }

  lemma {:induction false} TicketReads(ticket: string)
    requires Trimmed(ticket)
    ensures var arrow := [ARROW] + (" " + ticket);
      TrimLeft(" " + arrow) == arrow && Strip(arrow[1..]) == ticket
  {
    var arrow := [ARROW] + (" " + ticket);
    TrimSpace(arrow);
    TrimSpace(ticket);
    assert arrow[1..] == " " + ticket;
  }

  function Tail(filed: Option<string>): string {
    if filed.Some? then " " + ([ARROW] + (" " + filed.value)) else ""
  }

  lemma {:induction false} StatusReads(rest: string, status: string, filed: Option<string>)
    requires GoodStatus(status, filed) && rest == " " + (status + Tail(filed))
    ensures StatusOf(STATUS + rest) == Some((status, filed))
  {
    WordReads(status, Tail(filed));
    if filed.Some? {
      TicketReads(filed.value);
    }
    assert (STATUS + rest)[|STATUS|..] == rest;
  }

  lemma {:induction false} Regroup(a: string, b: string, c: string, d: string)
    ensures a + b + c + d == a + (b + (c + d))
  {
  }

  lemma {:induction false} StatusLineIs(status: string, filed: Option<string>)
    requires GoodStatus(status, filed)
    ensures StatusLine(status, filed) == STATUS + (" " + (status + Tail(filed)))
  {
    if filed.Some? {
      Regroup(" ", [ARROW], " ", filed.value);
    }
    Regroup(STATUS, " ", status, Tail(filed));
  }

  /** The line the rewriter writes is read back as the status and ticket it was given. */
  lemma {:induction false} StatusLineReads(status: string, filed: Option<string>)
    requires GoodStatus(status, filed)
    ensures StatusOf(StatusLine(status, filed)) == Some((status, filed))
  {
    StatusLineIs(status, filed);
    StatusReads(" " + (status + Tail(filed)), status, filed);
  }

  lemma {:induction false} StatusLineShape(status: string, filed: Option<string>)
    requires GoodStatus(status, filed)
    ensures var line := StatusLine(status, filed);
      OneLine(line) && line[0] == '*' && !IsSpace(line[|line| - 1])
  {
    assert OneLine(status);
  }

  // ---- Entries in the writer's format parse to their fields, whatever their status ----

  /** Where the rationale and the Proposed line stand in the body. */
  function RationaleAt(e: Entry): nat { 3 + |e.rule| }

  function ProposedLineAt(e: Entry): nat { 4 + |e.rule| + |e.rationale| }

  lemma {:induction false} CoreAt(e: Entry)
    requires e.rule != [] && e.rationale != []
    ensures var c := Core(e);
      && |c| == ProposedLineAt(e) + 1 + |StatusLines(e)|
      && c[0] == Heading(e) && c[1] == "" && c[2 + |e.rule|] == "" && c[ProposedLineAt(e) - 1] == ""
      && c[ProposedLineAt(e)] == ProposedLine(e)
      && (forall i :: 0 <= i < |e.rule| ==> c[2 + i] == RuleLines(e)[i])
      && (forall i :: 0 <= i < |e.rationale| ==> c[RationaleAt(e) + i] == RationaleLines(e)[i])
      && (forall i :: 0 <= i < |StatusLines(e)| ==> c[ProposedLineAt(e) + 1 + i] == StatusLines(e)[i])
  {
  }

  lemma {:induction false} SectionReads(section: string)
    requires Trimmed(section)
    ensures SectionOf("###" + (" " + ("Proposed addition to" + (" " + section)))) == Some(section)
  {
    var after := "Proposed addition to" + (" " + section);
    TrimSpace(after);
    assert ("###" + (" " + after))[3..] == " " + after;
    assert after[20..] == " " + section;
    TrimSpace(section);
  }

  lemma {:induction false} HeadingIs(section: string)
    ensures "### Proposed addition to " + section == "###" + (" " + ("Proposed addition to" + (" " + section)))
  {
    Regroup("###", " ", "Proposed addition to", " " + section);
    assert "###" + " " + "Proposed addition to" + (" " + section) == "### Proposed addition to " + section;
  }

  lemma {:induction false} HeadingReads(e: Entry)
    requires Trimmed(e.section)
    ensures SectionOf(Heading(e)) == Some(e.section)
    ensures Heading(e)[0] == '#' && !IsRule(Heading(e)) && !IsStatus(Heading(e))
  {
    SectionReads(e.section);
    HeadingIs(e.section);
    HashStartsNeither(Heading(e));
  }

  lemma {:induction false} HashStartsNeither(line: string)
    requires line != "" && line[0] == '#'
    ensures !IsRule(line) && !IsStatus(line)
  {
    assert STATUS[0] == '*';
  }

  lemma {:induction false} RuleStartReads(text: string)
    ensures RuleStart(">" + (" " + ("**Rule:**" + (" " + text)))) == Some(" " + text)
  {
    var after := "**Rule:**" + (" " + text);
    assert (">" + (" " + after))[1..] == " " + after;
    TrimSpace(after);
    assert after[9..] == " " + text;
  }

  lemma {:induction false} RuleReads(text: string)
    ensures var line := "> **Rule:** " + text;
      RuleStart(line) == Some(" " + text) && !IsStatus(line)
  {
    RuleStartReads(text);
    Regroup(">", " ", "**Rule:**", " " + text);
    assert ">" + " " + "**Rule:**" + (" " + text) == "> **Rule:** " + text;
    assert ("> **Rule:** " + text)[0] == '>' && STATUS[0] == '*';
  }

  lemma {:induction false} RationaleReads(text: string)
    requires !Blank(text)
    ensures var line := "**Rationale:** " + text;
      IsRationale(line) && !IsStatus(line)
  {
    var line := "**Rationale:** " + text;
    assert line[..|RATIONALE|] == RATIONALE;
    assert line[|RATIONALE|..] == " " + text;
    var i :| 0 <= i < |text| && !IsSpace(text[i]);
    assert (" " + text)[1 + i] == text[i];
    assert line[2] == 'R' && STATUS[2] == 'S';
  }

  lemma {:induction false} ProposedLineShape(e: Entry)
    ensures var line := ProposedLine(e); |line| > 2 && line[2] == 'P' && line[|line| - 1] == ')' && !IsStatus(line)
  {
    assert STATUS[2] == 'S';
  }

  /** The rule text of an entry, as it is parsed. */
  function RuleOf(e: Entry): string
    requires e.rule != []
  {
    Strip(Join([" " + e.rule[0]] + e.rule[1..], NL))
  }

  lemma {:induction false} StripOfFilled(s: string)
    requires Strip(s) == ""
    ensures Blank(s)
  {
    var a := TrimLeftCuts(s);
    var z := TrimRightCuts(TrimLeft(s));
  }

  lemma {:induction false} RuleOfFilled(e: Entry)
    requires e.rule != [] && !Blank(e.rule[0])
    ensures RuleOf(e) != ""
  {
    var i :| 0 <= i < |e.rule[0]| && !IsSpace(e.rule[0][i]);
    var joined := Join([" " + e.rule[0]] + e.rule[1..], NL);
    assert (" " + e.rule[0]) <= joined;
    assert joined[1 + i] == e.rule[0][i];
    if RuleOf(e) == "" {
      StripOfFilled(joined);
    }
  }

  lemma {:induction false} RuleTextIs(lines: seq<string>, i: nat, rest: seq<string>)
    requires i + 1 + |rest| < |lines| && IsRule(lines[i]) && lines[i + 1 + |rest|] == ""
    requires lines[i + 1..i + 1 + |rest|] == rest && forall k :: 0 <= k < |rest| ==> rest[k] != ""
    ensures RuleText(lines, i) == Strip(Join([RuleStart(lines[i]).value] + rest, NL))
  {
    var below := lines[i + 1..];
    assert below[..|rest|] == rest;
    forall k | 0 <= k < |rest|
      ensures below[k] != ""
    {
      assert below[k] == rest[k];
    }
    FirstIs(below, IsEmpty, |rest|);
  }

  lemma {:induction false} RuleLinesInCore(e: Entry)
    requires e.rule != [] && e.rationale != []
    ensures |Core(e)| > 2 + |e.rule| && Core(e)[2] == "> **Rule:** " + e.rule[0] && Core(e)[2 + |e.rule|] == ""
    ensures Core(e)[3..2 + |e.rule|] == e.rule[1..]
  {
    CoreAt(e);
    assert Core(e)[2 + 0] == RuleLines(e)[0];
    forall k | 1 <= k < |e.rule|
      ensures Core(e)[2 + k] == e.rule[k]
    {
      assert Core(e)[2 + k] == RuleLines(e)[k];
    }
  }

  lemma {:induction false} RuleTextReads(e: Entry)
    requires e.rule != [] && e.rationale != [] && forall i :: 0 <= i < |e.rule| ==> e.rule[i] != ""
    ensures |Core(e)| > 2 && IsRule(Core(e)[2]) && RuleText(Core(e), 2) == RuleOf(e)
  {
    RuleLinesInCore(e);
    RuleReads(e.rule[0]);
    RuleTextIs(Core(e), 2, e.rule[1..]);
  }

  /** A test that no text line of the entry passes is passed by no line before the Proposed line. */
  lemma {:induction false} BodyAvoids(e: Entry, test: string -> bool)
    requires e.rule != [] && e.rationale != []
    requires !test(Heading(e)) && !test("")
    requires forall i :: 0 <= i < |e.rule| ==> !test(RuleLines(e)[i])
    requires forall i :: 0 <= i < |e.rationale| ==> !test(RationaleLines(e)[i])
    ensures |Core(e)| > ProposedLineAt(e) && forall i :: 0 <= i < ProposedLineAt(e) ==> !test(Core(e)[i])
  {
    var c := Core(e);
    CoreAt(e);
    forall i: nat | i < ProposedLineAt(e)
      ensures !test(c[i])
    {
      if 2 <= i < 2 + |e.rule| {
        assert c[2 + (i - 2)] == RuleLines(e)[i - 2];
      } else if RationaleAt(e) <= i < RationaleAt(e) + |e.rationale| {
        assert c[RationaleAt(e) + (i - RationaleAt(e))] == RationaleLines(e)[i - RationaleAt(e)];
      } else {
        assert i == 0 || c[i] == "";
      }
    }
  }

  /** A test that neither the first line nor the others pass is passed by no line. */
  lemma {:induction false} NonePass(first: string, rest: seq<string>, test: string -> bool)
    requires !test(first) && forall i :: 0 <= i < |rest| ==> !test(rest[i])
    ensures forall i :: 0 <= i < |[first] + rest| ==> !test(([first] + rest)[i])
  {
  }

  lemma {:induction false} TextLinesNotStatus(e: Entry)
    requires WellFormed(e)
    ensures forall i :: 0 <= i < |e.rule| ==> !IsStatus(RuleLines(e)[i])
    ensures forall i :: 0 <= i < |e.rationale| ==> !IsStatus(RationaleLines(e)[i])
  {
    RuleReads(e.rule[0]);
    NonePass("> **Rule:** " + e.rule[0], e.rule[1..], IsStatus);
    RationaleReads(e.rationale[0]);
    NonePass("**Rationale:** " + e.rationale[0], e.rationale[1..], IsStatus);
  }

  lemma {:induction false} ProposedIsFirst(e: Entry)
    requires WellFormed(e)
    ensures First(Core(e), IsProposed) == Some(ProposedLineAt(e))
  {
    CoreAt(e);
    BodyAvoids(e, IsProposed);
    FirstIs(Core(e), IsProposed, ProposedLineAt(e));
  }

  /** No line up to the Proposed line is taken for a Status line. */
  lemma {:induction false} BodyNotStatus(e: Entry)
    requires WellFormed(e)
    ensures Quiet(e)
  {
    CoreAt(e);
    HeadingReads(e);
    ProposedLineShape(e);
    TextLinesNotStatus(e);
    BodyAvoids(e, IsStatus);
  }

  lemma {:induction false} StatusLineInCore(e: Entry)
    requires e.rule != [] && e.rationale != [] && e.status.Some?
    ensures |Core(e)| == ProposedLineAt(e) + 3 && Core(e)[ProposedLineAt(e) + 1] == ""
    ensures Core(e)[ProposedLineAt(e) + 2] == StatusLine(e.status.value.0, e.status.value.1)
  {
    CoreAt(e);
    assert Core(e)[ProposedLineAt(e) + 1 + 0] == StatusLines(e)[0];
    assert Core(e)[ProposedLineAt(e) + 1 + 1] == StatusLines(e)[1];
  }

  lemma {:induction false} FirstAfterGap(lines: seq<string>, test: string -> bool, n: nat)
    requires n + 2 < |lines| && lines[n + 1] == "" && !test("") && test(lines[n + 2])
    requires forall i :: 0 <= i <= n ==> !test(lines[i])
    ensures First(lines, test) == Some(n + 2)
  {
    FirstIs(lines, test, n + 2);
  }

  lemma {:induction false} StatusFound(lines: seq<string>, n: nat, status: string, filed: Option<string>)
    requires n + 2 < |lines| && lines[n + 1] == "" && lines[n + 2] == StatusLine(status, filed)
    requires GoodStatus(status, filed) && forall i :: 0 <= i <= n ==> !IsStatus(lines[i])
    ensures First(lines, IsStatus) == Some(n + 2) && StatusOf(lines[n + 2]) == Some((status, filed))
  {
    StatusLineReads(status, filed);
    FirstAfterGap(lines, IsStatus, n);
  }

  /** No line of the body is taken for a Status line. */
  ghost predicate Quiet(e: Entry)
    requires e.rule != [] && e.rationale != []
  {
    |Core(e)| > ProposedLineAt(e) && forall i :: 0 <= i <= ProposedLineAt(e) ==> !IsStatus(Core(e)[i])
  }

  lemma {:induction false} NoStatusFound(e: Entry)
    requires e.rule != [] && e.rationale != [] && Quiet(e) && e.status.None?
    ensures First(Core(e), IsStatus) == None
  {
    CoreAt(e);
    FirstNone(Core(e), IsStatus);
  }

  lemma {:induction false} StatusAtEnd(e: Entry)
    requires e.rule != [] && e.rationale != [] && Quiet(e) && e.status.Some?
    requires GoodStatus(e.status.value.0, e.status.value.1)
    ensures First(Core(e), IsStatus) == Some(ProposedLineAt(e) + 2)
    ensures StatusOf(Core(e)[ProposedLineAt(e) + 2]) == e.status
  {
    StatusLineInCore(e);
    StatusFound(Core(e), ProposedLineAt(e), e.status.value.0, e.status.value.1);
  }

  /** What an entry parses to. */
  function Parsed(e: Entry): Candidate
    requires WellFormed(e)
  {
    RationaleInFront(e);
    Assemble(e.section, RuleOf(e), RationaleIn(Front(e)), (e.when, e.source), e.status)
  }

  lemma {:induction false} FrontAt(e: Entry)
    requires e.rule != [] && e.rationale != []
    ensures var front, r := Front(e), RationaleAt(e);
      && r < |front| && front[r] == "**Rationale:** " + e.rationale[0] && front[r + 1..] == e.rationale[1..]
      && front[0] == Heading(e) && front[1] == "" && front[r - 1] == ""
      && forall k :: 2 <= k < r - 1 ==> front[k] == RuleLines(e)[k - 2]
  {
  }

  lemma {:induction false} FoundAt(lines: seq<string>, test: string -> bool, i: nat)
    requires i < |lines| && test(lines[i])
    ensures First(lines, test).Some?
  {
    FirstNone(lines, test);
  }

  lemma {:induction false} RationaleInFront(e: Entry)
    requires WellFormed(e)
    ensures First(Front(e), IsRationale).Some?
  {
    RationaleReads(e.rationale[0]);
    FrontAt(e);
    FoundAt(Front(e), IsRationale, RationaleAt(e));
  }

  /** Nothing below the Proposed line is read as rationale. */
  lemma {:induction false} ClosedThere(lines: seq<string>, closing: string, below: seq<string>)
    requires ClosesRationale(closing)
    ensures UpToClose(lines + (["", closing] + below)) == UpToClose(lines)
    decreases |lines|
  {
    var tail := ["", closing] + below;
    if lines == [] {
      Sequences.WithNothing(tail);
    } else {
      Sequences.Parts([lines[0]], lines[1..] + tail);
      assert lines + tail == [lines[0]] + (lines[1..] + tail);
      ClosedThere(lines[1..], closing, below);
    }
  }

  lemma {:induction false} RationaleStays(front: seq<string>, closing: string, below: seq<string>)
    requires First(front, IsRationale).Some? && ClosesRationale(closing)
    ensures var lines := front + (["", closing] + below);
      First(lines, IsRationale).Some? && RationaleIn(lines) == RationaleIn(front)
  {
    var tail := ["", closing] + below;
    var r := First(front, IsRationale).value;
    FirstPrefix(front, tail, IsRationale);
    assert (front + tail)[r + 1..] == front[r + 1..] + tail;
    ClosedThere(front[r + 1..], closing, below);
  }

  lemma {:induction false} CoreIs(e: Entry)
    requires e.rule != [] && e.rationale != []
    ensures Core(e) == Front(e) + (["", ProposedLine(e)] + StatusLines(e))
  {
    Sequences.Regroup(Front(e), ["", ProposedLine(e)], StatusLines(e));
  }

  lemma {:induction false} ProposedCloses(e: Entry)
    ensures ClosesRationale(ProposedLine(e))
  {
  }

  lemma {:induction false} RationaleRead(e: Entry)
    requires e.rule != [] && e.rationale != [] && First(Front(e), IsRationale).Some?
    ensures First(Core(e), IsRationale).Some? && RationaleIn(Core(e)) == RationaleIn(Front(e))
  {
    CoreIs(e);
    ProposedCloses(e);
    RationaleStays(Front(e), ProposedLine(e), StatusLines(e));
  }

  /** No part of the rationale looks like its end. */
  predicate Unclosed(lines: seq<string>) {
    forall k :: 0 <= k < |lines| - 1 && lines[k] == "" ==> !ClosesRationale(lines[k + 1])
  }

  lemma {:induction false} UpToCloseIsAll(lines: seq<string>)
    ensures UpToClose(lines) == lines <==> Unclosed(lines)
    decreases |lines|
  {
    if lines != [] {
      var rest := lines[1..];
      UpToCloseIsAll(rest);
      assert forall k :: 1 <= k < |lines| ==> lines[k] == rest[k - 1];
      assert lines == [lines[0]] + rest;
      if Unclosed(rest) && !(lines[0] == "" && |lines| > 1 && ClosesRationale(lines[1])) {
        forall k | 0 <= k < |lines| - 1 && lines[k] == ""
          ensures !ClosesRationale(lines[k + 1])
        {
          assert k > 0 ==> rest[k - 1] == "" && rest[k - 1 + 1] == lines[k + 1];
        }
      }
      if Unclosed(lines) {
        forall k | 0 <= k < |rest| - 1 && rest[k] == ""
          ensures !ClosesRationale(rest[k + 1])
        {
          assert lines[k + 1] == "" && lines[k + 1 + 1] == rest[k + 1];
        }
      }
    }
  }

  lemma {:induction false} RationaleFrom(lines: seq<string>, r: nat, text: string, rest: seq<string>)
    requires First(lines, IsRationale) == Some(r) && lines[r] == "**Rationale:** " + text && lines[r + 1..] == rest
    requires Unclosed(rest)
    ensures RationaleIn(lines) == Strip(Join([" " + text] + rest, NL))
  {
    RationaleRest(text);
    UpToCloseIsAll(rest);
  }

  lemma {:induction false} FirstInFront(e: Entry, test: string -> bool)
    requires e.rule != [] && e.rationale != []
    requires !test("") && !test(Heading(e)) && forall i :: 0 <= i < |e.rule| ==> !test(RuleLines(e)[i])
    requires test("**Rationale:** " + e.rationale[0])
    ensures First(Front(e), test) == Some(RationaleAt(e))
  {
    FrontAt(e);
    var front := Front(e);
    forall k | 0 <= k < RationaleAt(e)
      ensures !test(front[k])
    {
      assert 2 <= k < RationaleAt(e) - 1 ==> front[k] == RuleLines(e)[k - 2];
    }
    FirstIs(front, test, RationaleAt(e));
  }

  /** With no mark of a rationale above it and no part that looks like its end, the rationale is read as it was
      written, but for white space at its ends. */
  lemma {:induction false} WholeRationaleRead(e: Entry)
    requires WellFormed(e) && Unclosed(e.rationale[1..])
    requires !IsRationale(Heading(e)) && forall i :: 0 <= i < |e.rule| ==> !IsRationale(RuleLines(e)[i])
    ensures Parsed(e).rationale == Strip(Join([" " + e.rationale[0]] + e.rationale[1..], NL))
  {
    RationaleReads(e.rationale[0]);
    EmptyIsNoRationale();
    FirstInFront(e, IsRationale);
    FrontAt(e);
    RationaleFrom(Front(e), RationaleAt(e), e.rationale[0], e.rationale[1..]);
  }

  lemma {:induction false} EmptyIsNoRationale()
    ensures !IsRationale("")
  {
  }

  lemma {:induction false} RationaleRest(text: string)
    ensures Cut("**Rationale:** " + text, RATIONALE) == Some(("", " " + text))
  {
    var line := "**Rationale:** " + text;
    assert line[..|RATIONALE|] == RATIONALE;
    assert line[|RATIONALE|..] == " " + text;
  }

  lemma {:induction false} HeadingFirst(e: Entry)
    requires WellFormed(e)
    ensures First(Core(e), IsHeading) == Some(0) && SectionOf(Core(e)[0]) == Some(e.section)
  {
    CoreAt(e);
    HeadingReads(e);
    FirstIs(Core(e), IsHeading, 0);
  }

  lemma {:induction false} FirstIsThird(lines: seq<string>, test: string -> bool)
    requires |lines| > 2 && !test(lines[0]) && lines[1] == "" && !test("") && test(lines[2])
    ensures First(lines, test) == Some(2)
  {
    FirstIs(lines, test, 2);
  }

  lemma {:induction false} RuleFirst(e: Entry)
    requires WellFormed(e)
    ensures First(Core(e), IsRule) == Some(2)
  {
    CoreAt(e);
    HeadingReads(e);
    RuleTextReads(e);
    FirstIsThird(Core(e), IsRule);
  }

  lemma {:induction false} ProposedFound(e: Entry)
    requires WellFormed(e)
    ensures First(Core(e), IsProposed) == Some(ProposedLineAt(e))
    ensures ProposedParts(Core(e)[ProposedLineAt(e)]) == Some((e.when, e.source))
  {
    CoreAt(e);
    ProposedIsFirst(e);
  }

  /** The Status line among the lines, read. */
  function StatusIn(lines: seq<string>): Option<(string, Option<string>)> {
    var at := First(lines, IsStatus);
    if at.Some? then StatusOf(lines[at.value]) else None
  }

  lemma {:induction false} StatusRead(e: Entry)
    requires WellFormed(e)
    ensures StatusIn(Core(e)) == e.status
  {
    BodyNotStatus(e);
    if e.status.Some? {
      StatusAtEnd(e);
    } else {
      NoStatusFound(e);
    }
  }

  lemma {:induction false} ParsesAs(lines: seq<string>, section: string, i: nat, rule: string, rationale: string,
                                    j: nat, parts: (string, string))
    requires First(lines, IsHeading) == Some(0) && SectionOf(lines[0]) == Some(section)
    requires First(lines, IsRule) == Some(i) && RuleText(lines, i) == rule != ""
    requires First(lines, IsRationale).Some? && RationaleIn(lines) == rationale
    requires First(lines, IsProposed) == Some(j) && ProposedParts(lines[j]) == Some(parts)
    ensures ParseLines(lines) == Some(Assemble(section, rule, rationale, parts, StatusIn(lines)))
  {
  }

  lemma {:induction false} CoreParses(e: Entry)
    requires WellFormed(e)
    ensures ParseLines(Core(e)) == Some(Parsed(e))
  {
    HeadingFirst(e);
    RuleFirst(e);
    RuleTextReads(e);
    RuleOfFilled(e);
    RationaleInFront(e);
    RationaleRead(e);
    ProposedFound(e);
    StatusRead(e);
    ParsesAs(Core(e), e.section, 2, RuleOf(e), RationaleIn(Front(e)), ProposedLineAt(e), (e.when, e.source));
  }

  lemma {:induction false} CoreEnds(e: Entry)
    requires Shaped(e)
    ensures Core(e) != [] && var c := Core(e);
      && c[0][0] == '#'
      && var last := c[|c| - 1]; last != "" && !IsSpace(last[|last| - 1])
  {
    CoreAt(e);
    if e.status.Some? {
      StatusLineInCore(e);
      StatusLineShape(e.status.value.0, e.status.value.1);
    } else {
      ProposedLineShape(e);
    }
  }

  lemma {:induction false} DropFrontOf(lines: seq<string>)
    requires lines != [] && !Blank(lines[0])
    ensures DropFront(lines) == lines && DropFront([""] + lines) == lines
  {
    assert ([""] + lines)[1..] == lines;
  }

  lemma {:induction false} DropBackOf(lines: seq<string>)
    requires lines != [] && !Blank(lines[|lines| - 1])
    ensures DropBack(lines) == lines && DropBack(lines + [""]) == lines
  {
    assert (lines + [""])[..|lines|] == lines;
  }

  lemma {:induction false} TrimEndsOf(core: seq<string>)
    requires core != [] && core[0] != "" && !IsSpace(core[0][0])
    requires var last := core[|core| - 1]; last != "" && !IsSpace(last[|last| - 1])
    ensures TrimEnds(core) == core
  {
  }

  /** Surrounding empty lines are stripped. */
  lemma {:induction false} StripSurround(core: seq<string>, lead: bool, trail: bool)
    requires core != [] && core[0] != "" && !IsSpace(core[0][0])
    requires var last := core[|core| - 1]; last != "" && !IsSpace(last[|last| - 1])
    ensures StripLines(Surround(lead, core, trail)) == core
  {
    var tail := if trail then core + [""] else core;
    assert tail[0] == core[0];
    DropFrontOf(tail);
    DropBackOf(core);
    TrimEndsOf(core);
  }

  predicate AllOneLine(lines: seq<string>) { forall i :: 0 <= i < |lines| ==> OneLine(lines[i]) }

  lemma {:induction false} OneLineParts(e: Entry)
    requires Shaped(e)
    ensures AllOneLine(RuleLines(e)) && AllOneLine(RationaleLines(e)) && OneLine(Heading(e)) && OneLine(ProposedLine(e))
    ensures AllOneLine(StatusLines(e))
  {
    assert AllOneLine(e.rule[1..]) && AllOneLine(e.rationale[1..]);
    if e.status.Some? {
      StatusLineShape(e.status.value.0, e.status.value.1);
    }
  }

  lemma {:induction false} OneLineJoin(a: seq<string>, b: seq<string>)
    requires AllOneLine(a) && AllOneLine(b)
    ensures AllOneLine(a + b)
  {
  }

  lemma {:induction false} CoreOneLine(e: Entry)
    requires Shaped(e)
    ensures AllOneLine(Core(e))
  {
    OneLineParts(e);
    var front := [Heading(e), ""] + RuleLines(e);
    OneLineJoin([Heading(e), ""], RuleLines(e));
    OneLineJoin(front, [""]);
    OneLineJoin(front + [""], RationaleLines(e));
    OneLineJoin(front + [""] + RationaleLines(e), ["", ProposedLine(e)]);
    OneLineJoin(Body(e), StatusLines(e));
  }

  lemma {:induction false} OneLineSurround(lead: bool, core: seq<string>, trail: bool)
    requires AllOneLine(core)
    ensures AllOneLine(Surround(lead, core, trail))
  {
    OneLineJoin(core, [""]);
    OneLineJoin([""], if trail then core + [""] else core);
  }

  lemma {:induction false} RawLines(e: Entry, lead: bool, trail: bool)
    requires Shaped(e)
    ensures Split(Raw(e, lead, trail), NL) == Render(e, lead, trail)
  {
    CoreOneLine(e);
    OneLineSurround(lead, Core(e), trail);
    CoreAt(e);
    SplitOfLines(Surround(lead, Core(e), trail));
  }

  function Raw(e: Entry, lead: bool, trail: bool): string
    requires e.rule != [] && e.rationale != []
  {
    Join(Render(e, lead, trail), NL)
  }

  lemma {:induction false} ParseOf(raw: string, lines: seq<string>)
    requires Split(raw, NL) == lines && StripLines(lines) != []
    ensures ParseBlock(raw) == ParseLines(StripLines(lines))
  {
  }

  lemma {:induction false} EntryStrips(e: Entry, lead: bool, trail: bool)
    requires Shaped(e)
    ensures ParseBlock(Raw(e, lead, trail)) == ParseLines(Core(e))
  {
    RawLines(e, lead, trail);
    CoreEnds(e);
    StripSurround(Core(e), lead, trail);
    ParseOf(Raw(e, lead, trail), Render(e, lead, trail));
  }

  /** A block in the writer's format parses to its fields. */
  lemma {:induction false} EntryParses(e: Entry, lead: bool, trail: bool)
    requires WellFormed(e)
    ensures ParseBlock(Raw(e, lead, trail)) == Some(Parsed(e))
  {
    EntryStrips(e, lead, trail);
    CoreParses(e);
  }

  lemma {:induction false} FirstPrefix(a: seq<string>, b: seq<string>, test: string -> bool)
    requires First(a, test).Some?
    ensures First(a + b, test) == First(a, test)
  {
    assert (a + b)[0] == a[0];
    if !test(a[0]) {
      assert (a + b)[1..] == a[1..] + b;
      FirstPrefix(a[1..], b, test);
    }
  }

  lemma {:induction false} FirstShift(lead: bool, core: seq<string>, trail: bool, test: string -> bool)
    requires !test("")
    ensures First(Surround(lead, core, trail), test)
         == match First(core, test) case None => None case Some(i) => Some(i + if lead then 1 else 0)
  {
    var tail := if trail then core + [""] else core;
    match First(core, test) {
      case None =>
        FirstNone(core, test);
        FirstNone(tail, test);
      case Some(i) =>
        FirstPrefix(core, [""], test);
    }
    assert First(tail, test) == First(core, test);
    assert ([""] + tail)[1..] == tail;
  }

  /** The block's lines with the status lines cut off at `at` and new ones put there. */
  lemma {:induction false} NewStatusLines(e: Entry, lead: bool, trail: bool, trail': bool, status: string,
                                          filed: Option<string>)
    requires e.rule != [] && e.rationale != []
    ensures var at := ProposedLineAt(e) + 1 + if lead then 1 else 0;
      && at <= |Render(e, lead, trail)|
      && Render(e.(status := Some((status, filed))), lead, trail')
         == Render(e, lead, trail)[..at] + ["", StatusLine(status, filed)] + (if trail' then [""] else [])
  {
    CoreAt(e);
    var after := e.(status := Some((status, filed)));
    assert Body(after) == Body(e);
    assert Core(e)[..ProposedLineAt(e) + 1] == Body(e);
    var at := ProposedLineAt(e) + 1 + if lead then 1 else 0;
    assert Render(e, lead, trail)[..at] == Surround(lead, Body(e), false);
    assert Core(after) == Body(e) + ["", StatusLine(status, filed)];
  }

  lemma {:induction false} BlankTail(lines: seq<string>, i: nat)
    requires i <= |lines| && forall k :: i <= k < |lines| ==> lines[k] == ""
    ensures NextFilled(lines, i) == |lines|
    decreases |lines| - i
  {
    if i < |lines| {
      BlankTail(lines, i + 1);
    }
  }

  lemma {:induction false} ReplaceLine(lines: seq<string>, newLine: string, at: nat)
    requires First(lines, IsStatus) == Some(at) && forall k :: at < k < |lines| ==> lines[k] == ""
    ensures RewriteLines(lines, newLine) == Some(lines[..at] + [newLine])
  {
    BlankTail(lines, at + 1);
    assert lines[..at] + [newLine] + lines[|lines|..] == lines[..at] + [newLine];
  }

  lemma {:induction false} InsertLine(lines: seq<string>, newLine: string, at: nat)
    requires |lines| == at + 2 && lines[at + 1] == ""
    ensures Placed(lines, newLine, None, Some(at)) == Some(lines[..at + 1] + ["", newLine] + [""])
  {
    assert lines[at + 1..] == [""];
  }

  lemma {:induction false} SurroundAt(lead: bool, core: seq<string>, trail: bool, i: nat)
    requires i < |core|
    ensures var lines := Surround(lead, core, trail);
      var at := i + if lead then 1 else 0;
      && at < |lines| && lines[at] == core[i]
      && |lines| == |core| + (if lead then 1 else 0) + (if trail then 1 else 0)
      && (i == |core| - 1 ==> forall k :: at < k < |lines| ==> lines[k] == "")
  {
  }

  lemma {:induction false} AfterEmptyLine(lines: seq<string>, at: nat, line: string)
    requires 1 <= at <= |lines| && lines[at - 1] == ""
    ensures lines[..at] + [line] == lines[..at - 1] + ["", line] + []
  {
  }

  lemma {:induction false} StatusInRender(e: Entry, lead: bool, trail: bool)
    requires e.rule != [] && e.rationale != [] && e.status.Some?
    ensures var lines := Render(e, lead, trail);
      var at := ProposedLineAt(e) + 2 + if lead then 1 else 0;
      at < |lines| && lines[at - 1] == "" && forall k :: at < k < |lines| ==> lines[k] == ""
  {
    StatusLineInCore(e);
    SurroundAt(lead, Core(e), trail, ProposedLineAt(e) + 1);
    SurroundAt(lead, Core(e), trail, ProposedLineAt(e) + 2);
  }

  lemma {:induction false} ReplaceInRender(e: Entry, lead: bool, trail: bool, status: string, filed: Option<string>)
    requires e.rule != [] && e.rationale != [] && e.status.Some?
    requires First(Core(e), IsStatus) == Some(ProposedLineAt(e) + 2)
    ensures RewriteLines(Render(e, lead, trail), StatusLine(status, filed))
         == Some(Render(e.(status := Some((status, filed))), lead, false))
  {
    var at := ProposedLineAt(e) + 2 + if lead then 1 else 0;
    FirstShift(lead, Core(e), trail, IsStatus);
    StatusInRender(e, lead, trail);
    ReplaceLine(Render(e, lead, trail), StatusLine(status, filed), at);
    AfterEmptyLine(Render(e, lead, trail), at, StatusLine(status, filed));
    NewStatusLines(e, lead, trail, false, status, filed);
  }

  /** Where two tests first pass in a core, seen from the surrounded lines. */
  lemma {:induction false} PlaceToInsert(core: seq<string>, lead: bool, n: nat, isStatus: string -> bool,
                                         isProposed: string -> bool)
    requires !isStatus("") && !isProposed("") && |core| == n + 1
    requires First(core, isStatus) == None && First(core, isProposed) == Some(n)
    ensures var lines := Surround(lead, core, true);
      var at := n + if lead then 1 else 0;
      && First(lines, isStatus) == None && First(lines, isProposed) == Some(at)
      && |lines| == at + 2 && lines[at + 1] == ""
  {
    FirstShift(lead, core, true, isStatus);
    FirstShift(lead, core, true, isProposed);
    SurroundAt(lead, core, true, n);
  }

  lemma {:induction false} InsertInLines(core: seq<string>, lead: bool, n: nat, newLine: string)
    requires |core| == n + 1 && First(core, IsStatus) == None && First(core, IsProposed) == Some(n)
    ensures RewriteLines(Surround(lead, core, true), newLine) == Some(Surround(lead, core + ["", newLine], true))
  {
    var lines := Surround(lead, core, true);
    var at := n + if lead then 1 else 0;
    PlaceToInsert(core, lead, n, IsStatus, IsProposed);
    InsertLine(lines, newLine, at);
    SurroundInserted(core, lead, newLine);
  }

  lemma {:induction false} SurroundInserted(core: seq<string>, lead: bool, newLine: string)
    requires core != []
    ensures var lines := Surround(lead, core, true);
      var at := |core| - 1 + if lead then 1 else 0;
      lines[..at + 1] + ["", newLine] + [""] == Surround(lead, core + ["", newLine], true)
  {
  }

  lemma {:induction false} CoreWithStatus(e: Entry, status: string, filed: Option<string>)
    requires e.rule != [] && e.rationale != [] && e.status.None?
    ensures |Core(e)| == ProposedLineAt(e) + 1
    ensures Core(e.(status := Some((status, filed)))) == Core(e) + ["", StatusLine(status, filed)]
  {
    CoreAt(e);
    var after := e.(status := Some((status, filed)));
    assert Body(after) == Body(e) && Core(e) == Body(e) + [];
  }

  lemma {:induction false} InsertInRender(e: Entry, lead: bool, status: string, filed: Option<string>)
    requires e.rule != [] && e.rationale != [] && e.status.None?
    requires First(Core(e), IsStatus) == None && First(Core(e), IsProposed) == Some(ProposedLineAt(e))
    ensures RewriteLines(Render(e, lead, true), StatusLine(status, filed))
         == Some(Render(e.(status := Some((status, filed))), lead, true))
  {
    CoreWithStatus(e, status, filed);
    InsertInLines(Core(e), lead, ProposedLineAt(e), StatusLine(status, filed));
  }

  /** Rewriting an entry's block gives the block of the entry with the new status, whether the Status
      line was replaced or inserted. */
  lemma {:induction false} RewriteReplaces(e: Entry, lead: bool, trail: bool, status: string, filed: Option<string>)
    requires Shaped(e) && e.status.Some? && First(Core(e), IsStatus) == Some(ProposedLineAt(e) + 2)
    ensures RewriteBlock(Raw(e, lead, trail), StatusLine(status, filed))
         == Raw(e.(status := Some((status, filed))), lead, false)
  {
    RawLines(e, lead, trail);
    ReplaceInRender(e, lead, trail, status, filed);
  }

  lemma {:induction false} RewriteInserts(e: Entry, lead: bool, status: string, filed: Option<string>)
    requires Shaped(e) && e.status.None?
    requires First(Core(e), IsStatus) == None && First(Core(e), IsProposed) == Some(ProposedLineAt(e))
    ensures RewriteBlock(Raw(e, lead, true), StatusLine(status, filed))
         == Raw(e.(status := Some((status, filed))), lead, true)
  {
    RawLines(e, lead, true);
    InsertInRender(e, lead, status, filed);
  }

  lemma {:induction false} JoinEnd(lines: seq<string>)
    requires lines != [] && lines[|lines| - 1] != ""
    ensures var s := Join(lines, NL); var last := lines[|lines| - 1];
      s != "" && s[|s| - 1] == last[|last| - 1]
  {
    if |lines| > 1 {
      JoinEnd(lines[1..]);
    }
  }

  lemma {:induction false} AppendedText(lines: seq<string>, line: string)
    requires lines != [] && var last := lines[|lines| - 1]; last != "" && !IsSpace(last[|last| - 1])
    ensures TrimRight(Join(lines, NL)) + NL + NL + line + NL == Join(lines + ["", line, ""], NL)
  {
    JoinEnd(lines);
    JoinAppend(lines, ["", line, ""], NL);
    assert ["", line, ""][1..] == [line, ""] && [line, ""][1..] == [""];
    assert Join([line, ""], NL) == line + NL + Join([""], NL);
    assert Join(["", line, ""], NL) == NL + (line + NL);
  }

  lemma {:induction false} NothingToReplace(e: Entry, lead: bool, line: string)
    requires e.rule != [] && e.rationale != [] && e.status.None?
    requires First(Core(e), IsStatus) == None && First(Core(e), IsProposed) == Some(ProposedLineAt(e))
    ensures RewriteLines(Render(e, lead, false), line) == None
    ensures var lines := Render(e, lead, false); lines != [] && lines[|lines| - 1] == ProposedLine(e)
  {
    FirstShift(lead, Core(e), false, IsStatus);
    FirstShift(lead, Core(e), false, IsProposed);
    CoreAt(e);
    SurroundAt(lead, Core(e), false, ProposedLineAt(e));
  }

  lemma {:induction false} AppendedLines(e: Entry, lead: bool, status: string, filed: Option<string>)
    requires e.rule != [] && e.rationale != [] && e.status.None?
    ensures Render(e.(status := Some((status, filed))), lead, true)
         == Render(e, lead, false) + ["", StatusLine(status, filed), ""]
  {
    NewStatusLines(e, lead, false, true, status, filed);
    CoreAt(e);
    SurroundAt(lead, Core(e), false, ProposedLineAt(e));
    var lines := Render(e, lead, false);
    assert lines[..|lines|] == lines;
  }

  /** A pending entry that ends the file without a line feed gets its Status line appended. */
  lemma {:induction false} RewriteAppends(e: Entry, lead: bool, status: string, filed: Option<string>)
    requires Shaped(e) && e.status.None?
    requires First(Core(e), IsStatus) == None && First(Core(e), IsProposed) == Some(ProposedLineAt(e))
    ensures RewriteBlock(Raw(e, lead, false), StatusLine(status, filed))
         == Raw(e.(status := Some((status, filed))), lead, true)
  {
    RawLines(e, lead, false);
    NothingToReplace(e, lead, StatusLine(status, filed));
    ProposedLineShape(e);
    AppendedText(Render(e, lead, false), StatusLine(status, filed));
    AppendedLines(e, lead, status, filed);
  }

  lemma {:induction false} StillWellFormed(e: Entry, status: string, filed: Option<string>)
    requires WellFormed(e) && GoodStatus(status, filed)
    ensures WellFormed(e.(status := Some((status, filed))))
  {
    var after := e.(status := Some((status, filed)));
    assert ProposedLine(after) == ProposedLine(e) && Heading(after) == Heading(e);
    assert RuleLines(after) == RuleLines(e) && RationaleLines(after) == RationaleLines(e);
  }

  lemma {:induction false} ParsedOfRewritten(e: Entry, status: string, filed: Option<string>)
    requires WellFormed(e) && WellFormed(e.(status := Some((status, filed))))
    ensures Parsed(e.(status := Some((status, filed)))) == Parsed(e).(status := Lower(status), filed := filed)
  {
    var after := e.(status := Some((status, filed)));
    assert Front(after) == Front(e) && RuleOf(after) == RuleOf(e);
  }

  /** After the rewrite the block parses to the same section, rule, date and source, hence to the same
      candidate id, with the new status and ticket. */
  lemma {:induction false} RewrittenEntryParses(e: Entry, lead: bool, trail: bool, status: string,
                                                filed: Option<string>)
    requires WellFormed(e) && GoodStatus(status, filed)
    ensures ParseBlock(RewriteBlock(Raw(e, lead, trail), StatusLine(status, filed)))
         == Some(Parsed(e).(status := Lower(status), filed := filed))
  {
    var after := e.(status := Some((status, filed)));
    StillWellFormed(e, status, filed);
    ParsedOfRewritten(e, status, filed);
    BodyNotStatus(e);
    if e.status.Some? {
      StatusAtEnd(e);
      RewriteReplaces(e, lead, trail, status, filed);
      EntryParses(after, lead, false);
    } else {
      NoStatusFound(e);
      ProposedIsFirst(e);
      if trail {
        RewriteInserts(e, lead, status, filed);
      } else {
        RewriteAppends(e, lead, status, filed);
      }
      EntryParses(after, lead, true);
    }
  }
}
