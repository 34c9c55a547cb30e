/** Sweeping and editing the candidates file: the block file with the candidate blocks in it. */
module Candidates {
  import opened Options
  import opened Text
  import opened Lines
  import opened Separators
  import opened CandidateBlocks
  import BlockFile

  function KindFrom(c: Option<Candidate>, blank: bool): BlockFile.Kind {
    match c
    case Some(c) => if c.status == "pending" then BlockFile.Pending else BlockFile.Resolved
    case None => if blank then BlockFile.BlankPiece else BlockFile.Junk
  }

  function KindOf(raw: string): BlockFile.Kind {
    KindFrom(ParseBlock(raw), Blank(raw))
  }

  lemma {:induction false} BlankTerminated(raw: string)
    ensures Blank(raw + NL) <==> Blank(raw)
  {
    assert IsSpace('\n');
    assert forall i :: 0 <= i < |raw| ==> (raw + NL)[i] == raw[i];
  }

  lemma {:induction false} KindTerminated(raw: string)
    ensures KindOf(raw + NL) == KindOf(raw)
  {
    ParseTerminated(raw);
    BlankTerminated(raw);
  }

  lemma {:induction false} EmptyParsesToNothing()
    ensures ParseBlock("") == None
  {
    assert Split("", NL) == [""];
    assert [""][1..] == [];
    assert DropFront([""]) == [];
    assert DropBack([]) == [];
    assert StripLines([""]) == [];
  }

  lemma {:induction false} KindsAreSensible()
    ensures BlockFile.Sensible(KindOf)
  {
    EmptyParsesToNothing();
    forall raw
      ensures KindOf(raw + NL) == KindOf(raw)
    {
      KindTerminated(raw);
    }
  }

  /** A second sweep of the candidates file drops nothing. */
  lemma {:induction false} SweepSettles(text: string, cap: int)
    requires BlockFile.Prune(KindOf, text, cap).Some?
    ensures BlockFile.Prune(KindOf, BlockFile.Prune(KindOf, text, cap).value, cap) == None
  {
    KindsAreSensible();
    BlockFile.SecondPruneDropsNothing(KindOf, text, cap);
  }

  // ---- A rewritten Status line breaks no separator ----

  lemma {:induction false} ReplacedStaysClean(lines: seq<string>, line: string, i: nat, m: nat)
    requires i < m <= |lines| && line != RULE
    ensures var after := lines[..i] + [line] + lines[m..];
      && (CleanLines(lines) ==> CleanLines(after))
      && (InnerClean(lines) ==> InnerClean(after))
  {
    var after := lines[..i] + [line] + lines[m..];
    assert forall k :: 0 <= k < |after| ==>
      after[k] == if k < i then lines[k] else if k == i then line else lines[k - i - 1 + m];
  }

  lemma {:induction false} InsertedStaysClean(lines: seq<string>, line: string, p: nat)
    requires p + 1 < |lines| && line != RULE
    ensures var after := lines[..p + 1] + ["", line] + lines[p + 1..];
      && (CleanLines(lines) ==> CleanLines(after))
      && (InnerClean(lines) ==> InnerClean(after))
  {
    var after := lines[..p + 1] + ["", line] + lines[p + 1..];
    assert forall k :: 0 <= k < |after| ==>
      after[k] == if k <= p then lines[k] else if k == p + 1 then "" else if k == p + 2 then line else lines[k - 2];
  }

  lemma {:induction false} AppendedStaysClean(lines: seq<string>, last: string, line: string)
    requires lines != [] && line != RULE && last != RULE
    ensures var n := |lines| - 1;
      var after := lines[..n] + [last] + ["", line, ""];
      (CleanLines(lines) || InnerClean(lines)) ==> CleanLines(after) && InnerClean(after)
  {
    var n := |lines| - 1;
    var after := lines[..n] + [last] + ["", line, ""];
    assert forall k :: 0 <= k < n ==> after[k] == lines[k];
  }

  /** Lines that stay clean make a text that keeps the block's place. */
  lemma {:induction false} LinesKeepPlace(lines: seq<string>, after: seq<string>)
    requires lines != [] && AllOneLine(lines) && after != [] && AllOneLine(after)
    requires CleanLines(lines) ==> CleanLines(after)
    requires InnerClean(lines) ==> InnerClean(after)
    ensures BlockFile.KeepsPlace(Join(lines, NL), Join(after, NL))
  {
    PlaceOfLines(lines);
    PlaceOfLines(after);
  }

  lemma {:induction false} PlaceOfLines(lines: seq<string>)
    requires lines != [] && AllOneLine(lines)
    ensures Clean(Join(lines, NL)) <==> CleanLines(lines)
    ensures Find(Join(lines, NL), SEP) == None <==> InnerClean(lines)
  {
    SplitOfLines(lines);
    CleanIs(Join(lines, NL));
    NoSeparator(lines);
  }

  lemma {:induction false} TrimRightAfter(a: string, b: string)
    requires !Blank(b)
    ensures TrimRight(a + b) == a + TrimRight(b)
  {
    if IsSpace(b[|b| - 1]) {
      var c := b[..|b| - 1];
      assert (a + b)[..|a + b| - 1] == a + c;
      assert b == c + [b[|b| - 1]];
      TrimRightAfter(a, c);
    }
  }

  lemma {:induction false} TrimRightJoin(lines: seq<string>)
    requires lines != [] && !Blank(lines[|lines| - 1])
    ensures var n := |lines| - 1; TrimRight(Join(lines, NL)) == Join(lines[..n] + [TrimRight(lines[n])], NL)
  {
    var n := |lines| - 1;
    var last := lines[n];
    if n > 0 {
      JoinAppend(lines[..n], [last], NL);
      JoinAppend(lines[..n], [TrimRight(last)], NL);
      assert lines == lines[..n] + [last];
      TrimRightAfter(Join(lines[..n], NL) + NL, last);
    } else {
      assert lines == [last] && lines[..n] + [TrimRight(last)] == [TrimRight(last)];
    }
  }

  lemma {:induction false} CutHas(s: string, pat: string)
    requires Cut(s, pat).Some? && pat != ""
    ensures pat[0] in s && forall c :: c in Cut(s, pat).value.1 ==> c in s
  {
    var i := Find(s, pat).value;
    assert s[i..i + |pat|][0] == s[i];
  }

  lemma {:induction false} ProposedHasClose(line: string)
    requires IsProposed(line)
    ensures ')' in line
  {
    CutHas(line, PROPOSED);
    var rest := Cut(line, PROPOSED).value.1;
    CutHas(rest, FROM);
    CutHas(Cut(rest, FROM).value.1, CLOSE);
  }

  lemma {:induction false} RuleHasNoClose(line: string)
    requires TrimRight(line) == RULE || Blank(line)
    ensures ')' !in line
  {
    assert !IsSpace(')');
    if TrimRight(line) == RULE {
      var z := TrimRightCuts(line);
      assert ')' !in RULE && ')' !in z;
    }
  }

  lemma {:induction false} OneLinePieces(lines: seq<string>, i: nat, j: nat, middle: seq<string>)
    requires AllOneLine(lines) && AllOneLine(middle) && i <= j <= |lines|
    ensures AllOneLine(lines[..i] + middle + lines[j..])
  {
    OneLineJoin(lines[..i], middle);
    OneLineJoin(lines[..i] + middle, lines[j..]);
  }

  lemma {:induction false} ReplacedKeepsPlace(lines: seq<string>, line: string, i: nat, m: nat)
    requires AllOneLine(lines) && OneLine(line) && line != RULE && i < m <= |lines|
    ensures BlockFile.KeepsPlace(Join(lines, NL), Join(lines[..i] + [line] + lines[m..], NL))
  {
    ReplacedStaysClean(lines, line, i, m);
    OneLinePieces(lines, i, m, [line]);
    LinesKeepPlace(lines, lines[..i] + [line] + lines[m..]);
  }

  lemma {:induction false} InsertedKeepsPlace(lines: seq<string>, line: string, p: nat)
    requires AllOneLine(lines) && OneLine(line) && line != RULE && p + 1 < |lines|
    ensures BlockFile.KeepsPlace(Join(lines, NL), Join(lines[..p + 1] + ["", line] + lines[p + 1..], NL))
  {
    InsertedStaysClean(lines, line, p);
    OneLinePieces(lines, p + 1, p + 1, ["", line]);
    LinesKeepPlace(lines, lines[..p + 1] + ["", line] + lines[p + 1..]);
  }

  lemma {:induction false} RewrittenLines(lines: seq<string>, line: string)
    requires AllOneLine(lines) && OneLine(line) && line != RULE && RewriteLines(lines, line).Some?
    ensures BlockFile.KeepsPlace(Join(lines, NL), Join(RewriteLines(lines, line).value, NL))
  {
    var status, proposed := First(lines, IsStatus), First(lines, IsProposed);
    if status.Some? {
      ReplacedKeepsPlace(lines, line, status.value, NextFilled(lines, status.value + 1));
    } else {
      InsertedKeepsPlace(lines, line, proposed.value);
    }
  }

  lemma {:induction false} AppendedLinesOf(lines: seq<string>, line: string)
    requires lines != [] && !Blank(lines[|lines| - 1])
    ensures var n := |lines| - 1;
      TrimRight(Join(lines, NL)) + NL + NL + line + NL == Join(lines[..n] + [TrimRight(lines[n])] + ["", line, ""], NL)
  {
    var n := |lines| - 1;
    TrimRightJoin(lines);
    JoinAppend(lines[..n] + [TrimRight(lines[n])], ["", line, ""], NL);
    assert ["", line, ""][1..] == [line, ""] && [line, ""][1..] == [""];
    assert Join([line, ""], NL) == line + NL + Join([""], NL);
    assert Join(["", line, ""], NL) == NL + (line + NL);
  }

  lemma {:induction false} TrimmedIsOneLine(line: string)
    requires OneLine(line)
    ensures OneLine(TrimRight(line))
  {
    var z := TrimRightCuts(line);
  }

  lemma {:induction false} AppendedKeepsPlace(lines: seq<string>, line: string, last: string)
    requires lines != [] && AllOneLine(lines) && OneLine(line) && OneLine(last) && line != RULE && last != RULE
    ensures BlockFile.KeepsPlace(Join(lines, NL), Join(lines[..|lines| - 1] + [last] + ["", line, ""], NL))
  {
    var n := |lines| - 1;
    AppendedStaysClean(lines, last, line);
    OneLineJoin(lines[..n], [last]);
    OneLineJoin(lines[..n] + [last], ["", line, ""]);
    LinesKeepPlace(lines, lines[..n] + [last] + ["", line, ""]);
  }

  lemma {:induction false} FilledLast(last: string)
    requires IsProposed(last)
    ensures TrimRight(last) != RULE && !Blank(last)
  {
    ProposedHasClose(last);
    if TrimRight(last) == RULE || Blank(last) {
      RuleHasNoClose(last);
    }
  }

  lemma {:induction false} AppendedLine(lines: seq<string>, line: string)
    requires lines != [] && AllOneLine(lines) && OneLine(line) && line != RULE && IsProposed(lines[|lines| - 1])
    ensures BlockFile.KeepsPlace(Join(lines, NL), TrimRight(Join(lines, NL)) + NL + NL + line + NL)
  {
    var last := lines[|lines| - 1];
    FilledLast(last);
    TrimmedIsOneLine(last);
    AppendedLinesOf(lines, line);
    AppendedKeepsPlace(lines, line, TrimRight(last));
  }

  lemma {:induction false} NoRoomAfter(lines: seq<string>, line: string)
    requires RewriteLines(lines, line).None? && First(lines, IsProposed).Some?
    ensures lines != [] && IsProposed(lines[|lines| - 1])
  {
  }

  lemma {:induction false} RewriteIs(raw: string, lines: seq<string>, line: string)
    requires Split(raw, NL) == lines
    ensures RewriteLines(lines, line).Some? ==> RewriteBlock(raw, line) == Join(RewriteLines(lines, line).value, NL)
    ensures RewriteLines(lines, line).None? ==> RewriteBlock(raw, line) == TrimRight(raw) + NL + NL + line + NL
  {
  }

  lemma {:induction false} PlaceKeptBy(raw: string, lines: seq<string>, line: string)
    requires Split(raw, NL) == lines && Join(lines, NL) == raw && AllOneLine(lines)
    requires First(lines, IsProposed).Some? && OneLine(line) && line != RULE
    ensures BlockFile.KeepsPlace(raw, RewriteBlock(raw, line))
  {
    RewriteIs(raw, lines, line);
    if RewriteLines(lines, line).Some? {
      RewrittenLines(lines, line);
    } else {
      NoRoomAfter(lines, line);
      AppendedLine(lines, line);
    }
  }

  /** A parsed block with its Status line rewritten can stand where it stood. */
  lemma {:induction false} RewriteKeepsPlace(raw: string, line: string)
    requires ParseBlock(raw).Some? && OneLine(line) && line != RULE
    ensures BlockFile.KeepsPlace(raw, RewriteBlock(raw, line))
  {
    ParsedHasProposed(raw);
    LinesOf(raw);
    PlaceKeptBy(raw, Split(raw, NL), line);
  }

  // ---- Updating one candidate ----

  /** How a candidate's id is made from its rule and date. */
  type IdOf = (string, string) -> string

  predicate Matches(c: Option<Candidate>, idOf: IdOf, id: string) {
    c.Some? && idOf(c.value.rule, c.value.proposedAt) == id
  }

  /** The blocks with the id. */
  function HasId(idOf: IdOf, id: string): string -> bool {
    raw => Matches(ParseBlock(raw), idOf, id)
  }

  method UpdateStatus(idOf: IdOf, text: string, id: string, status: string, filed: Option<string>)
    returns (result: Option<(string, Candidate)>)
    ensures var blocks := Split(text, SEP);
      match First(blocks, HasId(idOf, id))
      case None => result == None
      case Some(i) =>
        && result.Some?
        && result.value.0 == BlockFile.Rejoin(blocks[i := RewriteBlock(blocks[i], StatusLine(status, filed))], text)
        && Some(result.value.1) == WithStatus(ParseBlock(blocks[i]), status, filed)
  {
    var line := StatusLine(status, filed);
    var edited := BlockFile.UpdateBlock(HasId(idOf, id), raw => RewriteBlock(raw, line), text);
    match edited {
      case None => result := None;
      case Some((newText, i)) =>
        var c := ParseBlock(Split(text, SEP)[i]);
        assert Matches(c, idOf, id);
        result := Some((newText, c.value.(status := status, filed := filed)));
    }
  }

  function WithStatus(c: Option<Candidate>, status: string, filed: Option<string>): Option<Candidate> {
    if c.None? then None else Some(c.value.(status := status, filed := filed))
  }

  /** After an update, splitting the file gives the same number of blocks in the same order, every
      block but the target as it was; the last may have gained one line feed. */
  lemma {:induction false} UpdatedFileResplits(idOf: IdOf, text: string, id: string, status: string,
                                               filed: Option<string>)
    requires First(Split(text, SEP), HasId(idOf, id)).Some?
    requires OneLine(StatusLine(status, filed))
    ensures var blocks := Split(text, SEP);
      var i := First(blocks, HasId(idOf, id)).value;
      var changed := blocks[i := RewriteBlock(blocks[i], StatusLine(status, filed))];
      && Split(BlockFile.Rejoin(changed, text), SEP) == BlockFile.Restored(changed, text)
      && (forall k :: 0 <= k < i ==> !HasId(idOf, id)(blocks[k]))
  {
    var blocks := Split(text, SEP);
    var i := First(blocks, HasId(idOf, id)).value;
    forall k: nat | k < i
      ensures !HasId(idOf, id)(blocks[k])
    {
      BeforeFirst(blocks, HasId(idOf, id), k);
    }
    assert Matches(ParseBlock(blocks[i]), idOf, id);
    EmptyParsesToNothing();
    assert StatusLine(status, filed)[0] == '*';
    RewriteKeepsPlace(blocks[i], StatusLine(status, filed));
    BlockFile.EditedFileResplits(text, i, RewriteBlock(blocks[i], StatusLine(status, filed)));
  }

  /** An updated entry in the writer's format keeps its id. */
  lemma {:induction false} UpdateKeepsId(idOf: IdOf, e: Entry, lead: bool, trail: bool, status: string,
                                         filed: Option<string>, id: string)
    requires WellFormed(e) && GoodStatus(status, filed)
    ensures var after := RewriteBlock(Raw(e, lead, trail), StatusLine(status, filed));
      && HasId(idOf, id)(after) == HasId(idOf, id)(Raw(e, lead, trail))
      && ParseBlock(after) == Some(Parsed(e).(status := Lower(status), filed := filed))
  {
    EntryParses(e, lead, trail);
    RewrittenEntryParses(e, lead, trail, status, filed);
  }
}
