/**
  Capping concatenated job logs: every job's section gets a share of the budget, and a section over its share
  keeps its head and its tail.
*/
module JobLogCap {
  import opened Options
  import opened Text
  import opened Lines

  const JOB_HEADER := "### Job: "
  const MARKER := NL + JOB_HEADER
  const FLOOR := 2_000

  // ---- Sections ----

  function Headed(pieces: seq<string>): (sections: seq<string>)
    ensures |sections| == |pieces|
  {
    seq(|pieces|, i requires 0 <= i < |pieces| => if i == 0 then pieces[0] else JOB_HEADER + pieces[i])
  }

  /** One section a job, each with its header. */
  function Sections(logs: string): (sections: seq<string>)
    ensures |sections| >= 1
  {
    Headed(Split(logs, MARKER))
  }

  lemma {:induction false} HeadedRejoins(pieces: seq<string>, sections: seq<string>)
    requires pieces != [] && |sections| == |pieces|
    requires forall i :: 0 < i < |pieces| ==> sections[i] == JOB_HEADER + pieces[i]
    ensures Join(sections, NL) == sections[0] + Join(pieces, MARKER)[|pieces[0]|..]
    decreases |pieces|
  {
    if |pieces| == 1 {
    } else {
      HeadedRejoins(pieces[1..], sections[1..]);
      var rest := Join(pieces[1..], MARKER);
      JoinStartsWithFirst(pieces[1..], MARKER);
      assert rest == pieces[1] + rest[|pieces[1]|..];
      assert Join(pieces, MARKER)[|pieces[0]|..] == MARKER + rest;
      assert Join(sections, NL) == sections[0] + NL + (JOB_HEADER + pieces[1] + rest[|pieces[1]|..]);
    }
  }

  lemma {:induction false} JoinStartsWithFirst(parts: seq<string>, sep: string)
    requires parts != []
    ensures parts[0] <= Join(parts, sep)
  {
  }

  /** Sections joined by line breaks are the log again. */
  lemma {:induction false} SectionsRejoin(logs: string)
    ensures Join(Sections(logs), NL) == logs
  {
    var pieces := Split(logs, MARKER);
    SplitThenJoin(logs, MARKER);
    HeadedRejoins(pieces, Headed(pieces));
    JoinStartsWithFirst(pieces, MARKER);
    assert logs == pieces[0] + logs[|pieces[0]|..];
  }

  function Total(sections: seq<string>): (n: nat) {
    if sections == [] then 0 else Total(sections[..|sections| - 1]) + |sections[|sections| - 1]|
  }

  lemma {:induction false} JoinLength(parts: seq<string>)
    requires parts != []
    ensures |Join(parts, NL)| == Total(parts) + |parts| - 1
    decreases |parts|
  {
    var n := |parts| - 1;
    if n == 0 {
      assert parts[..0] == [];
    } else {
      JoinLength(parts[..n]);
      assert parts == parts[..n] + [parts[n]];
      JoinAppend(parts[..n], [parts[n]], NL);
    }
  }

  /** Splitting takes one line break a border and nothing else. */
  lemma {:induction false} SectionsTotal(logs: string)
    ensures Total(Sections(logs)) == |logs| - (|Sections(logs)| - 1)
  {
    SectionsRejoin(logs);
    JoinLength(Sections(logs));
  }

  // ---- The cap ----

  function Max(a: int, b: int): int { if a >= b then a else b }

  function Budget(maxChars: int, size: nat, total: nat): (b: nat)
    ensures b >= FLOOR
  {
    Max(FLOOR, maxChars * size / Max(total, 1))
  }

  datatype Part = Whole(text: string) | Cut(head: string, dropped: nat, tail: string)

  /** A section as it goes out: whole within its budget, else a quarter of the budget of its head and the
      rest of its tail. */
  ghost predicate Fits(section: string, budget: nat, part: Part) {
    match part
    case Whole(text) => text == section && |section| <= budget
    case Cut(head, dropped, tail) =>
      && |section| > budget
      && |head| == budget / 4 && |head| + |tail| == budget
      && (exists middle :: |middle| == dropped && section == head + middle + tail)
  }

  function Kept(part: Part): nat {
    match part
    case Whole(text) => |text|
    case Cut(head, _, tail) => |head| + |tail|
  }

  /** The notes put where something was cut and at the end. */
  datatype Notes = Notes(cut: (nat, nat) -> string, capped: nat -> string)

  function PartText(notes: Notes, part: Part): string {
    match part
    case Whole(text) => text
    case Cut(head, dropped, tail) => head + notes.cut(dropped, |head| + dropped + |tail|) + tail
  }

  function Texts(notes: Notes, parts: seq<Part>): seq<string> {
    seq(|parts|, i requires 0 <= i < |parts| => PartText(notes, parts[i]))
  }

  ghost predicate AllFit(sections: seq<string>, maxChars: int, parts: seq<Part>) {
    && |parts| == |sections|
    && forall i :: 0 <= i < |sections| ==> Fits(sections[i], Budget(maxChars, |sections[i]|, Total(sections)), parts[i])
  }

  method SumLengths(sections: seq<string>) returns (n: nat)
    ensures n == Total(sections)
  {
    n := 0;
    for i := 0 to |sections|
      invariant n == Total(sections[..i])
    {
      assert sections[..i + 1][..i] == sections[..i];
      n := n + |sections[i]|;
    }
    assert sections[..|sections|] == sections;
  }

  method CapSection(section: string, budget: nat) returns (part: Part)
    ensures Fits(section, budget, part)
  {
    if |section| <= budget {
      return Whole(section);
    }
    var headSize := budget / 4;
    var tailSize := budget - headSize;
    var dropped := |section| - headSize - tailSize;
    part := Cut(section[..headSize], dropped, section[|section| - tailSize..]);
    ghost var middle := section[headSize..headSize + dropped];
    assert section == section[..headSize] + middle + section[|section| - tailSize..];
  }

  /** `_cap_log_text`. */
  method CapLogText(logs: string, maxChars: int, notes: Notes) returns (result: string, parts: seq<Part>)
    ensures |logs| <= maxChars ==> result == logs
    ensures |logs| > maxChars ==>
      && AllFit(Sections(logs), maxChars, parts)
      && result == Join(Texts(notes, parts), NL) + notes.capped(|logs|)
  {
    if |logs| <= maxChars {
      return logs, [];
    }
    var sections := Sections(logs);
    var total := SumLengths(sections);
    parts := [];
    for i := 0 to |sections|
      invariant |parts| == i
      invariant forall j :: 0 <= j < i ==> Fits(sections[j], Budget(maxChars, |sections[j]|, total), parts[j])
    {
      var part := CapSection(sections[i], Budget(maxChars, |sections[i]|, total));
      parts := parts + [part];
    }
    result := Join(Texts(notes, parts), NL) + notes.capped(|logs|);
  }

  // ---- What the cap promises ----

  function AllKept(parts: seq<Part>): nat {
    if parts == [] then 0 else AllKept(parts[..|parts| - 1]) + Kept(parts[|parts| - 1])
  }

  /** The share of one section, without the floor. */
  function Share(maxChars: nat, size: nat, total: nat): (s: nat)
    requires total > 0
    ensures s * total <= maxChars * size
  {
    maxChars * size / total
  }

  lemma {:induction false} SharesWithinCap(sections: seq<string>, maxChars: nat, total: nat, parts: seq<Part>)
    returns (shares: nat)
    requires total > 0 && |parts| == |sections|
    requires forall i :: 0 <= i < |sections| ==> Fits(sections[i], Budget(maxChars, |sections[i]|, total), parts[i])
    ensures AllKept(parts) <= shares + FLOOR * |parts|
    ensures shares * total <= maxChars * Total(sections)
    decreases |sections|
  {
    if sections == [] {
      shares := 0;
    } else {
      var n := |sections| - 1;
      var before := SharesWithinCap(sections[..n], maxChars, total, parts[..n]);
      var share := Share(maxChars, |sections[n]|, total);
      shares := before + share;
      assert Fits(sections[n], Budget(maxChars, |sections[n]|, total), parts[n]);
      assert Kept(parts[n]) <= share + FLOOR;
      Distribute(before, share, total);
      Distribute(Total(sections[..n]), |sections[n]|, maxChars);
    }
  }

  lemma {:induction false} Distribute(a: int, b: int, c: int)
    ensures (a + b) * c == a * c + b * c && c * (a + b) == c * a + c * b
  {
  }

  /** Over `n` sections at most `maxChars + 2000 n` characters of log stay. */
  lemma {:induction false} KeptWithinBudget(logs: string, maxChars: nat, parts: seq<Part>)
    requires |logs| > maxChars && AllFit(Sections(logs), maxChars, parts)
    ensures AllKept(parts) <= maxChars + FLOOR * |parts|
  {
    var sections := Sections(logs);
    SectionsTotal(logs);
    if Total(sections) == 0 {
      NothingToKeep(sections, maxChars, parts);
    } else {
      var shares := SharesWithinCap(sections, maxChars, Total(sections), parts);
      CancelFactor(shares, maxChars, Total(sections));
    }
  }

  lemma {:induction false} NothingToKeep(sections: seq<string>, maxChars: int, parts: seq<Part>)
    requires Total(sections) == 0 && |parts| == |sections|
    requires forall i :: 0 <= i < |parts| ==> Kept(parts[i]) <= |sections[i]|
    ensures AllKept(parts) == 0
    decreases |parts|
  {
    if parts != [] {
      NothingToKeep(sections[..|parts| - 1], maxChars, parts[..|parts| - 1]);
    }
  }

  lemma {:induction false} CancelFactor(a: int, b: int, c: nat)
    requires c > 0 && a * c <= b * c
    ensures a <= b
  {
    ScaledOrder(b + 1, a, c);
    Distribute(b, 1, c);
  }

  lemma {:induction false} ScaledOrder(a: int, b: int, c: nat)
    ensures a <= b ==> a * c <= b * c
  {
    assert a <= b ==> (b - a) * c >= 0;
    assert b * c == a * c + (b - a) * c by {
      Distribute(a, b - a, c);
    }
  }

  /** The share of a non-empty section covers it exactly when the cap covers the whole. */
  lemma {:induction false} ShareCovers(maxChars: int, size: nat, total: nat)
    requires total > 0 && size > 0
    ensures maxChars * size / total >= size <==> maxChars >= total
  {
    var q := maxChars * size / total;
    assert q * total <= maxChars * size < (q + 1) * total;
    if maxChars >= total {
      ScaledOrder(total, maxChars, size);
      ScaledOrder(q + 1, size, total);
    }
    if q >= size {
      ScaledOrder(size, q, total);
      CancelFactor(total, maxChars, size);
    }
  }

  /** A section is cut exactly when it is over the floor and the sections together are over the cap. */
  lemma {:induction false} CutExactly(sections: seq<string>, maxChars: int, parts: seq<Part>, i: nat)
    requires AllFit(sections, maxChars, parts) && i < |sections|
    ensures parts[i].Cut? <==> |sections[i]| > FLOOR && Total(sections) > maxChars
  {
    var size, total := |sections[i]|, Total(sections);
    assert Fits(sections[i], Budget(maxChars, size, total), parts[i]);
    SectionWithinTotal(sections, i);
    if size > 0 {
      ShareCovers(maxChars, size, total);
    }
  }

  lemma {:induction false} SectionWithinTotal(sections: seq<string>, i: nat)
    requires i < |sections|
    ensures |sections[i]| <= Total(sections)
    decreases |sections|
  {
    if i < |sections| - 1 {
      SectionWithinTotal(sections[..|sections| - 1], i);
    }
  }

  /** With nothing cut the body is the log itself. */
  lemma {:induction false} NothingCutIsVerbatim(logs: string, maxChars: int, notes: Notes, parts: seq<Part>)
    requires AllFit(Sections(logs), maxChars, parts) && forall i :: 0 <= i < |parts| ==> parts[i].Whole?
    ensures Join(Texts(notes, parts), NL) == logs
  {
    SectionsRejoin(logs);
    assert forall i :: 0 <= i < |parts| ==>
      Fits(Sections(logs)[i], Budget(maxChars, |Sections(logs)[i]|, Total(Sections(logs))), parts[i]);
    assert Texts(notes, parts) == Sections(logs);
  }

  /** So a log over the cap comes back whole, with only the closing note added, exactly when none of its
      jobs is over the floor or it fits once the line breaks between jobs are not counted. */
  lemma {:induction false} OverlongLogStaysWholeExactly(logs: string, maxChars: int, parts: seq<Part>)
    requires |logs| > maxChars && AllFit(Sections(logs), maxChars, parts)
    ensures (forall i :: 0 <= i < |parts| ==> parts[i].Whole?)
      <==> (forall i :: 0 <= i < |parts| ==> |Sections(logs)[i]| <= FLOOR) || |logs| - (|parts| - 1) <= maxChars
  {
    var sections := Sections(logs);
    SectionsTotal(logs);
    forall i: nat | i < |parts|
      ensures parts[i].Cut? <==> |sections[i]| > FLOOR && Total(sections) > maxChars
    {
      CutExactly(sections, maxChars, parts, i);
    }
    assert forall i :: 0 <= i < |parts| ==> parts[i].Whole? == !parts[i].Cut?;
  }

  /** Two jobs without output. */
  const EMPTY_JOBS := [JOB_HEADER, JOB_HEADER]

  /** Their log is over its cap and comes back whole, with only the closing note added. */
  lemma {:induction false} OverlongLogExample(notes: Notes, parts: seq<Part>)
    requires AllFit(Sections(Join(EMPTY_JOBS, NL)), 10, parts)
    ensures |Join(EMPTY_JOBS, NL)| > 10 && Join(Texts(notes, parts), NL) == Join(EMPTY_JOBS, NL)
  {
    var logs := Join(EMPTY_JOBS, NL);
    assert EMPTY_JOBS[1..] == [JOB_HEADER];
    assert Join([JOB_HEADER], NL) == JOB_HEADER && |JOB_HEADER| == 9;
    assert logs == JOB_HEADER + NL + JOB_HEADER;
    SectionsTotal(logs);
    forall i: nat | i < |parts|
      ensures parts[i].Whole?
    {
      CutExactly(Sections(logs), 10, parts, i);
      SectionWithinTotal(Sections(logs), i);
    }
    NothingCutIsVerbatim(logs, 10, notes, parts);
  }
}
