/**
  The changed line ranges of a unified diff: splitting it by file, reading the hunk headers, and reading back
  what a printed diff says.
*/
module DiffRanges {
  import opened Options
  import opened Text
  import opened Lines
  import opened Ranges
  import Sequences

  // ---- Hunk headers ----

  /** One side of a hunk header; the count is left out for a single line. */
  datatype Span = Span(start: nat, count: Option<nat>)

  datatype Header = Header(before: Span, after: Span)

  function Count(s: Span): nat { if s.count.Some? then s.count.value else 1 }

  predicate IsDigit(c: char) { '0' <= c <= '9' }

  function DigitsLength(s: string): (n: nat)
    ensures n <= |s|
  {
    if s == "" || !IsDigit(s[0]) then 0 else 1 + DigitsLength(s[1..])
  }

  /** The value of a row of digits. */
  function Value(digits: string): nat {
    if digits == "" then 0
    else
      var n := |digits| - 1;
      var d := digits[n] as int - '0' as int;
      10 * Value(digits[..n]) + if 0 <= d then d else 0
  }

  function Skip(s: string, expected: string): Option<string> {
    if expected <= s then Some(s[|expected|..]) else None
  }

  function TakeNumber(s: string): Option<(nat, string)> {
    var n := DigitsLength(s);
    if n == 0 then None else Some((Value(s[..n]), s[n..]))
  }

  /** A number and, if one follows a comma, a count. */
  function TakeSpan(s: string): Option<(Span, string)> {
    match TakeNumber(s)
    case None => None
    case Some((start, rest)) =>
      match Skip(rest, ",")
      case None => Some((Span(start, None), rest))
      case Some(more) =>
        match TakeNumber(more)
        case None => Some((Span(start, None), rest))
        case Some((count, tail)) => Some((Span(start, Some(count)), tail))
  }

  function TakeSides(s: string): Option<(Header, string)> {
    match TakeSpan(s)
    case None => None
    case Some((before, rest)) =>
      match Skip(rest, " +")
      case None => None
      case Some(more) =>
        match TakeSpan(more)
        case None => None
        case Some((after, tail)) => Some((Header(before, after), tail))
  }

  /** The hunk header a line starts with. */
  function ReadHeader(line: string): Option<Header> {
    match Skip(line, "@@ -")
    case None => None
    case Some(rest) =>
      match TakeSides(rest)
      case None => None
      case Some((header, tail)) => if Skip(tail, " @@").Some? then Some(header) else None
  }

  function Headers(lines: seq<string>): seq<Header> {
    if lines == [] then [] else AsSeq(ReadHeader(lines[0])) + Headers(lines[1..])
  }

  lemma {:induction false} HeadersOfConcat(a: seq<string>, b: seq<string>)
    ensures Headers(a + b) == Headers(a) + Headers(b)
    decreases |a|
  {
    if a == [] {
      assert a + b == b;
    } else {
      assert (a + b)[1..] == a[1..] + b;
      HeadersOfConcat(a[1..], b);
    }
  }

  // ---- White space at the end of the text ----

  lemma {:induction false} SkipSpaced(s: string, expected: string, c: char)
    requires expected != "" && IsSpace(c) && !IsSpace(expected[|expected| - 1])
    ensures Skip(s + [c], expected) == if Skip(s, expected).Some? then Some(Skip(s, expected).value + [c]) else None
  {
    var n := |expected|;
    if n <= |s| {
      assert (s + [c])[..n] == s[..n] && (s + [c])[n..] == s[n..] + [c];
    } else if n == |s| + 1 {
      assert (s + [c])[n - 1] == c;
    }
  }

  lemma {:induction false} DigitsSpaced(s: string, c: char)
    requires IsSpace(c)
    ensures DigitsLength(s + [c]) == DigitsLength(s)
    decreases |s|
  {
    if s != "" {
      assert (s + [c])[1..] == s[1..] + [c];
      DigitsSpaced(s[1..], c);
    }
  }

  lemma {:induction false} NumberSpaced(s: string, c: char)
    requires IsSpace(c)
    ensures TakeNumber(s + [c])
      == if TakeNumber(s).Some? then Some((TakeNumber(s).value.0, TakeNumber(s).value.1 + [c])) else None
  {
    DigitsSpaced(s, c);
    var n := DigitsLength(s);
    assert (s + [c])[..n] == s[..n] && (s + [c])[n..] == s[n..] + [c];
  }

  lemma {:induction false} SpanSpaced(s: string, c: char)
    requires IsSpace(c)
    ensures TakeSpan(s + [c])
      == if TakeSpan(s).Some? then Some((TakeSpan(s).value.0, TakeSpan(s).value.1 + [c])) else None
  {
    NumberSpaced(s, c);
    if TakeNumber(s).Some? {
      var rest := TakeNumber(s).value.1;
      SkipSpaced(rest, ",", c);
      if Skip(rest, ",").Some? {
        NumberSpaced(Skip(rest, ",").value, c);
      }
    }
  }

  lemma {:induction false} SidesSpaced(s: string, c: char)
    requires IsSpace(c)
    ensures TakeSides(s + [c])
      == if TakeSides(s).Some? then Some((TakeSides(s).value.0, TakeSides(s).value.1 + [c])) else None
  {
    SpanSpaced(s, c);
    if TakeSpan(s).Some? {
      var rest := TakeSpan(s).value.1;
      SkipSpaced(rest, " +", c);
      if Skip(rest, " +").Some? {
        SpanSpaced(Skip(rest, " +").value, c);
      }
    }
  }

  lemma {:induction false} HeaderSpaced(line: string, c: char)
    requires IsSpace(c)
    ensures ReadHeader(line + [c]) == ReadHeader(line)
  {
    SkipSpaced(line, "@@ -", c);
    if Skip(line, "@@ -").Some? {
      var rest := Skip(line, "@@ -").value;
      SidesSpaced(rest, c);
      if TakeSides(rest).Some? {
        SkipSpaced(TakeSides(rest).value.1, " @@", c);
      }
    }
  }

  lemma {:induction false} JoinLonger(front: seq<string>, last: string, tail: string)
    ensures Join(front + [last + tail], NL) == Join(front + [last], NL) + tail
  {
    if front == [] {
      Sequences.WithNothing([last]);
      Sequences.WithNothing([last + tail]);
    } else {
      JoinAppend(front, [last], NL);
      JoinAppend(front, [last + tail], NL);
      Sequences.Regroup(Join(front, NL) + NL, last, tail);
    }
  }

  lemma {:induction false} LongerLine(front: seq<string>, last: string, c: char)
    requires c != '\n' && OneLine(last) && forall i :: 0 <= i < |front| ==> OneLine(front[i])
    ensures Split(Join(front + [last], NL) + [c], NL) == front + [last + [c]]
  {
    JoinLonger(front, last, [c]);
    SplitOfLines(front + [last + [c]]);
  }

  lemma {:induction false} SplitSpaced(s: string, c: char)
    requires c != '\n'
    ensures var lines := Split(s, NL); var n := |lines| - 1;
      Split(s + [c], NL) == lines[..n] + [lines[n] + [c]]
  {
    LinesOf(s);
    var lines := Split(s, NL);
    Sequences.FrontAndLast(lines);
    LongerLine(lines[..|lines| - 1], lines[|lines| - 1], c);
  }

  lemma {:induction false} HeadersSpaced(s: string, c: char)
    requires IsSpace(c)
    ensures Headers(Split(s + [c], NL)) == Headers(Split(s, NL))
  {
    var lines := Split(s, NL);
    if c == '\n' {
      LinesOfTerminated(s);
      HeadersOfConcat(lines, [""]);
      assert [""][1..] == [];
    } else {
      var n := |lines| - 1;
      SplitSpaced(s, c);
      assert lines == lines[..n] + [lines[n]];
      HeadersOfConcat(lines[..n], [lines[n]]);
      HeadersOfConcat(lines[..n], [lines[n] + [c]]);
      HeaderSpaced(lines[n], c);
      assert [lines[n]][1..] == [] && [lines[n] + [c]][1..] == [];
    }
  }

  lemma {:induction false} HeadersTrimmed(s: string)
    ensures Headers(Split(TrimRight(s), NL)) == Headers(Split(s, NL))
    decreases |s|
  {
    if s != "" && IsSpace(s[|s| - 1]) {
      var n := |s| - 1;
      assert s == s[..n] + [s[n]];
      HeadersSpaced(s[..n], s[n]);
      HeadersTrimmed(s[..n]);
    }
  }

  // ---- Splitting by file ----

  const FILE_MARK := "diff --git "
  const PATH_MARK := "+++ b/"
  const DEV_NULL := "/dev/null"

  predicate StartsFile(line: string) { FILE_MARK <= line }

  /** The lines before the first file mark, then a chunk from each mark on. */
  function Chunks(lines: seq<string>): (chunks: seq<seq<string>>)
    ensures |chunks| >= 1
  {
    if lines == [] then [[]]
    else
      var rest := Chunks(lines[1..]);
      (if StartsFile(lines[0]) then [[]] else []) + [[lines[0]] + rest[0]] + rest[1..]
  }

  /** The path of the first line that names one. */
  function PathOf(chunk: seq<string>): Option<string> {
    if chunk == [] then None
    else if PATH_MARK < chunk[0] then Some(chunk[0][|PATH_MARK|..])
    else PathOf(chunk[1..])
  }

  datatype FileText = FileText(path: string, text: string)

  function FileOf(chunk: seq<string>): Option<FileText> {
    var stripped := Strip(Join(chunk, NL));
    if stripped == "" || PathOf(chunk).None? || PathOf(chunk) == Some(DEV_NULL) then None
    else Some(FileText(PathOf(chunk).value, stripped))
  }

  function FilesOf(chunks: seq<seq<string>>): seq<FileText> {
    if chunks == [] then []
    else FilesOf(chunks[..|chunks| - 1]) + AsSeq(FileOf(chunks[|chunks| - 1]))
  }

  /** `_split_diff_by_file`. */
  method SplitDiffByFile(diff: string) returns (files: seq<FileText>)
    ensures files == FilesOf(Chunks(Split(diff, NL)))
  {
    files := CollectFiles(Chunks(Split(diff, NL)));
  }

  method CollectFiles(chunks: seq<seq<string>>) returns (files: seq<FileText>)
    ensures files == FilesOf(chunks)
  {
    files := [];
    for i := 0 to |chunks|
      invariant files == FilesOf(chunks[..i])
    {
      Sequences.OneFurther(chunks, i);
      FilesOfMore(chunks[..i], chunks[i]);
      var file := FileOf(chunks[i]);
      if file.Some? {
        files := files + [file.value];
      }
    }
    Sequences.Whole(chunks);
  }

  lemma {:induction false} FilesOfMore(chunks: seq<seq<string>>, chunk: seq<string>)
    ensures FilesOf(chunks + [chunk]) == FilesOf(chunks) + AsSeq(FileOf(chunk))
  {
    Sequences.Parts(chunks, [chunk]);
  }

  // ---- Ranges by path ----

  predicate Modified(h: Header) { Count(h.before) != 0 && Count(h.after) != 0 }

  /** The new side of a hunk. */
  function RangeOf(h: Header): Range { Range(h.after.start, h.after.start + Count(h.after) - 1) }

  function HeaderRanges(headers: seq<Header>): seq<Range> {
    if headers == [] then []
    else
      var n := |headers| - 1;
      HeaderRanges(headers[..n]) + if Modified(headers[n]) then [RangeOf(headers[n])] else []
  }

  lemma {:induction false} HeaderRangesMore(headers: seq<Header>, h: Header)
    ensures HeaderRanges(headers + [h]) == HeaderRanges(headers) + if Modified(h) then [RangeOf(h)] else []
  {
    Sequences.Parts(headers, [h]);
  }

  function RangesFor(files: seq<FileText>, path: string): seq<Range> {
    if files == [] then []
    else
      var n := |files| - 1;
      RangesFor(files[..n], path)
      + OwnRanges(files[n], path)
  }

  type PathRanges = map<string, seq<Range>>

  function At(ranges: PathRanges, path: string): seq<Range> {
    if path in ranges then ranges[path] else []
  }

  ghost predicate NoEmptyLists(ranges: PathRanges) {
    forall p :: p in ranges ==> ranges[p] != []
  }

  method AppendRange(before: PathRanges, path: string, r: Range) returns (ranges: PathRanges)
    requires NoEmptyLists(before)
    ensures NoEmptyLists(ranges)
    ensures At(ranges, path) == At(before, path) + [r] && forall p :: p != path ==> At(ranges, p) == At(before, p)
  {
    ranges := before[path := At(before, path) + [r]];
  }

  /** The inner loop, over the hunk headers of one file. */
  method AddHeaders(before: PathRanges, path: string, headers: seq<Header>) returns (ranges: PathRanges)
    requires NoEmptyLists(before)
    ensures NoEmptyLists(ranges)
    ensures forall p :: At(ranges, p) == At(before, p) + if p == path then HeaderRanges(headers) else []
  {
    ranges := before;
    for j := 0 to |headers|
      invariant NoEmptyLists(ranges)
      invariant At(ranges, path) == At(before, path) + HeaderRanges(headers[..j])
      invariant forall p :: p != path ==> At(ranges, p) == At(before, p)
    {
      Sequences.OneFurther(headers, j);
      HeaderRangesMore(headers[..j], headers[j]);
      if Modified(headers[j]) {
        Sequences.Regroup(At(before, path), HeaderRanges(headers[..j]), [RangeOf(headers[j])]);
        ranges := AppendRange(ranges, path, RangeOf(headers[j]));
      }
    }
    Sequences.Whole(headers);
  }

  /** `changed_line_ranges_from_diff`. */
  method ChangedLineRanges(diff: string) returns (ranges: PathRanges)
    ensures NoEmptyLists(ranges)
    ensures forall p :: At(ranges, p) == RangesFor(FilesOf(Chunks(Split(diff, NL))), p)
  {
    var files := SplitDiffByFile(diff);
    ranges := CollectRanges(files);
  }

  method CollectRanges(files: seq<FileText>) returns (ranges: PathRanges)
    ensures NoEmptyLists(ranges)
    ensures forall p :: At(ranges, p) == RangesFor(files, p)
  {
    ranges := map[];
    for i := 0 to |files|
      invariant NoEmptyLists(ranges)
      invariant forall p :: At(ranges, p) == RangesFor(files[..i], p)
    {
      ghost var before := ranges;
      ranges := AddHeaders(ranges, files[i].path, Headers(Split(files[i].text, NL)));
      forall p
        ensures At(ranges, p) == RangesFor(files[..i + 1], p)
      {
        RangesForStep(files, i, p);
      }
    }
    Sequences.Whole(files);
  }

  function OwnRanges(file: FileText, path: string): seq<Range> {
    if file.path == path then HeaderRanges(Headers(Split(file.text, NL))) else []
  }

  lemma {:induction false} RangesForStep(files: seq<FileText>, i: nat, path: string)
    requires i < |files|
    ensures RangesFor(files[..i + 1], path) == RangesFor(files[..i], path) + OwnRanges(files[i], path)
  {
    Sequences.OneFurther(files, i);
  }

  // ---- Printed diffs ----

  function Digits(n: nat): (s: string)
    ensures s != "" && forall i :: 0 <= i < |s| ==> IsDigit(s[i])
  {
    if n < 10 then [('0' as int + n) as char] else Digits(n / 10) + [('0' as int + n % 10) as char]
  }

  function SpanText(s: Span): string {
    Digits(s.start) + if s.count.Some? then "," + Digits(s.count.value) else ""
  }

  function HeaderText(h: Header): string { "@@ -" + SpanText(h.before) + " +" + SpanText(h.after) + " @@" }

  datatype Hunk = Hunk(header: Header, heading: string, body: seq<string>)

  /** One file's part of a diff; without a path for a deleted or binary file. */
  datatype FileDiff = FileDiff(names: string, notes: seq<string>, path: Option<string>, hunks: seq<Hunk>)

  function HunkLines(h: Hunk): seq<string> { [HeaderText(h.header) + h.heading] + h.body }

  function HunksLines(hunks: seq<Hunk>): seq<string> {
    if hunks == [] then [] else HunkLines(hunks[0]) + HunksLines(hunks[1..])
  }

  function PathLines(path: Option<string>): seq<string> {
    if path.Some? then [PATH_MARK + path.value] else []
  }

  function FileLines(f: FileDiff): seq<string> {
    [FILE_MARK + f.names] + f.notes + PathLines(f.path) + HunksLines(f.hunks)
  }

  function Blocks(files: seq<FileDiff>): seq<seq<string>> {
    seq(|files|, i requires 0 <= i < |files| => FileLines(files[i]))
  }

  function Flat(blocks: seq<seq<string>>): seq<string> {
    if blocks == [] then [] else blocks[0] + Flat(blocks[1..])
  }

  function DiffLines(files: seq<FileDiff>): seq<string> { Flat(Blocks(files)) }

  /** The diff with every line terminated. */
  function DiffText(files: seq<FileDiff>): string { Join(DiffLines(files) + [""], NL) }

  /** A line of a hunk's body starts with a blank, a plus, a minus or a backslash. */
  predicate BodyLine(line: string) {
    OneLine(line) && line != "" && (line[0] == ' ' || line[0] == '+' || line[0] == '-' || line[0] == '\\')
  }

  /** Any other line starts no file, names no path and holds no hunk header. */
  predicate NoteLine(line: string) {
    OneLine(line) && !StartsFile(line) && !(PATH_MARK <= line) && ReadHeader(line).None?
  }

  predicate HunkReads(h: Hunk, named: bool) {
    OneLine(h.heading) && forall i :: 0 <= i < |h.body| ==> BodyLine(h.body[i]) && (named || !(PATH_MARK <= h.body[i]))
  }

  predicate Printable(f: FileDiff) {
    && OneLine(f.names)
    && (forall i :: 0 <= i < |f.notes| ==> NoteLine(f.notes[i]))
    && (f.path.Some? ==> f.path.value != "" && OneLine(f.path.value) && f.path.value != DEV_NULL)
    && (forall i :: 0 <= i < |f.hunks| ==> HunkReads(f.hunks[i], f.path.Some?))
  }

  // Numbers and headers read back.

  lemma {:induction false} ValueOfDigits(n: nat)
    ensures Value(Digits(n)) == n
  {
    if n >= 10 {
      ValueOfDigits(n / 10);
      var last := [('0' as int + n % 10) as char];
      assert (Digits(n / 10) + last)[..|Digits(n / 10)|] == Digits(n / 10);
    } else {
      assert Digits(n)[..0] == "";
    }
  }

  predicate EndsNumber(rest: string) { rest == "" || !IsDigit(rest[0]) }

  lemma {:induction false} DigitsEnd(digits: string, rest: string)
    requires (forall i :: 0 <= i < |digits| ==> IsDigit(digits[i])) && EndsNumber(rest)
    ensures DigitsLength(digits + rest) == |digits|
    decreases |digits|
  {
    if digits == "" {
      assert digits + rest == rest;
    } else {
      assert (digits + rest)[1..] == digits[1..] + rest;
      DigitsEnd(digits[1..], rest);
    }
  }

  lemma {:induction false} NumberReads(n: nat, rest: string)
    requires EndsNumber(rest)
    ensures TakeNumber(Digits(n) + rest) == Some((n, rest))
  {
    var digits := Digits(n);
    DigitsEnd(digits, rest);
    ValueOfDigits(n);
    assert (digits + rest)[..|digits|] == digits && (digits + rest)[|digits|..] == rest;
  }

  lemma {:induction false} SkipReads(expected: string, rest: string)
    ensures Skip(expected + rest, expected) == Some(rest)
  {
    assert (expected + rest)[|expected|..] == rest;
  }

  lemma {:induction false} SpanReads(s: Span, rest: string)
    requires rest != "" && rest[0] == ' '
    ensures TakeSpan(SpanText(s) + rest) == Some((s, rest))
  {
    match s.count {
      case None =>
        assert SpanText(s) + rest == Digits(s.start) + rest;
        NumberReads(s.start, rest);
      case Some(count) =>
        var more := Digits(count) + rest;
        assert SpanText(s) + rest == Digits(s.start) + ("," + more);
        NumberReads(s.start, "," + more);
        SkipReads(",", more);
        NumberReads(count, rest);
    }
  }

  lemma {:induction false} SidesRead(h: Header, tail: string)
    requires tail != "" && tail[0] == ' '
    ensures TakeSides(SpanText(h.before) + (" +" + (SpanText(h.after) + tail))) == Some((h, tail))
  {
    var second := SpanText(h.after) + tail;
    SpanReads(h.before, " +" + second);
    SkipReads(" +", second);
    SpanReads(h.after, tail);
  }

  lemma {:induction false} HeaderReads(h: Header, heading: string)
    ensures ReadHeader(HeaderText(h) + heading) == Some(h)
  {
    var tail := " @@" + heading;
    var sides := SpanText(h.before) + (" +" + (SpanText(h.after) + tail));
    assert HeaderText(h) + heading == "@@ -" + sides;
    SkipReads("@@ -", sides);
    SidesRead(h, tail);
    SkipReads(" @@", heading);
  }

  lemma {:induction false} BodyIsQuiet(line: string)
    requires BodyLine(line)
    ensures ReadHeader(line).None? && !StartsFile(line)
  {
  }

  lemma {:induction false} QuietHeaders(lines: seq<string>)
    requires forall i :: 0 <= i < |lines| ==> ReadHeader(lines[i]).None?
    ensures Headers(lines) == []
    decreases |lines|
  {
    if lines != [] {
      QuietHeaders(lines[1..]);
    }
  }

  function HunkHeaders(hunks: seq<Hunk>): seq<Header> {
    if hunks == [] then [] else [hunks[0].header] + HunkHeaders(hunks[1..])
  }

  lemma {:induction false} HunkLinesRead(h: Hunk, named: bool)
    requires HunkReads(h, named)
    ensures Headers(HunkLines(h)) == [h.header]
  {
    HeaderReads(h.header, h.heading);
    forall i | 0 <= i < |h.body|
      ensures ReadHeader(h.body[i]).None?
    {
      BodyIsQuiet(h.body[i]);
    }
    QuietHeaders(h.body);
    assert HunkLines(h)[1..] == h.body;
  }

  lemma {:induction false} HunksRead(hunks: seq<Hunk>, named: bool)
    requires forall i :: 0 <= i < |hunks| ==> HunkReads(hunks[i], named)
    ensures Headers(HunksLines(hunks)) == HunkHeaders(hunks)
    decreases |hunks|
  {
    if hunks != [] {
      HunkLinesRead(hunks[0], named);
      HunksRead(hunks[1..], named);
      HeadersOfConcat(HunkLines(hunks[0]), HunksLines(hunks[1..]));
    }
  }

  lemma {:induction false} FileHeadersRead(f: FileDiff)
    requires Printable(f)
    ensures Headers(FileLines(f)) == HunkHeaders(f.hunks)
  {
    var top := [FILE_MARK + f.names] + f.notes + PathLines(f.path);
    forall i | 0 <= i < |top|
      ensures ReadHeader(top[i]).None?
    {
      if i == 0 {
        assert top[0][0] == 'd';
      } else if i <= |f.notes| {
        assert top[i] == f.notes[i - 1];
      } else {
        assert top[i][0] == '+';
      }
    }
    QuietHeaders(top);
    HeadersOfConcat(top, HunksLines(f.hunks));
    HunksRead(f.hunks, f.path.Some?);
  }

  // The path reads back.

  lemma {:induction false} PathSkips(quiet: seq<string>, rest: seq<string>)
    requires forall i :: 0 <= i < |quiet| ==> !(PATH_MARK <= quiet[i])
    ensures PathOf(quiet + rest) == PathOf(rest)
    decreases |quiet|
  {
    if quiet == [] {
      assert quiet + rest == rest;
    } else {
      assert (quiet + rest)[1..] == quiet[1..] + rest;
      PathSkips(quiet[1..], rest);
    }
  }

  lemma {:induction false} NoPathInHunks(hunks: seq<Hunk>)
    requires forall i :: 0 <= i < |hunks| ==> HunkReads(hunks[i], false)
    ensures forall i :: 0 <= i < |HunksLines(hunks)| ==> !(PATH_MARK <= HunksLines(hunks)[i])
    decreases |hunks|
  {
    if hunks != [] {
      NoPathInHunks(hunks[1..]);
      assert HunkLines(hunks[0])[0][0] == '@';
    }
  }

  lemma {:induction false} FilePathReads(f: FileDiff, end: seq<string>)
    requires Printable(f) && (end == [] || end == [""])
    ensures PathOf(FileLines(f) + end) == f.path
  {
    var top := [FILE_MARK + f.names] + f.notes;
    assert top[0][0] == 'd';
    assert forall i :: 0 < i < |top| ==> top[i] == f.notes[i - 1];
    var below := HunksLines(f.hunks) + end;
    match f.path {
      case Some(path) =>
        assert FileLines(f) + end == top + ([PATH_MARK + path] + below);
        PathSkips(top, [PATH_MARK + path] + below);
        assert (PATH_MARK + path)[|PATH_MARK|..] == path;
      case None =>
        NoPathInHunks(f.hunks);
        assert FileLines(f) + end == top + below + [];
        PathSkips(top + below, []);
    }
  }

  // The chunks are the files.

  lemma {:induction false} QuietPrefix(quiet: seq<string>, rest: seq<string>)
    requires forall i :: 0 <= i < |quiet| ==> !StartsFile(quiet[i])
    ensures Chunks(quiet + rest) == [quiet + Chunks(rest)[0]] + Chunks(rest)[1..]
    decreases |quiet|
  {
    if quiet == [] {
      assert quiet + rest == rest && [] + Chunks(rest)[0] == Chunks(rest)[0];
    } else {
      assert (quiet + rest)[1..] == quiet[1..] + rest;
      QuietPrefix(quiet[1..], rest);
      assert [quiet[0]] + (quiet[1..] + Chunks(rest)[0]) == quiet + Chunks(rest)[0];
    }
  }

  lemma {:induction false} NoMarkInHunks(hunks: seq<Hunk>, named: bool)
    requires forall i :: 0 <= i < |hunks| ==> HunkReads(hunks[i], named)
    ensures forall i :: 0 <= i < |HunksLines(hunks)| ==> !StartsFile(HunksLines(hunks)[i])
    decreases |hunks|
  {
    if hunks != [] {
      NoMarkInHunks(hunks[1..], named);
      assert HunkLines(hunks[0])[0][0] == '@';
    }
  }

  /** A file mark with the lines up to the next one. */
  ghost predicate IsBlock(block: seq<string>) {
    block != [] && StartsFile(block[0]) && forall i :: 0 < i < |block| ==> !StartsFile(block[i])
  }

  lemma {:induction false} FileIsBlock(f: FileDiff)
    requires Printable(f)
    ensures IsBlock(FileLines(f))
  {
    NoMarkInHunks(f.hunks, f.path.Some?);
    var top := [FILE_MARK + f.names] + f.notes;
    assert forall i :: 0 < i < |top| ==> top[i] == f.notes[i - 1];
    forall i | 0 <= i < |PathLines(f.path)|
      ensures !StartsFile(PathLines(f.path)[i])
    {
      assert PathLines(f.path)[i][0] == '+';
    }
  }

  lemma {:induction false} BlockIsOneChunk(block: seq<string>, rest: seq<string>)
    requires IsBlock(block)
    ensures Chunks(block + rest) == [[]] + [block + Chunks(rest)[0]] + Chunks(rest)[1..]
  {
    var first, quiet := block[0], block[1..];
    QuietPrefix(quiet, rest);
    assert (block + rest)[1..] == quiet + rest;
    assert [first] + (quiet + Chunks(rest)[0]) == block + Chunks(rest)[0];
  }

  /** The blocks as the splitter leaves them: the last has the empty line after the final line feed. */
  function Ended(blocks: seq<seq<string>>): (chunks: seq<seq<string>>)
    ensures |chunks| == |blocks|
  {
    if blocks == [] then []
    else [blocks[0] + if |blocks| == 1 then [""] else []] + Ended(blocks[1..])
  }

  lemma {:induction false} BlockFirst(block: seq<string>, below: seq<seq<string>>, chunks: seq<seq<string>>)
    requires chunks == if below == [] then [[""]] else [[]] + Ended(below)
    ensures [[]] + [block + chunks[0]] + chunks[1..] == [[]] + Ended([block] + below)
  {
    Sequences.Parts([block], below);
    if below != [] {
      Sequences.WithNothing(block);
    }
  }

  lemma {:induction false} BlocksAreChunks(blocks: seq<seq<string>>)
    requires forall i :: 0 <= i < |blocks| ==> IsBlock(blocks[i])
    ensures Chunks(Flat(blocks) + [""]) == if blocks == [] then [[""]] else [[]] + Ended(blocks)
    decreases |blocks|
  {
    if blocks == [] {
      QuietPrefix([""], []);
      assert Flat(blocks) + [""] == [""] + [] && [""] + Chunks([])[0] == [""];
    } else {
      var rest := Flat(blocks[1..]) + [""];
      BlocksAreChunks(blocks[1..]);
      Sequences.Regroup(blocks[0], Flat(blocks[1..]), [""]);
      BlockIsOneChunk(blocks[0], rest);
      BlockFirst(blocks[0], blocks[1..], Chunks(rest));
    }
  }

  lemma {:induction false} EndedAt(blocks: seq<seq<string>>, i: nat)
    requires i < |blocks|
    ensures Ended(blocks)[i] == blocks[i] + if i == |blocks| - 1 then [""] else []
    decreases |blocks|
  {
    if i > 0 {
      EndedAt(blocks[1..], i - 1);
    }
  }

  // Each chunk reads back as its file.

  lemma {:induction false} HunksAreLines(hunks: seq<Hunk>, named: bool)
    requires forall i :: 0 <= i < |hunks| ==> HunkReads(hunks[i], named)
    ensures forall i :: 0 <= i < |HunksLines(hunks)| ==> OneLine(HunksLines(hunks)[i])
    decreases |hunks|
  {
    if hunks != [] {
      HunksAreLines(hunks[1..], named);
      HeaderIsLine(hunks[0].header);
    }
  }

  lemma {:induction false} HeaderIsLine(h: Header)
    ensures OneLine(HeaderText(h))
  {
    SpanIsLine(h.before);
    SpanIsLine(h.after);
  }

  lemma {:induction false} SpanIsLine(s: Span)
    ensures OneLine(SpanText(s))
  {
  }

  lemma {:induction false} FileIsLines(f: FileDiff)
    requires Printable(f)
    ensures forall i :: 0 <= i < |FileLines(f)| ==> OneLine(FileLines(f)[i])
  {
    HunksAreLines(f.hunks, f.path.Some?);
  }

  lemma {:induction false} ChunkHeaders(f: FileDiff, end: seq<string>)
    requires Printable(f) && (end == [] || end == [""])
    ensures var text := Join(FileLines(f) + end, NL);
      && Strip(text) != ""
      && Headers(Split(Strip(text), NL)) == HunkHeaders(f.hunks)
  {
    var lines := FileLines(f) + end;
    FileIsLines(f);
    var text := Join(lines, NL);
    SplitOfLines(lines);
    assert lines[0] == FILE_MARK + f.names && text[0] == 'd';
    assert TrimLeft(text) == text;
    TrimKeepsStart(text);
    HeadersTrimmed(text);
    HeadersOfConcat(FileLines(f), end);
    FileHeadersRead(f);
    QuietHeaders(end);
  }

  lemma {:induction false} TrimKeepsStart(s: string)
    requires s != "" && !IsSpace(s[0])
    ensures TrimRight(s) != ""
    decreases |s|
  {
    if IsSpace(s[|s| - 1]) {
      TrimKeepsStart(s[..|s| - 1]);
    }
  }

  lemma {:induction false} ChunkReads(f: FileDiff, end: seq<string>)
    requires Printable(f) && (end == [] || end == [""])
    ensures var file := FileOf(FileLines(f) + end);
      && (file.None? <==> f.path.None?)
      && (file.Some? ==> Some(file.value.path) == f.path && Headers(Split(file.value.text, NL)) == HunkHeaders(f.hunks))
  {
    ChunkHeaders(f, end);
    FilePathReads(f, end);
  }

  /** The ranges of the modified hunks of a path, in order. */
  function DiffRangesFor(files: seq<FileDiff>, path: string): seq<Range> {
    if files == [] then []
    else
      var n := |files| - 1;
      DiffRangesFor(files[..n], path)
      + if files[n].path == Some(path) then HeaderRanges(HunkHeaders(files[n].hunks)) else []
  }

  lemma {:induction false} RangesForMore(files: seq<FileText>, more: Option<FileText>, path: string)
    ensures RangesFor(files + AsSeq(more), path)
      == RangesFor(files, path) + if more.Some? then OwnRanges(more.value, path) else []
  {
    if more.Some? {
      Sequences.Parts(files, [more.value]);
    } else {
      Sequences.WithNothing(files);
    }
  }

  /** One file further. */
  lemma {:induction false} ChunkAddsRanges(chunks: seq<seq<string>>, f: FileDiff, end: seq<string>, path: string)
    requires Printable(f) && (end == [] || end == [""])
    ensures RangesFor(FilesOf(chunks + [FileLines(f) + end]), path)
      == RangesFor(FilesOf(chunks), path) + if f.path == Some(path) then HeaderRanges(HunkHeaders(f.hunks)) else []
  {
    FilesOfMore(chunks, FileLines(f) + end);
    RangesForMore(FilesOf(chunks), FileOf(FileLines(f) + end), path);
    ChunkReads(f, end);
  }

  lemma {:induction false} DiffRangesMore(files: seq<FileDiff>, f: FileDiff, path: string)
    ensures DiffRangesFor(files + [f], path)
      == DiffRangesFor(files, path) + if f.path == Some(path) then HeaderRanges(HunkHeaders(f.hunks)) else []
  {
    Sequences.Parts(files, [f]);
  }

  ghost predicate ChunkOf(f: FileDiff, chunk: seq<string>) {
    Printable(f) && exists end :: (end == [] || end == [""]) && chunk == FileLines(f) + end
  }

  lemma {:induction false} ChunksReadBack(files: seq<FileDiff>, chunks: seq<seq<string>>, path: string)
    requires |chunks| == |files| && forall i :: 0 <= i < |files| ==> ChunkOf(files[i], chunks[i])
    ensures RangesFor(FilesOf(chunks), path) == DiffRangesFor(files, path)
    decreases |files|
  {
    if files != [] {
      var n := |files| - 1;
      ChunksReadBack(files[..n], chunks[..n], path);
      Sequences.FrontAndLast(files);
      Sequences.FrontAndLast(chunks);
      DiffRangesMore(files[..n], files[n], path);
      var end :| (end == [] || end == [""]) && chunks[n] == FileLines(files[n]) + end;
      ChunkAddsRanges(chunks[..n], files[n], end, path);
    }
  }

  lemma {:induction false} EndedAreChunks(files: seq<FileDiff>)
    requires forall i :: 0 <= i < |files| ==> Printable(files[i])
    ensures var chunks := Ended(Blocks(files)); forall i :: 0 <= i < |files| ==> ChunkOf(files[i], chunks[i])
  {
    forall i | 0 <= i < |files|
      ensures ChunkOf(files[i], Ended(Blocks(files))[i])
    {
      EndedAt(Blocks(files), i);
    }
  }

  lemma {:induction false} EmptyChunkFirst(chunks: seq<seq<string>>)
    ensures FilesOf([[]] + chunks) == FilesOf(chunks)
    decreases |chunks|
  {
    var all := [[]] + chunks;
    if chunks == [] {
      assert all[..0] == [] && FilesOf(all[..0]) == [];
    } else {
      var n := |chunks| - 1;
      assert all[..n + 1] == [[]] + chunks[..n];
      EmptyChunkFirst(chunks[..n]);
    }
  }

  lemma {:induction false} FlatIsLines(blocks: seq<seq<string>>)
    requires forall i, j :: 0 <= i < |blocks| && 0 <= j < |blocks[i]| ==> OneLine(blocks[i][j])
    ensures forall i :: 0 <= i < |Flat(blocks)| ==> OneLine(Flat(blocks)[i])
    decreases |blocks|
  {
    if blocks != [] {
      FlatIsLines(blocks[1..]);
    }
  }

  lemma {:induction false} DiffIsLines(files: seq<FileDiff>)
    requires forall i :: 0 <= i < |files| ==> Printable(files[i])
    ensures forall i :: 0 <= i < |DiffLines(files)| ==> OneLine(DiffLines(files)[i])
  {
    forall i | 0 <= i < |files|
      ensures forall j :: 0 <= j < |Blocks(files)[i]| ==> OneLine(Blocks(files)[i][j])
    {
      FileIsLines(files[i]);
    }
    FlatIsLines(Blocks(files));
  }

  /** Reading a printed diff gives, for every path, the new sides of its modified hunks, in order: lines of
      a body that look like marks or headers do not disturb it. */
  lemma {:induction false} PrintedDiffReadsBack(files: seq<FileDiff>, path: string)
    requires forall i :: 0 <= i < |files| ==> Printable(files[i])
    ensures RangesFor(FilesOf(Chunks(Split(DiffText(files), NL))), path) == DiffRangesFor(files, path)
  {
    var lines := DiffLines(files) + [""];
    DiffIsLines(files);
    SplitOfLines(lines);
    forall i | 0 <= i < |files|
      ensures IsBlock(Blocks(files)[i])
    {
      FileIsBlock(files[i]);
    }
    BlocksAreChunks(Blocks(files));
    var chunks := Ended(Blocks(files));
    if files == [] {
      EmptyText();
    } else {
      EmptyChunkFirst(chunks);
      EndedAreChunks(files);
      ChunksReadBack(files, chunks, path);
    }
  }

  lemma {:induction false} EmptyText()
    ensures FilesOf([[""]]) == []
  {
    assert [[""]][..0] == [];
    assert FileOf([""]) == None;
  }

  lemma {:induction false} RangesCoverHunks(headers: seq<Header>, i: nat, k: int)
    requires i < |headers| && Modified(headers[i])
    requires headers[i].after.start <= k < headers[i].after.start + Count(headers[i].after)
    ensures Covered(HeaderRanges(headers), k)
    decreases |headers|
  {
    var n := |headers| - 1;
    var before := HeaderRanges(headers[..n]);
    var all := HeaderRanges(headers);
    if i == n {
      assert all[|before|] == RangeOf(headers[n]);
      assert Has(all[|before|], k);
    } else {
      RangesCoverHunks(headers[..n], i, k);
      var j :| 0 <= j < |before| && Has(before[j], k);
      assert all[j] == before[j];
    }
  }
}
