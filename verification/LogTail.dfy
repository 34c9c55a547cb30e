/**
  The log query's collection loop: it walks the files newest first and each file backwards, keeps what fits
  and counts the rest.
*/
module LogTail {
  import opened Options
  import opened Text
  import Sequences

  const MAX_LINES_PER_FILE := 5_000

  /** A log file with its name under the log folder; `None` where it cannot be opened. */
  datatype LogFile = LogFile(rel: string, rawLines: Option<seq<string>>)

  datatype Answer = NothingFound | Found(lines: seq<string>, extra: nat)

  /** The search terms, lower-cased, any of which a line has to hold; none means every line. */
  datatype Query = Query(terms: seq<string>, lower: string -> string)

  predicate Wanted(q: Query, line: string) {
    q.terms == [] || exists t :: t in q.terms && Find(q.lower(line), t).Some?
  }

  function Chomp(raw: string): (line: string)
    ensures line <= raw && (line == "" || line[|line| - 1] != '\n')
    ensures forall i :: |line| <= i < |raw| ==> raw[i] == '\n'
  {
    if raw == "" || raw[|raw| - 1] != '\n' then raw else Chomp(raw[..|raw| - 1])
  }

  /** A bounded queue filled from the front keeps the last elements. */
  function Last<T>(s: seq<T>, n: int): seq<T> {
    if n <= 0 then [] else if |s| <= n then s else s[|s| - n..]
  }

  function Window(f: LogFile): seq<string> {
    if f.rawLines.None? then [] else Last(f.rawLines.value, MAX_LINES_PER_FILE)
  }

  function Entry(f: LogFile, raw: string): string { f.rel + ": " + Chomp(raw) }

  /** The wanted lines of a window, in file order. */
  function Entries(q: Query, f: LogFile, window: seq<string>): seq<string> {
    if window == [] then []
    else (if Wanted(q, Chomp(window[0])) then [Entry(f, window[0])] else []) + Entries(q, f, window[1..])
  }

  /** All wanted lines from the oldest to the newest; `files` is newest first. */
  function Chronicle(q: Query, files: seq<LogFile>): seq<string> {
    if files == [] then []
    else
      var n := |files| - 1;
      Entries(q, files[n], Window(files[n])) + Chronicle(q, files[..n])
  }

  /** What the loop holds when the lines seen so far are `seen`. */
  ghost predicate Holds(collected: seq<string>, extra: nat, seen: seq<string>, maxLines: int) {
    collected == Sequences.Backwards(Last(seen, maxLines)) && extra == |seen| - |collected|
  }

  lemma {:induction false} LastOfMore(x: string, seen: seq<string>, n: int)
    ensures |Last(seen, n)| < n ==> Last(seen, n) == seen && Last([x] + seen, n) == [x] + seen
    ensures |Last(seen, n)| >= n ==> Last([x] + seen, n) == Last(seen, n)
  {
  }

  /** One more, older line: kept while there is room, counted otherwise. */
  lemma {:induction false} OneMoreLine(collected: seq<string>, extra: nat, seen: seq<string>, maxLines: int, x: string)
    requires Holds(collected, extra, seen, maxLines)
    ensures |collected| >= maxLines ==> Holds(collected, extra + 1, [x] + seen, maxLines)
    ensures |collected| < maxLines ==> Holds(collected + [x], extra, [x] + seen, maxLines)
  {
    LastOfMore(x, seen, maxLines);
    Sequences.BackwardsMore(x, seen);
  }

  /** The inner loop, over one file's window from its end. */
  method CollectFile(q: Query, f: LogFile, maxLines: int, before: seq<string>, extraBefore: nat,
                     ghost seenBefore: seq<string>)
    returns (collected: seq<string>, extra: nat)
    requires Holds(before, extraBefore, seenBefore, maxLines)
    ensures Holds(collected, extra, Entries(q, f, Window(f)) + seenBefore, maxLines)
  {
    collected, extra := before, extraBefore;
    var window := Window(f);
    Sequences.WithNothing(seenBefore);
    var j := |window|;
    while j > 0
      invariant 0 <= j <= |window|
      invariant Holds(collected, extra, Entries(q, f, window[j..]) + seenBefore, maxLines)
    {
      ghost var seen := Entries(q, f, window[j..]) + seenBefore;
      j := j - 1;
      EntriesFrom(q, f, window, j, seenBefore);
      if Wanted(q, Chomp(window[j])) {
        OneMoreLine(collected, extra, seen, maxLines, Entry(f, window[j]));
        if |collected| >= maxLines {
          extra := extra + 1;
        } else {
          collected := collected + [Entry(f, window[j])];
        }
      }
    }
    Sequences.Whole(window);
  }

  lemma {:induction false} EntriesFrom(q: Query, f: LogFile, window: seq<string>, j: nat, after: seq<string>)
    requires j < |window|
    ensures var rest := Entries(q, f, window[j + 1..]) + after;
      Entries(q, f, window[j..]) + after == if Wanted(q, Chomp(window[j])) then [Entry(f, window[j])] + rest else rest
  {
    assert window[j..][1..] == window[j + 1..];
  }

  /** The collection loop of `query_app_logs`: the last `maxLines` wanted lines in time order, and how many
      older ones were left out. */
  method QueryAppLogs(q: Query, files: seq<LogFile>, maxLines: int) returns (answer: Answer)
    ensures answer.NothingFound? <==> Chronicle(q, files) == []
    ensures answer.Found? ==>
      && answer.lines == Last(Chronicle(q, files), maxLines)
      && answer.extra == |Chronicle(q, files)| - |answer.lines|
  {
    var collected: seq<string>, extra := [], 0;
    for i := 0 to |files|
      invariant Holds(collected, extra, Chronicle(q, files[..i]), maxLines)
    {
      assert files[..i + 1][..i] == files[..i];
      collected, extra := CollectFile(q, files[i], maxLines, collected, extra, Chronicle(q, files[..i]));
    }
    assert files[..|files|] == files;
    if collected == [] && extra == 0 {
      return NothingFound;
    }
    Sequences.BackwardsTwice(Last(Chronicle(q, files), maxLines));
    answer := Found(Sequences.Backwards(collected), extra);
  }

  lemma {:induction false} EntriesAre(q: Query, f: LogFile, window: seq<string>, x: string)
    ensures x in Entries(q, f, window) <==>
      exists k :: 0 <= k < |window| && Wanted(q, Chomp(window[k])) && x == Entry(f, window[k])
  {
    if window != [] {
      EntriesAre(q, f, window[1..], x);
      assert forall k :: 0 < k < |window| ==> window[k] == window[1..][k - 1];
      assert forall k :: 0 <= k < |window| - 1 ==> window[1..][k] == window[k + 1];
    }
  }

  ghost predicate InWindow(q: Query, f: LogFile, x: string) {
    exists k :: 0 <= k < |Window(f)| && Wanted(q, Chomp(Window(f)[k])) && x == Entry(f, Window(f)[k])
  }

  ghost predicate InWindows(q: Query, files: seq<LogFile>, x: string) {
    exists i :: 0 <= i < |files| && InWindow(q, files[i], x)
  }

  lemma {:induction false} InMoreWindows(q: Query, files: seq<LogFile>, f: LogFile, x: string)
    ensures InWindows(q, files + [f], x) <==> InWindows(q, files, x) || InWindow(q, f, x)
  {
    var all := files + [f];
    assert all[|files|] == f;
    assert forall i :: 0 <= i < |files| ==> all[i] == files[i];
  }

  lemma {:induction false} ChronicleMore(q: Query, files: seq<LogFile>, f: LogFile)
    ensures Chronicle(q, files + [f]) == Entries(q, f, Window(f)) + Chronicle(q, files)
  {
    assert (files + [f])[..|files|] == files;
  }

  /** The chronicle holds exactly the wanted lines of the windows. */
  lemma {:induction false} ChronicleIs(q: Query, files: seq<LogFile>, x: string)
    ensures x in Chronicle(q, files) <==> InWindows(q, files, x)
    decreases |files|
  {
    if files != [] {
      var n := |files| - 1;
      var f := files[n];
      assert files == files[..n] + [f];
      ChronicleMore(q, files[..n], f);
      InMoreWindows(q, files[..n], f, x);
      EntriesAre(q, f, Window(f), x);
      ChronicleIs(q, files[..n], x);
    }
  }

  lemma {:induction false} ChronicleOfConcat(q: Query, newer: seq<LogFile>, older: seq<LogFile>)
    ensures Chronicle(q, newer + older) == Chronicle(q, older) + Chronicle(q, newer)
    decreases |older|
  {
    if older == [] {
      Sequences.WithNothing(newer);
    } else {
      var n := |older| - 1;
      var f := older[n];
      Sequences.FrontAndLast(older);
      Sequences.Regroup(newer, older[..n], [f]);
      ChronicleMore(q, older[..n], f);
      ChronicleMore(q, newer + older[..n], f);
      ChronicleOfConcat(q, newer, older[..n]);
      Sequences.Regroup(Entries(q, f, Window(f)), Chronicle(q, older[..n]), Chronicle(q, newer));
    }
  }

  /** Once the newest files fill the answer, older files change nothing in it but the count. */
  lemma {:induction false} OldFilesDoNotShow(q: Query, newer: seq<LogFile>, older: seq<LogFile>, maxLines: int)
    requires |Chronicle(q, newer)| >= maxLines
    ensures Last(Chronicle(q, newer + older), maxLines) == Last(Chronicle(q, newer), maxLines)
  {
    ChronicleOfConcat(q, newer, older);
    LastOfSum(Chronicle(q, older), Chronicle(q, newer), maxLines);
  }

  lemma {:induction false} LastOfSum(a: seq<string>, b: seq<string>, n: int)
    requires |b| >= n
    ensures Last(a + b, n) == Last(b, n)
  {
  }
}
