/** `_expand_and_merge_ranges` and the byte-budgeted excerpt loop that uses it. */
module Ranges {
  import Text
  import Lines
  import Sequences

  /** A closed range of line numbers, from 1. */
  datatype Range = Range(lo: int, hi: int)

  predicate Has(r: Range, k: int) { r.lo <= k <= r.hi }

  ghost predicate Covered(ranges: seq<Range>, k: int) {
    exists i :: 0 <= i < |ranges| && Has(ranges[i], k)
  }

  /** A changed range widened by `context` lines on both sides and cut to the file. */
  function Clamp(r: Range, context: int, total: int): Range {
    Range(if r.lo - context < 1 then 1 else r.lo - context,
          if r.hi + context > total then total else r.hi + context)
  }

  /** The order Python sorts pairs in. */
  predicate Before(a: Range, b: Range) { a.lo < b.lo || (a.lo == b.lo && a.hi <= b.hi) }

  predicate Sorted(ranges: seq<Range>) {
    forall i, j :: 0 <= i < j < |ranges| ==> Before(ranges[i], ranges[j])
  }

  function Insert(r: Range, ranges: seq<Range>): (out: seq<Range>)
    ensures out != [] && (out[0] == r || (ranges != [] && out[0] == ranges[0]))
    ensures forall x :: x in out <==> x == r || x in ranges
  {
    if ranges == [] || Before(r, ranges[0]) then [r] + ranges
    else [ranges[0]] + Insert(r, ranges[1..])
  }

  lemma {:induction false} InsertKeepsSorted(r: Range, ranges: seq<Range>)
    requires Sorted(ranges)
    ensures Sorted(Insert(r, ranges))
  {
    if ranges == [] {
    } else if Before(r, ranges[0]) {
      ConsSorted(r, ranges);
    } else {
      var rest := Insert(r, ranges[1..]);
      InsertKeepsSorted(r, ranges[1..]);
      ConsSorted(ranges[0], rest);
    }
  }

  lemma {:induction false} ConsSorted(r: Range, ranges: seq<Range>)
    requires Sorted(ranges) && ranges != [] && Before(r, ranges[0])
    ensures Sorted([r] + ranges)
  {
    assert forall j :: 0 < j < |ranges| ==> Before(ranges[0], ranges[j]);
  }

  function Sort(ranges: seq<Range>): (out: seq<Range>)
    ensures forall x :: x in out <==> x in ranges
  {
    if ranges == [] then [] else Insert(ranges[0], Sort(ranges[1..]))
  }

  lemma {:induction false} SortSorts(ranges: seq<Range>)
    ensures Sorted(Sort(ranges))
  {
    if ranges != [] {
      SortSorts(ranges[1..]);
      InsertKeepsSorted(ranges[0], Sort(ranges[1..]));
    }
  }

  /** Ranges inside the file, each non-empty, each starting at least two lines after the previous end. */
  predicate Separated(ranges: seq<Range>, total: int) {
    && (forall i :: 0 <= i < |ranges| ==> 1 <= ranges[i].lo <= ranges[i].hi <= total)
    && (forall i :: 0 <= i < |ranges| - 1 ==> ranges[i].hi + 1 < ranges[i + 1].lo)
  }

  ghost predicate CoveredByClamped(ranges: seq<Range>, context: int, total: int, k: int) {
    exists i :: 0 <= i < |ranges| && Has(Clamp(ranges[i], context, total), k)
  }

  /** The widened and clamped ranges that hold a line of the file. */
  function Expanded(ranges: seq<Range>, context: int, total: int): seq<Range> {
    if ranges == [] then []
    else
      var n := |ranges| - 1;
      var c := Clamp(ranges[n], context, total);
      Expanded(ranges[..n], context, total) + if c.lo <= c.hi then [c] else []
  }

  method Expand(ranges: seq<Range>, context: int, total: int) returns (expanded: seq<Range>)
    ensures expanded == Expanded(ranges, context, total)
  {
    expanded := [];
    for n := 0 to |ranges|
      invariant expanded == Expanded(ranges[..n], context, total)
    {
      ExpandedMore(ranges, n, context, total);
      var c := Clamp(ranges[n], context, total);
      if c.lo <= c.hi {
        expanded := expanded + [c];
      }
    }
    Sequences.Whole(ranges);
  }

  lemma {:induction false} ExpandedMore(ranges: seq<Range>, n: nat, context: int, total: int)
    requires n < |ranges|
    ensures var c := Clamp(ranges[n], context, total);
      Expanded(ranges[..n + 1], context, total)
        == Expanded(ranges[..n], context, total) + if c.lo <= c.hi then [c] else []
  {
    Sequences.OneFurther(ranges, n);
  }

  lemma {:induction false} ExpandedAre(ranges: seq<Range>, context: int, total: int, x: Range)
    ensures x in Expanded(ranges, context, total) <==>
      x.lo <= x.hi && exists i :: 0 <= i < |ranges| && x == Clamp(ranges[i], context, total)
  {
    if ranges != [] {
      var n := |ranges| - 1;
      ExpandedAre(ranges[..n], context, total, x);
      if i :| 0 <= i < n && x == Clamp(ranges[..n][i], context, total) {
        assert ranges[i] == ranges[..n][i];
      }
      if i :| 0 <= i < |ranges| && x == Clamp(ranges[i], context, total) {
        assert i < n ==> ranges[..n][i] == ranges[i];
      }
    }
  }

  lemma {:induction false} ExpandedCovers(ranges: seq<Range>, context: int, total: int, k: int)
    ensures Covered(Expanded(ranges, context, total), k) <==> CoveredByClamped(ranges, context, total, k)
  {
    var expanded := Expanded(ranges, context, total);
    if Covered(expanded, k) {
      var j :| 0 <= j < |expanded| && Has(expanded[j], k);
      ExpandedAre(ranges, context, total, expanded[j]);
      assert expanded[j] in expanded;
    }
    if CoveredByClamped(ranges, context, total, k) {
      var i :| 0 <= i < |ranges| && Has(Clamp(ranges[i], context, total), k);
      ExpandedAre(ranges, context, total, Clamp(ranges[i], context, total));
    }
  }

  /** Widening the last merged range, or starting a new one. */
  function Absorb(merged: seq<Range>, r: Range): seq<Range>
    requires merged != []
  {
    var n := |merged| - 1;
    if r.lo <= merged[n].hi + 1 then
      merged[n := Range(merged[n].lo, if merged[n].hi < r.hi then r.hi else merged[n].hi)]
    else merged + [r]
  }

  lemma {:induction false} AbsorbSeparates(merged: seq<Range>, r: Range, total: int)
    requires merged != [] && Separated(merged, total)
    requires 1 <= r.lo <= r.hi <= total && merged[|merged| - 1].lo <= r.lo
    ensures var out := Absorb(merged, r);
      out != [] && Separated(out, total) && out[|out| - 1].lo <= r.lo
  {
  }

  lemma {:induction false} AbsorbCovers(merged: seq<Range>, r: Range, k: int)
    requires merged != [] && merged[|merged| - 1].lo <= r.lo <= r.hi
    requires merged[|merged| - 1].lo <= merged[|merged| - 1].hi
    ensures Covered(Absorb(merged, r), k) <==> Covered(merged, k) || Has(r, k)
  {
    var n := |merged| - 1;
    var out := Absorb(merged, r);
    if r.lo <= merged[n].hi + 1 {
      assert merged == merged[..n] + [merged[n]] && out == merged[..n] + [out[n]];
      CoverSnoc(merged[..n], merged[n], k);
      CoverSnoc(merged[..n], out[n], k);
    } else {
      CoverSnoc(merged, r, k);
    }
  }

  /** The first `n` of the sorted ranges, absorbed one after the other. */
  function Absorbed(sorted: seq<Range>, n: nat): (merged: seq<Range>)
    requires 1 <= n <= |sorted|
    ensures merged != []
  {
    if n == 1 then [sorted[0]] else Absorb(Absorbed(sorted, n - 1), sorted[n - 1])
  }

  function Merged(ranges: seq<Range>, context: int, total: int): seq<Range> {
    var sorted := Sort(Expanded(ranges, context, total));
    if sorted == [] then [] else Absorbed(sorted, |sorted|)
  }

  method ExpandAndMerge(ranges: seq<Range>, context: int, total: int) returns (merged: seq<Range>)
    ensures merged == Merged(ranges, context, total)
  {
    var expanded := Expand(ranges, context, total);
    var sorted := Sort(expanded);
    if expanded == [] {
      return [];
    }
    assert expanded[0] in sorted;
    merged := MergeSorted(sorted);
  }

  method MergeSorted(sorted: seq<Range>) returns (merged: seq<Range>)
    requires sorted != []
    ensures merged == Absorbed(sorted, |sorted|)
  {
    merged := [sorted[0]];
    for n := 1 to |sorted|
      invariant merged == Absorbed(sorted, n)
    {
      var last := merged[|merged| - 1];
      if sorted[n].lo <= last.hi + 1 {
        merged := merged[|merged| - 1 := Range(last.lo, if last.hi < sorted[n].hi then sorted[n].hi else last.hi)];
      } else {
        merged := merged + [sorted[n]];
      }
    }
  }

  lemma {:induction false} AbsorbedIsSeparated(sorted: seq<Range>, n: nat, total: int)
    requires 1 <= n <= |sorted| && Sorted(sorted)
    requires forall i :: 0 <= i < |sorted| ==> 1 <= sorted[i].lo <= sorted[i].hi <= total
    ensures var merged := Absorbed(sorted, n);
      Separated(merged, total) && merged[|merged| - 1].lo <= sorted[n - 1].lo
  {
    if n > 1 {
      AbsorbedIsSeparated(sorted, n - 1, total);
      assert Before(sorted[n - 2], sorted[n - 1]);
      AbsorbSeparates(Absorbed(sorted, n - 1), sorted[n - 1], total);
    }
  }

  lemma {:induction false} AbsorbedCovers(sorted: seq<Range>, n: nat, total: int, k: int)
    requires 1 <= n <= |sorted| && Sorted(sorted)
    requires forall i :: 0 <= i < |sorted| ==> 1 <= sorted[i].lo <= sorted[i].hi <= total
    ensures Covered(Absorbed(sorted, n), k) <==> Covered(sorted[..n], k)
  {
    if n == 1 {
      Sequences.OneElement(sorted, 0);
    } else {
      AbsorbedCovers(sorted, n - 1, total, k);
      AbsorbedIsSeparated(sorted, n - 1, total);
      assert Before(sorted[n - 2], sorted[n - 1]);
      Sequences.OneFurther(sorted, n - 1);
      AbsorbCovers(Absorbed(sorted, n - 1), sorted[n - 1], k);
      CoverSnoc(sorted[..n - 1], sorted[n - 1], k);
    }
  }

  /** The merged ranges are separated, lie inside the file, and hold exactly the lines of the widened
      and clamped inputs. */
  lemma {:induction false} MergedIs(ranges: seq<Range>, context: int, total: int)
    ensures Separated(Merged(ranges, context, total), total)
    ensures forall k :: Covered(Merged(ranges, context, total), k) <==> CoveredByClamped(ranges, context, total, k)
  {
    var expanded := Expanded(ranges, context, total);
    var sorted := Sort(expanded);
    forall k
      ensures Covered(expanded, k) <==> CoveredByClamped(ranges, context, total, k)
    {
      ExpandedCovers(ranges, context, total, k);
    }
    SameCover(expanded, sorted);
    SortSorts(expanded);
    if sorted != [] {
      forall i | 0 <= i < |sorted|
        ensures 1 <= sorted[i].lo <= sorted[i].hi <= total
      {
        assert sorted[i] in sorted;
        ExpandedAre(ranges, context, total, sorted[i]);
      }
      AbsorbedIsSeparated(sorted, |sorted|, total);
      Sequences.Whole(sorted);
      forall k
        ensures Covered(Absorbed(sorted, |sorted|), k) <==> Covered(sorted, k)
      {
        AbsorbedCovers(sorted, |sorted|, total, k);
      }
    }
  }

  lemma {:induction false} FromFirst(ranges: seq<Range>, total: int, i: nat)
    requires Separated(ranges, total) && i < |ranges|
    ensures ranges[0].lo <= ranges[i].lo && (i > 0 ==> ranges[0].hi + 1 < ranges[i].lo)
  {
    if i > 0 {
      FromFirst(ranges, total, i - 1);
    }
  }

  /** The first range starts with the smallest covered line and ends before the first line not covered. */
  lemma {:induction false} FirstRange(ranges: seq<Range>, total: int, k: int)
    requires Separated(ranges, total) && ranges != []
    ensures Covered(ranges, k) ==> k >= ranges[0].lo
    ensures Has(ranges[0], k) ==> Covered(ranges, k)
    ensures !Covered(ranges, ranges[0].hi + 1)
  {
    forall i: nat | i < |ranges|
      ensures ranges[0].lo <= ranges[i].lo && (i > 0 ==> ranges[0].hi + 1 < ranges[i].lo)
    {
      FromFirst(ranges, total, i);
    }
  }

  lemma {:induction false} RestCovers(ranges: seq<Range>, total: int, k: int)
    requires Separated(ranges, total) && ranges != []
    ensures Separated(ranges[1..], total)
    ensures Covered(ranges[1..], k) <==> Covered(ranges, k) && !Has(ranges[0], k)
  {
    var rest := ranges[1..];
    if i :| 0 <= i < |rest| && Has(rest[i], k) {
      assert rest[i] == ranges[i + 1];
      FromFirst(ranges, total, i + 1);
    }
    if i :| 0 <= i < |ranges| && Has(ranges[i], k) {
      assert i > 0 ==> rest[i - 1] == ranges[i];
    }
  }

  /** There is only one list of separated ranges with given lines: the merged ranges are determined. */
  lemma {:induction false} SeparatedIsUnique(a: seq<Range>, b: seq<Range>, total: int)
    requires Separated(a, total) && Separated(b, total) && forall k :: Covered(a, k) <==> Covered(b, k)
    ensures a == b
    decreases |a|
  {
    if a == [] {
      if b != [] {
        FirstRange(b, total, b[0].lo);
      }
    } else {
      FirstRange(a, total, a[0].lo);
      assert Covered(b, a[0].lo);
      SameFirst(a, b, total);
      forall k
        ensures Covered(a[1..], k) <==> Covered(b[1..], k)
      {
        RestCovers(a, total, k);
        RestCovers(b, total, k);
      }
      SeparatedIsUnique(a[1..], b[1..], total);
      assert a == [a[0]] + a[1..] && b == [b[0]] + b[1..];
    }
  }

  lemma {:induction false} SameFirst(a: seq<Range>, b: seq<Range>, total: int)
    requires Separated(a, total) && Separated(b, total) && forall k :: Covered(a, k) <==> Covered(b, k)
    requires a != [] && b != []
    ensures a[0] == b[0]
  {
    FirstRange(a, total, a[0].lo);
    FirstRange(a, total, b[0].lo);
    FirstRange(b, total, b[0].lo);
    FirstRange(b, total, a[0].lo);
    FirstRange(a, total, b[0].hi + 1);
    FirstRange(b, total, a[0].hi + 1);
  }

  lemma {:induction false} SameCover(a: seq<Range>, b: seq<Range>)
    requires forall x :: x in a <==> x in b
    ensures forall k :: Covered(a, k) <==> Covered(b, k)
  {
    forall k
      ensures Covered(a, k) <==> Covered(b, k)
    {
      if Covered(a, k) {
        var i :| 0 <= i < |a| && Has(a[i], k);
        assert a[i] in b;
      }
      if Covered(b, k) {
        var i :| 0 <= i < |b| && Has(b[i], k);
        assert b[i] in a;
      }
    }
  }

  lemma {:induction false} CoverSnoc(a: seq<Range>, r: Range, k: int)
    ensures Covered(a + [r], k) <==> Covered(a, k) || Has(r, k)
  {
    if Covered(a, k) {
      var i :| 0 <= i < |a| && Has(a[i], k);
      assert (a + [r])[i] == a[i];
    }
    if Has(r, k) {
      assert (a + [r])[|a|] == r;
    }
  }

  /** A file to excerpt: its path, its lines, and the changed ranges in it. */
  datatype File = File(path: string, lines: seq<string>, changed: seq<Range>)

  datatype Excerpt = Excerpt(path: string, range: Range, size: nat)

  /** The size of an excerpt is the length of its header, its joined lines and a newline. */
  function Size(file: File, r: Range, header: Header): nat
    requires 1 <= r.lo <= r.hi <= |file.lines|
  {
    header(file.path, r, |file.lines|) + |Text.Join(file.lines[r.lo - 1..r.hi], Lines.NL)| + 1
  }

  /** The length of an excerpt's header line. */
  type Header = (string, Range, int) -> nat

  function TotalSize(excerpts: seq<Excerpt>): nat {
    if excerpts == [] then 0 else TotalSize(excerpts[..|excerpts| - 1]) + excerpts[|excerpts| - 1].size
  }

  /** Some excerpt of the file holds line `k`. */
  ghost predicate Excerpted(excerpts: seq<Excerpt>, path: string, k: int) {
    exists i :: 0 <= i < |excerpts| && excerpts[i].path == path && Has(excerpts[i].range, k)
  }

  /** Every changed line the file really has is in an excerpt. */
  ghost predicate FileDone(excerpts: seq<Excerpt>, file: File) {
    forall i, k :: 0 <= i < |file.changed| && Has(file.changed[i], k) && 1 <= k <= |file.lines|
      ==> Excerpted(excerpts, file.path, k)
  }

  /** One excerpt per range, in order. */
  function Made(file: File, ranges: seq<Range>, header: Header): (made: seq<Excerpt>)
    requires Separated(ranges, |file.lines|)
    ensures |made| == |ranges|
  {
    seq(|ranges|, i requires 0 <= i < |ranges| => Excerpt(file.path, ranges[i], Size(file, ranges[i], header)))
  }

  function FileRanges(file: File, context: int): (ranges: seq<Range>)
    ensures Separated(ranges, |file.lines|)
  {
    MergedIs(file.changed, context, |file.lines|);
    Merged(file.changed, context, |file.lines|)
  }

  /** The excerpts of the first `n` files: of each, exactly its merged ranges. */
  function AllMade(files: seq<File>, n: nat, context: int, header: Header): seq<Excerpt>
    requires n <= |files|
  {
    if n == 0 then []
    else AllMade(files, n - 1, context, header) + Made(files[n - 1], FileRanges(files[n - 1], context), header)
  }

  /** What the loops leave: all excerpts of the files passed. Of a file at which preloading stopped there are
      either none, because the limit on excerpts was reached before it, or those of its first merged
      ranges, and the next one would take the total over the budget. */
  ghost predicate Stopped(files: seq<File>, context: int, maxFiles: int, maxTotal: nat, header: Header,
                          excerpts: seq<Excerpt>, passed: nat)
    requires passed <= |files|
  {
    var done := AllMade(files, passed, context, header);
    if passed == |files| then excerpts == done
    else
      || (excerpts == done && |done| >= maxFiles)
      || (|done| < maxFiles && exists i :: StoppedWithin(files[passed], context, maxTotal, header, done, excerpts, i))
  }

  ghost predicate StoppedWithin(file: File, context: int, maxTotal: nat, header: Header,
                                done: seq<Excerpt>, excerpts: seq<Excerpt>, i: nat) {
    var ranges := FileRanges(file, context);
    && i < |ranges|
    && excerpts == done + Made(file, ranges, header)[..i]
    && TotalSize(excerpts) + Size(file, ranges[i], header) > maxTotal
  }

  ghost predicate WentOn(files: seq<File>, context: int, maxFiles: int, header: Header, passed: nat)
    requires passed <= |files|
  {
    forall n: nat :: n < passed ==> |AllMade(files, n, context, header)| < maxFiles
  }

  lemma {:induction false} OneFilePassed(files: seq<File>, context: int, maxFiles: int, header: Header,
                                         start: seq<Excerpt>, passed: nat)
    requires passed < |files| && WentOn(files, context, maxFiles, header, passed)
    requires start == AllMade(files, passed, context, header) && |start| < maxFiles
    ensures WentOn(files, context, maxFiles, header, passed + 1)
    ensures AllMade(files, passed + 1, context, header)
      == start + Made(files[passed], FileRanges(files[passed], context), header)
  {
  }

  lemma {:induction false} StoppedInside(files: seq<File>, context: int, maxFiles: int, maxTotal: nat, header: Header,
                                         excerpts: seq<Excerpt>, passed: nat, i: nat)
    requires passed < |files| && |AllMade(files, passed, context, header)| < maxFiles
    requires StoppedWithin(files[passed], context, maxTotal, header, AllMade(files, passed, context, header),
                           excerpts, i)
    ensures Stopped(files, context, maxFiles, maxTotal, header, excerpts, passed)
  {
  }

  /** The excerpt branch of `build_preseed_history`. */
  method BuildExcerpts(files: seq<File>, context: nat, maxFiles: int, maxTotal: nat, header: Header)
    returns (excerpts: seq<Excerpt>, passed: nat)
    ensures TotalSize(excerpts) <= maxTotal
    ensures passed <= |files| && Stopped(files, context, maxFiles, maxTotal, header, excerpts, passed)
    ensures WentOn(files, context, maxFiles, header, passed)
  {
    excerpts, passed := [], 0;
    var totalBytes := 0;
    while passed < |files|
      invariant 0 <= passed <= |files|
      invariant totalBytes == TotalSize(excerpts) <= maxTotal
      invariant excerpts == AllMade(files, passed, context, header)
      invariant WentOn(files, context, maxFiles, header, passed)
    {
      if |excerpts| >= maxFiles {
        return;
      }
      OneFilePassed(files, context, maxFiles, header, excerpts, passed);
      var hitCap;
      ghost var i;
      excerpts, totalBytes, i, hitCap := PreloadFile(files[passed], context, excerpts, totalBytes, maxTotal, header);
      if hitCap {
        StoppedInside(files, context, maxFiles, maxTotal, header, excerpts, passed, i);
        return;
      }
      passed := passed + 1;
    }
  }

  /** The step for one file: its ranges are merged and its excerpts made. */
  method PreloadFile(file: File, context: nat, start: seq<Excerpt>, bytesBefore: nat, maxTotal: nat, header: Header)
    returns (excerpts: seq<Excerpt>, totalBytes: nat, ghost i: nat, hitCap: bool)
    requires bytesBefore == TotalSize(start) <= maxTotal
    ensures totalBytes == TotalSize(excerpts) <= maxTotal
    ensures hitCap ==> StoppedWithin(file, context, maxTotal, header, start, excerpts, i)
    ensures !hitCap ==> excerpts == start + Made(file, FileRanges(file, context), header)
  {
    var ranges := ExpandAndMerge(file.changed, context, |file.lines|);
    assert ranges == FileRanges(file, context);
    excerpts, totalBytes, i, hitCap := MakeExcerpts(file, ranges, start, bytesBefore, maxTotal, header);
  }

  /** The loop over one file's merged ranges. */
  method MakeExcerpts(file: File, ranges: seq<Range>, start: seq<Excerpt>, bytesBefore: nat, maxTotal: nat,
                      header: Header)
    returns (excerpts: seq<Excerpt>, totalBytes: nat, i: nat, hitCap: bool)
    requires Separated(ranges, |file.lines|) && bytesBefore == TotalSize(start) <= maxTotal
    ensures totalBytes == TotalSize(excerpts) <= maxTotal
    ensures i <= |ranges| && excerpts == start + Made(file, ranges, header)[..i]
    ensures hitCap <==> i < |ranges|
    ensures hitCap ==> totalBytes + Size(file, ranges[i], header) > maxTotal
    ensures !hitCap ==> excerpts == start + Made(file, ranges, header)
  {
    excerpts, totalBytes, i := start, bytesBefore, 0;
    ghost var made := Made(file, ranges, header);
    Sequences.WithNothing(start);
    while i < |ranges|
      invariant i <= |ranges|
      invariant totalBytes == TotalSize(excerpts) <= maxTotal
      invariant excerpts == start + made[..i]
    {
      var size := Size(file, ranges[i], header);
      if totalBytes + size > maxTotal {
        hitCap := true;
        return;
      }
      var e := Excerpt(file.path, ranges[i], size);
      TotalSizeMore(excerpts, e);
      Sequences.OneFurther(made, i);
      Sequences.Regroup(start, made[..i], [e]);
      excerpts := excerpts + [e];
      totalBytes := totalBytes + size;
      i := i + 1;
    }
    Sequences.Whole(made);
    hitCap := false;
  }

  lemma {:induction false} TotalSizeMore(excerpts: seq<Excerpt>, e: Excerpt)
    ensures TotalSize(excerpts + [e]) == TotalSize(excerpts) + e.size
  {
    Sequences.Parts(excerpts, [e]);
  }

  lemma {:induction false} DoneGrows(short: seq<Excerpt>, long: seq<Excerpt>, file: File)
    requires short <= long && FileDone(short, file)
    ensures FileDone(long, file)
  {
    forall i, k | 0 <= i < |file.changed| && Has(file.changed[i], k) && 1 <= k <= |file.lines|
      ensures Excerpted(long, file.path, k)
    {
      assert Excerpted(short, file.path, k);
      var j :| 0 <= j < |short| && short[j].path == file.path && Has(short[j].range, k);
      assert long[j] == short[j];
    }
  }

  lemma {:induction false} MadeCoversChanges(file: File, context: nat, start: seq<Excerpt>, header: Header)
    ensures FileDone(start + Made(file, FileRanges(file, context), header), file)
  {
    var ranges := FileRanges(file, context);
    var made := Made(file, ranges, header);
    MergedIs(file.changed, context, |file.lines|);
    forall i, k | 0 <= i < |file.changed| && Has(file.changed[i], k) && 1 <= k <= |file.lines|
      ensures Excerpted(start + made, file.path, k)
    {
      assert Has(Clamp(file.changed[i], context, |file.lines|), k);
      assert Covered(ranges, k);
      var j :| 0 <= j < |ranges| && Has(ranges[j], k);
      assert (start + made)[|start| + j] == made[j];
    }
  }

  /** Every file that was passed has all its changed lines in the excerpts. */
  lemma {:induction false} PassedFilesAreDone(files: seq<File>, n: nat, passed: nat, context: nat, header: Header)
    requires n < passed <= |files|
    ensures FileDone(AllMade(files, passed, context, header), files[n])
    decreases passed
  {
    var before := AllMade(files, passed - 1, context, header);
    if n == passed - 1 {
      MadeCoversChanges(files[n], context, before, header);
    } else {
      PassedFilesAreDone(files, n, passed - 1, context, header);
      DoneGrows(before, AllMade(files, passed, context, header), files[n]);
    }
  }

  /** The same for what the preload returns, wherever it stopped. */
  lemma {:induction false} PreloadedFilesAreDone(files: seq<File>, n: nat, context: nat, maxFiles: int, maxTotal: nat,
                                                 header: Header, excerpts: seq<Excerpt>, passed: nat)
    requires n < passed <= |files| && Stopped(files, context, maxFiles, maxTotal, header, excerpts, passed)
    ensures FileDone(excerpts, files[n])
  {
    PassedFilesAreDone(files, n, passed, context, header);
    DoneGrows(AllMade(files, passed, context, header), excerpts, files[n]);
  }

  // When preloading gets through all files

  lemma {:induction false} TotalSizeSplits(a: seq<Excerpt>, b: seq<Excerpt>)
    ensures TotalSize(a + b) == TotalSize(a) + TotalSize(b)
    decreases |b|
  {
    if b == [] {
      Sequences.WithNothing(a);
    } else {
      var n := |b| - 1;
      TotalSizeSplits(a, b[..n]);
      Sequences.FrontAndLast(b);
      Sequences.Regroup(a, b[..n], [b[n]]);
      TotalSizeMore(a + b[..n], b[n]);
    }
  }

  /** The size of the excerpts of the first `n` files. */
  function SizeOfFirst(files: seq<File>, n: nat, context: int, header: Header): nat
    requires n <= |files|
  {
    TotalSize(AllMade(files, n, context, header))
  }

  lemma {:induction false} NextFileAddsSize(files: seq<File>, n: nat, context: int, header: Header)
    requires n < |files|
    ensures SizeOfFirst(files, n, context, header) <= SizeOfFirst(files, n + 1, context, header)
  {
    TotalSizeSplits(AllMade(files, n, context, header), Made(files[n], FileRanges(files[n], context), header));
  }

  lemma {:induction false} Climbs(sizes: int -> int, n: nat, m: nat)
    requires n <= m && forall i :: n <= i < m ==> sizes(i) <= sizes(i + 1)
    ensures sizes(n) <= sizes(m)
    decreases m
  {
    if n < m {
      Climbs(sizes, n, m - 1);
    }
  }

  lemma {:induction false} LaterFilesAddSize(files: seq<File>, n: nat, m: nat, context: int, header: Header)
    requires n <= m <= |files|
    ensures SizeOfFirst(files, n, context, header) <= SizeOfFirst(files, m, context, header)
  {
    var sizes := i => if 0 <= i <= |files| then SizeOfFirst(files, i, context, header) else 0;
    forall i | n <= i < m
      ensures sizes(i) <= sizes(i + 1)
    {
      NextFileAddsSize(files, i, context, header);
    }
    Climbs(sizes, n, m);
  }

  lemma {:induction false} MadeTooMuch(file: File, ranges: seq<Range>, header: Header, done: seq<Excerpt>, i: nat,
                                       maxTotal: nat)
    requires Separated(ranges, |file.lines|) && i < |ranges|
    requires TotalSize(done + Made(file, ranges, header)[..i]) + Size(file, ranges[i], header) > maxTotal
    ensures TotalSize(done + Made(file, ranges, header)) > maxTotal
  {
    var made := Made(file, ranges, header);
    TotalSizeMore(done + made[..i], made[i]);
    Sequences.Regroup(done, made[..i], [made[i]]);
    Sequences.OneFurther(made, i);
    Sequences.Cut(made, i + 1);
    Sequences.Regroup(done, made[..i + 1], made[i + 1..]);
    TotalSizeSplits(done + made[..i + 1], made[i + 1..]);
  }

  lemma {:induction false} StoppedIsTooMuch(files: seq<File>, context: int, maxTotal: nat, header: Header,
                                            excerpts: seq<Excerpt>, passed: nat, i: nat)
    requires passed < |files|
    requires StoppedWithin(files[passed], context, maxTotal, header, AllMade(files, passed, context, header),
                           excerpts, i)
    ensures SizeOfFirst(files, |files|, context, header) > maxTotal
  {
    MadeTooMuch(files[passed], FileRanges(files[passed], context), header, AllMade(files, passed, context, header),
                i, maxTotal);
    LaterFilesAddSize(files, passed + 1, |files|, context, header);
  }

  /** Every file is passed exactly when all excerpts fit the byte budget and, before each file, there are
      fewer excerpts than the limit. */
  lemma {:induction false} AllFilesPassExactly(files: seq<File>, context: int, maxFiles: int, maxTotal: nat,
                                               header: Header, excerpts: seq<Excerpt>, passed: nat)
    requires passed <= |files| && TotalSize(excerpts) <= maxTotal
    requires Stopped(files, context, maxFiles, maxTotal, header, excerpts, passed)
    requires WentOn(files, context, maxFiles, header, passed)
    ensures passed == |files| <==>
      && SizeOfFirst(files, |files|, context, header) <= maxTotal
      && WentOn(files, context, maxFiles, header, |files|)
  {
    if passed < |files| && |AllMade(files, passed, context, header)| < maxFiles {
      var i :| StoppedWithin(files[passed], context, maxTotal, header, AllMade(files, passed, context, header),
                             excerpts, i);
      StoppedIsTooMuch(files, context, maxTotal, header, excerpts, passed, i);
    }
  }

  // What the excerpts hold besides

  /** Line `k` is within the context of a changed range of one of the first `n` files, and that file has it. */
  ghost predicate NearChange(files: seq<File>, n: nat, context: int, path: string, k: int)
    requires n <= |files|
  {
    exists m: nat :: m < n && files[m].path == path
      && CoveredByClamped(files[m].changed, context, |files[m].lines|, k)
  }

  lemma {:induction false} MadeIsNear(file: File, context: int, header: Header, e: Excerpt, k: int)
    requires e in Made(file, FileRanges(file, context), header) && Has(e.range, k)
    ensures e.path == file.path && CoveredByClamped(file.changed, context, |file.lines|, k)
  {
    var ranges := FileRanges(file, context);
    var made := Made(file, ranges, header);
    var j :| 0 <= j < |made| && made[j] == e;
    MergedIs(file.changed, context, |file.lines|);
    assert Has(ranges[j], k);
  }

  lemma {:induction false} AllMadeIsNear(files: seq<File>, n: nat, context: int, header: Header, e: Excerpt, k: int)
    requires n <= |files| && e in AllMade(files, n, context, header) && Has(e.range, k)
    ensures NearChange(files, n, context, e.path, k)
  {
    if n > 0 {
      if e in AllMade(files, n - 1, context, header) {
        AllMadeIsNear(files, n - 1, context, header, e, k);
      } else {
        MadeIsNear(files[n - 1], context, header, e, k);
      }
    }
  }

  /** No excerpt holds a line that is not near a change. */
  lemma {:induction false} OnlyNearChanges(files: seq<File>, context: int, maxFiles: int, maxTotal: nat, header: Header,
                                           excerpts: seq<Excerpt>, passed: nat, e: Excerpt, k: int)
    requires passed <= |files| && Stopped(files, context, maxFiles, maxTotal, header, excerpts, passed)
    requires e in excerpts && Has(e.range, k)
    ensures NearChange(files, |files|, context, e.path, k)
  {
    var done := AllMade(files, passed, context, header);
    if e in done {
      AllMadeIsNear(files, passed, context, header, e, k);
    } else {
      var i :| StoppedWithin(files[passed], context, maxTotal, header, done, excerpts, i);
      MadeIsNear(files[passed], context, header, e, k);
    }
  }
}
