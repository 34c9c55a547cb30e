/** The preload of a review: the ranges are read from the diff, and the listed files are excerpted by them. */
module DiffPreload {
  import opened Text
  import opened Lines
  import opened Options
  import opened Ranges
  import D = DiffRanges
  import Sequences

  /** The lines of a file; none for one that is missing, empty or a PDF document. */
  type Disk = string -> seq<string>

  function FileAt(path: string, disk: Disk, ranges: string -> seq<Range>): File {
    File(path, disk(path), ranges(path))
  }

  function FilesAt(paths: seq<string>, disk: Disk, ranges: string -> seq<Range>): (files: seq<File>)
    ensures |files| == |paths|
    ensures forall n :: 0 <= n < |paths| ==> files[n] == FileAt(paths[n], disk, ranges)
  {
    if paths == [] then []
    else
      var n := |paths| - 1;
      FilesAt(paths[..n], disk, ranges) + [FileAt(paths[n], disk, ranges)]
  }

  /** What a diff text says about a path. */
  function RangesIn(diff: string): string -> seq<Range> {
    path => D.RangesFor(D.FilesOf(D.Chunks(Split(diff, NL))), path)
  }

  /** Ranges from the diff, then excerpts of the listed files. */
  method PreloadFromDiff(diff: string, paths: seq<string>, disk: Disk, context: nat, maxFiles: int, maxTotal: nat,
                         header: Ranges.Header)
    returns (excerpts: seq<Excerpt>, passed: nat)
    ensures TotalSize(excerpts) <= maxTotal && passed <= |paths|
    ensures Stopped(FilesAt(paths, disk, RangesIn(diff)), context, maxFiles, maxTotal, header, excerpts, passed)
    ensures WentOn(FilesAt(paths, disk, RangesIn(diff)), context, maxFiles, header, passed)
  {
    var ranges := D.ChangedLineRanges(diff);
    var files := CollectFiles(paths, disk, ranges, RangesIn(diff));
    excerpts, passed := BuildExcerpts(files, context, maxFiles, maxTotal, header);
  }

  method CollectFiles(paths: seq<string>, disk: Disk, ranges: D.PathRanges, ghost lookup: string -> seq<Range>)
    returns (files: seq<File>)
    requires forall p :: D.At(ranges, p) == lookup(p)
    ensures files == FilesAt(paths, disk, lookup)
  {
    files := [];
    for n := 0 to |paths|
      invariant files == FilesAt(paths[..n], disk, lookup)
    {
      Sequences.OneFurther(paths, n);
      files := files + [File(paths[n], disk(paths[n]), D.At(ranges, paths[n]))];
    }
    Sequences.Whole(paths);
  }

  /** Line `k` of the new file is on the new side of a modified hunk of the file's diff. */
  ghost predicate InModifiedHunk(f: D.FileDiff, h: nat, k: int) {
    && h < |f.hunks|
    && var header := f.hunks[h].header;
       D.Modified(header) && header.after.start <= k < header.after.start + D.Count(header.after)
  }

  lemma {:induction false} HunkHeaderAt(hunks: seq<D.Hunk>, h: nat)
    requires h < |hunks|
    ensures h < |D.HunkHeaders(hunks)| && D.HunkHeaders(hunks)[h] == hunks[h].header
    decreases |hunks|
  {
    if h > 0 {
      HunkHeaderAt(hunks[1..], h - 1);
    }
  }

  lemma {:induction false} CoveredInPart(a: seq<Range>, b: seq<Range>, k: int)
    ensures Covered(a, k) || Covered(b, k) ==> Covered(a + b, k)
  {
    if Covered(a, k) {
      var i :| 0 <= i < |a| && Has(a[i], k);
      assert (a + b)[i] == a[i];
    }
    if Covered(b, k) {
      var i :| 0 <= i < |b| && Has(b[i], k);
      assert (a + b)[|a| + i] == b[i];
    }
  }

  lemma {:induction false} HunksOfPathAreCovered(diffs: seq<D.FileDiff>, d: nat, h: nat, k: int, path: string)
    requires d < |diffs| && diffs[d].path == Some(path) && InModifiedHunk(diffs[d], h, k)
    ensures Covered(D.DiffRangesFor(diffs, path), k)
    decreases |diffs|
  {
    var n := |diffs| - 1;
    var before := D.DiffRangesFor(diffs[..n], path);
    var own := if diffs[n].path == Some(path) then D.HeaderRanges(D.HunkHeaders(diffs[n].hunks)) else [];
    CoveredInPart(before, own, k);
    if d == n {
      HunkHeaderAt(diffs[d].hunks, h);
      D.RangesCoverHunks(D.HunkHeaders(diffs[d].hunks), h, k);
    } else {
      HunksOfPathAreCovered(diffs[..n], d, h, k, path);
    }
  }

  /** From the printed diff to the excerpts: of a listed file that preloading got past, every line that the
      file has and that is on the new side of a modified hunk is in an excerpt of that file. */
  lemma {:induction false} ModifiedLinesArePreloaded(diffs: seq<D.FileDiff>, paths: seq<string>, disk: Disk,
                                                     context: nat, maxFiles: int, maxTotal: nat,
                                                     header: Ranges.Header, excerpts: seq<Excerpt>, passed: nat,
                                                     n: nat, d: nat, h: nat, k: int)
    requires forall i :: 0 <= i < |diffs| ==> D.Printable(diffs[i])
    requires n < passed <= |paths|
    requires Stopped(FilesAt(paths, disk, RangesIn(D.DiffText(diffs))), context, maxFiles, maxTotal, header,
                     excerpts, passed)
    requires d < |diffs| && diffs[d].path == Some(paths[n]) && InModifiedHunk(diffs[d], h, k)
    requires 1 <= k <= |disk(paths[n])|
    ensures Excerpted(excerpts, paths[n], k)
  {
    var ranges := RangesIn(D.DiffText(diffs));
    var files := FilesAt(paths, disk, ranges);
    D.PrintedDiffReadsBack(diffs, paths[n]);
    HunksOfPathAreCovered(diffs, d, h, k, paths[n]);
    PreloadedFilesAreDone(files, n, context, maxFiles, maxTotal, header, excerpts, passed);
    ChangedLineDone(excerpts, files[n], k);
  }

  lemma {:induction false} ChangedLineDone(excerpts: seq<Excerpt>, file: File, k: int)
    requires FileDone(excerpts, file) && Covered(file.changed, k) && 1 <= k <= |file.lines|
    ensures Excerpted(excerpts, file.path, k)
  {
  }
}
