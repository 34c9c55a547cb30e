# Models of the agent tooling

This project models the algorithms and protocols under the agents of robotsix-mill in Dafny and proves
what they are for. `dafny verify dfyconfig.toml` checks all of it.

| file | what it models |
|---|---|
| `FullRead.dfy` | the head and tail shown of a file over the character cap |
| `FileOps.dfy`, `Text.dfy` | write, edit and delete as operations on one file; find, split, join and replace as Python does them |
| `FileSession.dfy` | the object all file tools share: cache, served ranges, read count, command history |
| `FileConcurrency.dfy` | the mutating tools as threads over disk, cache and lock table |
| `Ranges.dfy`, `DiffRanges.dfy`, `DiffPreload.dfy` | range merging and the byte-budgeted preload, diff to line ranges, and both together |
| `Separators.dfy`, `BlockFile.dfy`, `CandidateBlocks.dfy`, `Candidates.dfy` | the candidates file: separator, sweep, status update, block format |
| `PushProtocol.dfy` | the lease push with verification and retries, against an adversarial remote |
| `EpicPlan.dfy`, `Graphs.dfy` | the dependency planner and reachability |
| `Glob.dfy` | the glob compiler, with a small regular-expression semantics |
| `MemoryRepair.dfy` | the JSON string repair, with an escaper and a reader |
| `Utf8.dfy` | the byte cap on text |
| `Watchdog.dfy` | the progress watchdog as a timed step system |
| `FailureTracker.dfy` | the consecutive-failure tracker |
| `PromptStrip.dfy` | the prompt stripper and its guard |
| `LogTail.dfy`, `JobLogCap.dfy` | the log query's collection loop and the per-job log cap |
| `Lines.dfy`, `Sequences.dfy`, `Options.dfy` | lines and white space, facts about slices, the optional value |

Objects whose methods update fields are classes (`FsToolState`, `PushTool`, `Tracker`) whose methods are
proved equal to functions on values; what holds over whole runs is proved about those functions. Loops are
methods with invariants. Lists and dictionaries are `seq` and `map`.

## What came out

- A write that fails after the file was truncated (a full disk, or text that cannot be encoded) does not
  drop the cache entry, so later reads return text that is gone: `FileSession.TornWriteBreaksCache` and, for edits,
  `FileSession.TornEditBreaksCache`, say exactly when.
- A full read is recorded as the whole file even when lines were left out of the reply, and those lines are
  then refused. `FileSession.FullReadRefusalExactly` says for which texts that happens.
- A push can overwrite a branch that has just appeared, exactly when there is no tracking ref to begin with
  (`PushProtocol.NothingOverwrittenUnseenExactly`), and from every state the retry after a push that did not land
  can replace a foreign commit (`PushProtocol.RetryCanReplaceForeignCommit`).
- A consumer of two producing repositories waits for the last ticket only: it waits for all its tickets exactly
  when there is at most one (`EpicPlan.AllTicketsKeptExactly`). `EpicPlan.StarTicketExactly` and
  `EpicPlan.ChainTicketExactly` say when another child makes up for it.
- A producer listed after its consumer makes a chain cyclic (`EpicPlan.ChainIsAcyclicExactly`).
- `src/**` accepts directories with their slash and no file, though the documentation (expert_manager.py:161-171)
  lets two stars stand for any number of segments: `Glob.TrailingStarsAcceptNoFile`. And a prefix that ends in two
  stars swallows the slash after it: `Glob.SegmentsBetweenExactly`.
- The pattern that recognises a Status line also takes the blank lines after it; the model does too.
- Taking a line out of a prompt can bring a call directive about that runs over a line break, which the guard
  reports: `PromptStrip.StrippingCanMakeADirective`. `PromptStrip.GuardReportsExactly` says for which prompts.
- The watchdog can time out although there was progress before the deadline: a signal after the last test of the
  flag is not looked at. `Watchdog.SignalCanBeLostExactly` says for which timeout, poll interval and speed.
- A job log can be announced as capped although nothing was cut:
  `JobLogCap.OverlongLogStaysWholeExactly`, `JobLogCap.OverlongLogExample`.
- Two lone surrogates that happen to be adjacent read back as one character after the memory repair:
  `MemoryRepair.RoundTripExactly`.

## Model

| member | source | states |
|---|---|---|
| `FullRead.BoundFullRead` | src/robotsix_mill/agents/fs_tools.py:48-103 | the two collecting loops show exactly the longest head and tail of whole lines (at least one each) that fit two thirds and one third of the cap, and the marker numbers |
| `FullRead.TakeWithin` | src/robotsix_mill/agents/fs_tools.py:74-80 | one collecting loop takes the longest prefix of lines within the budget, but at least one line |
| `FullRead.FillsOnce` | src/robotsix_mill/agents/fs_tools.py:74-88 | that description determines the number of lines, so it is an independent specification of the loops |
| `FullRead.ElidedParts` | src/robotsix_mill/agents/fs_tools.py:70-103 | head, omitted lines and tail make up the text, and the marker names exactly the omitted line range and the total |
| `FullRead.PartsWithinBudget` | src/robotsix_mill/agents/fs_tools.py:71-88 | each shown part keeps its budget if and only if the first (last) line of the text does |
| `FullRead.BoundedViewIsWithinCap` | src/robotsix_mill/agents/fs_tools.py:63-103 | with both of those lines in budget: shown characters within the cap, head and tail disjoint, the omitted range not empty |
| `FullRead.NothingOmittedExactly` | src/robotsix_mill/agents/fs_tools.py:69-103 | no line is left out if and only if the text is within the cap, has at most two lines, or has all lines but the last within the head budget or all but the first within the tail budget |
| `FullRead.NothingOmittedWithinCap` | src/robotsix_mill/agents/fs_tools.py:69-103 | with the first and the last line in budget: no line is left out if and only if the text is within the cap |
| `Text.SplitThenJoin` | src/robotsix_mill/agents/fs_tools.py:1556-1574 | splitting at leftmost non-overlapping occurrences loses nothing and leaves pieces that hold no earlier occurrence |
| `Text.JoinThenSplit` | src/robotsix_mill/agents/candidates.py:165-205 | joining pieces of that shape and splitting again gives the same pieces back |
| `Text.ReplaceIsRejoin` | src/robotsix_mill/agents/fs_tools.py:1578 | replacing the first n occurrences is cutting there and joining with the new text; joined with the old text the pieces are the original |
| `Text.ReplaceAll` | src/robotsix_mill/agents/fs_tools.py:1559-1578 | replacing as many occurrences as there are replaces all of them |
| `FileOps.EditSwapsFirstOccurrences` | src/robotsix_mill/agents/fs_tools.py:1556-1587 | a successful edit swaps exactly the first k occurrences, k at most the number there are, also of the empty string, which stands between any two characters; a lone replacement of a non-empty string without replace_all needs a unique occurrence; replace_all replaces all |
| `FileSession.FsToolState.constructor` | src/robotsix_mill/agents/fs_tools.py:742-793 | the session starts with the given disk and pre-seeded cache and no records |
| `FileSession.FsToolState.ReadCached` | src/robotsix_mill/agents/fs_tools.py:980-994 | the text is the cached copy or the decoded disk content, which is then cached |
| `FileSession.FsToolState.FindCovering` | src/robotsix_mill/agents/fs_tools.py:1362-1394 | the first record that covers the request, found by the loop |
| `FileSession.FsToolState.ReadFile` | src/robotsix_mill/agents/fs_tools.py:1140-1443 | the whole new state and reply: cap, missing file, refusal, full or partial reply, recorded range |
| `FileSession.FsToolState.ServeText` | src/robotsix_mill/agents/fs_tools.py:1396-1443 | what a read that is not refused records and returns, with the upgrade to an open-ended or full read |
| `FileSession.FsToolState.WriteFile` | src/robotsix_mill/agents/fs_tools.py:1468-1518 | rejected content changes nothing; a write replaces the content and drops cache and records; the failing kinds of write leave what they leave |
| `FileSession.FsToolState.EditFile` | src/robotsix_mill/agents/fs_tools.py:1520-1589 | every refusal branch in order, and the new content with cache and records dropped on success |
| `FileSession.FsToolState.DeleteFile` | src/robotsix_mill/agents/fs_tools.py:1591-1607 | a deleted file loses its cache entry and records; a missing one is an error |
| `FileSession.FsToolState.RunCommand` | src/robotsix_mill/agents/fs_tools.py:1751-1853 | exact repeats and covered re-reads are refused, anything else is recorded and run |
| `FileSession.RunKeeps` | src/robotsix_mill/agents/fs_tools.py:976-994 | over every run of reads, mutations and commands without torn writes, every cached entry equals the disk and every recorded range was shown or cut |
| `FileSession.RefusalsAreSound` | src/robotsix_mill/agents/fs_tools.py:1362-1394 | every refusal of a read or a re-reading command is sound: each existing requested line was shown by an earlier read of the file as it still is, unless the refusal names the whole-file record and the cut of that full read left the line out |
| `FileSession.FullReadRefusalExactly` | src/robotsix_mill/agents/fs_tools.py:1429-1431 | after a full read every single-line request is refused, and all lines were handed over if and only if the text is within the cap, has at most two lines, or has all lines but one within the budget of head or tail |
| `FileSession.CachedReadIsDiskRead` | src/robotsix_mill/agents/fs_tools.py:980-994 | with a coherent cache the reply of any read, and all it changes but the cache, is what it would be with no cache |
| `FileSession.CacheIsInvisible` | src/robotsix_mill/agents/fs_tools.py:980-994 | over every run without torn writes all replies, the disk, the records and the history are those of a session whose cache is dropped before every call |
| `FileSession.MutationRefinesDisk` | src/robotsix_mill/agents/fs_tools.py:1468-1607 | with a coherent cache every mutation does to the disk, and reports, what the same call does to a plain disk; if the file cannot be opened the disk stays as it is, and only a call that would have succeeded reports differently |
| `FileSession.TornWriteBreaksCache` | src/robotsix_mill/agents/fs_tools.py:1506-1518 | a write that fails after truncating the file leaves the cache right if and only if nothing was cached for the path or the cached text is what was left |
| `FileSession.TornEditBreaksCache` | src/robotsix_mill/agents/fs_tools.py:1556-1587 | an edit that fails that way, whose file is always cached, leaves the cache right if and only if what was left reads as the old text |
| `FileConcurrency.EveryInterleavingIsSerial` | src/robotsix_mill/agents/fs_tools.py:937-940 | in every interleaving of any number of mutations the final disk is that of running them one at a time in lock-acquisition order, and each call reported its result in that serial run |
| `FileConcurrency.QuietFilesAreSerial` | src/robotsix_mill/agents/fs_tools.py:1506-1606 | at every moment of every interleaving a file no call is inside of has its serial content and no stale cache entry |
| `FileConcurrency.NeverStuck` | src/robotsix_mill/agents/fs_tools.py:937-940 | while a call has not returned some call can step |
| `FileConcurrency.OneInside` | src/robotsix_mill/agents/fs_tools.py:795-824 | the lock table lets at most one call per path inside |
| `FileConcurrency.RunKeepsInv` | src/robotsix_mill/agents/fs_tools.py:1504-1606 | the invariant of lock table, order, disk and cache holds in every reachable state |
| `Ranges.ExpandAndMerge` | src/robotsix_mill/agents/fs_tools.py:106-133 | the loops compute the merged ranges that `Ranges.MergedIs` characterises |
| `Ranges.MergeSorted` | src/robotsix_mill/agents/fs_tools.py:124-133 | the merging loop absorbs the sorted ranges one after the other, which keeps the union and separates the ranges (`Ranges.MergedIs`) |
| `Ranges.MergedIs` | src/robotsix_mill/agents/fs_tools.py:106-133 | the merged ranges lie in the file, are increasing with a gap between any two, and cover exactly the lines of the clamped expanded inputs |
| `Ranges.SeparatedIsUnique` | src/robotsix_mill/agents/fs_tools.py:106-133 | there is only one such list of ranges: separation and cover determine the result |
| `Ranges.BuildExcerpts` | src/robotsix_mill/agents/fs_tools.py:212-286 | the total stays in the budget; of each passed file the excerpts are exactly its merged ranges, in order; of the file stopped at they are none, because the limit on excerpts was reached before it, or a prefix of its merged ranges whose next one would exceed the budget |
| `Ranges.PreloadFile` | src/robotsix_mill/agents/fs_tools.py:242-286 | one file's step: all its merged ranges are excerpted, or a prefix of them and the next one would exceed the budget |
| `Ranges.MakeExcerpts` | src/robotsix_mill/agents/fs_tools.py:243-286 | the loop over the merged ranges: how far it comes, what it makes, and why it stops |
| `Ranges.PreloadedFilesAreDone` | src/robotsix_mill/agents/fs_tools.py:212-286 | wherever preloading stopped, every changed line that a passed file really has is in an excerpt of that file |
| `Ranges.OnlyNearChanges` | src/robotsix_mill/agents/fs_tools.py:212-286 | no excerpt holds a line that is not within the context of a changed range of a listed file |
| `Ranges.AllFilesPassExactly` | src/robotsix_mill/agents/fs_tools.py:212-286 | every file is passed if and only if all excerpts fit the byte budget and before each file there are fewer of them than the limit |
| `DiffPreload.PreloadFromDiff` | src/robotsix_mill/agents/reviewing.py:395-407 | the ranges are read from the diff text and the listed files are excerpted by them, with the guarantees of the excerpt loop |
| `DiffPreload.ModifiedLinesArePreloaded` | src/robotsix_mill/agents/reviewing.py:395-407 | from the printed diff to the excerpts: of a listed file that preloading got past, every line the file has that is on the new side of a modified hunk is in an excerpt of that file |
| `DiffRanges.SplitDiffByFile` | src/robotsix_mill/agents/diff_utils.py:16-38 | the chunks at the file marks that have a path and are not blank, in order |
| `DiffRanges.ChangedLineRanges` | src/robotsix_mill/agents/diff_utils.py:48-67 | each path maps to the new sides of its modified hunks in order, and no path to an empty list |
| `DiffRanges.HeaderReads` | src/robotsix_mill/agents/diff_utils.py:41-45 | a printed hunk header reads back as its four numbers, whatever heading follows |
| `DiffRanges.HeadersTrimmed` | src/robotsix_mill/agents/diff_utils.py:28-45 | stripping white space from the end of a chunk changes no hunk header |
| `DiffRanges.PrintedDiffReadsBack` | src/robotsix_mill/agents/diff_utils.py:16-67 | reading a printed diff gives for every path exactly the new sides of its modified hunks: body lines that look like marks, paths or headers do not disturb it |
| `DiffRanges.RangesCoverHunks` | src/robotsix_mill/agents/diff_utils.py:58-67 | every new-side line of a modified hunk is in one of the ranges |
| `Separators.CleanIs` | src/robotsix_mill/agents/candidates.py:30 | a block can be followed by a separator without an earlier one arising, although the separator overlaps itself, if and only if no line of it but the first is a rule |
| `Separators.NoSeparator` | src/robotsix_mill/agents/candidates.py:30 | a text holds no separator if and only if no inner line is a rule |
| `BlockFile.Classify` | src/robotsix_mill/agents/candidates.py:216-240 | the three index lists are the blocks of each kind in order |
| `BlockFile.PruneCandidates` | src/robotsix_mill/agents/candidates.py:243-306 | the new text is the join of exactly the blocks that stay, with the final line feed restored; nothing is written if nothing is dropped |
| `BlockFile.SurvivorsAre` | src/robotsix_mill/agents/candidates.py:269-306 | every pending block survives, the resolved survivors are exactly the newest min(resolved, max(0, cap - pending)), blank pieces stay, unreadable ones go, each kind in its order |
| `BlockFile.PrunedFileResplits` | src/robotsix_mill/agents/candidates.py:269-306 | whenever a block is kept, splitting the file written yields exactly the kept raw blocks in order; the last may have gained a line feed |
| `BlockFile.SecondPruneDropsNothing` | src/robotsix_mill/agents/candidates.py:243-306 | a second sweep drops nothing, for every way of telling kinds that ignores a final line feed |
| `Candidates.SweepSettles` | src/robotsix_mill/agents/candidates.py:243-306 | the same for the real candidate parser |
| `BlockFile.UpdateBlock` | src/robotsix_mill/agents/candidates.py:178-205 | the first block with the id is rewritten, all others are left alone, the final line feed is restored |
| `BlockFile.EditedFileResplits` | src/robotsix_mill/agents/candidates.py:195-205 | splitting the edited file gives the old blocks with only the target replaced |
| `Candidates.UpdateStatus` | src/robotsix_mill/agents/candidates.py:156-213 | the new text and the returned candidate for the first block whose id matches; nothing if none does |
| `Candidates.RewriteKeepsPlace` | src/robotsix_mill/agents/candidates.py:137-153 | rewriting the Status line of any block that parses never lets a separator appear in or around it |
| `Candidates.UpdatedFileResplits` | src/robotsix_mill/agents/candidates.py:178-205 | after an update the file splits into the same number of blocks in the same order, every block but the target unchanged |
| `Candidates.UpdateKeepsId` | src/robotsix_mill/agents/candidates.py:137-153 | for blocks in the writer's format the rewritten target has the same candidate id, the new status and the new ticket |
| `CandidateBlocks.EntryParses` | src/robotsix_mill/agents/candidates.py:78-108 | a block in the writer's format, with or without surrounding blank lines, parses to its section, rule, date, source, status and ticket, and to the rationale read above its Proposed line |
| `CandidateBlocks.RewrittenEntryParses` | src/robotsix_mill/agents/candidates.py:137-153 | after the rewrite it parses to the same fields, rationale included, with the new status and ticket, whether the Status line was replaced, inserted or appended |
| `CandidateBlocks.WholeRationaleRead` | src/robotsix_mill/agents/candidates.py:33-36 | the rationale reads back as written when no mark of a rationale stands above it and no part of it looks like its end |
| `CandidateBlocks.UpToCloseIsAll` | src/robotsix_mill/agents/candidates.py:33-36 | the lines below are all read as rationale if and only if none of them looks like its end: an empty line with a Proposed or Status mark below |
| `CandidateBlocks.StatusLineReads` | src/robotsix_mill/agents/candidates.py:131-134 | the line written reads back as the status and ticket it was given |
| `CandidateBlocks.ParseTerminated` | src/robotsix_mill/agents/candidates.py:78-108 | a line feed added at the end of a block does not change how it parses |
| `CandidateBlocks.ParsedHasProposed` | src/robotsix_mill/agents/candidates.py:145-153 | a block that parses has a Proposed line, so its Status line can always be placed |
| `PushProtocol.PushTool.Fetch` | src/robotsix_mill/scm/vcs/git_ops.py:807-819 | a fetch moves the tracking ref to the remote branch, or leaves it when the branch is missing or the network fails |
| `PushProtocol.PushTool.PushWithLease` | src/robotsix_mill/scm/vcs/git_ops.py:998-1033 | nothing to do when the remote branch is at the local HEAD; else leased on the tracking ref if there is one, forced otherwise; what the remote branch becomes |
| `PushProtocol.PushTool.PushAndVerify` | src/robotsix_mill/agents/bridged_git_tools.py:183-228 | the result of a push and of the re-read that follows one that exited with 0 |
| `PushProtocol.PushTool.GitPushWithLease` | src/robotsix_mill/agents/bridged_git_tools.py:125-279 | the whole protocol: fetch, push and verify, one retry after not landing, one after an authentication failure with a different token |
| `PushProtocol.RunIsSound` | src/robotsix_mill/agents/bridged_git_tools.py:183-279 | whatever others do between steps: success only if the last step re-read the remote branch at the local HEAD, at most two pushes, a second one only when due, never the internal outcome |
| `PushProtocol.PushAndVerifyLog` | src/robotsix_mill/agents/bridged_git_tools.py:183-228 | the events of one push and its verification, and the outcome each result leads to |
| `PushProtocol.OnlyUnleasedPushesOverwriteUnseen` | src/robotsix_mill/agents/bridged_git_tools.py:125-279 | over whole runs only a push made without a tracking ref replaces a commit that was not read |
| `PushProtocol.NothingOverwrittenUnseenExactly` | src/robotsix_mill/agents/bridged_git_tools.py:125-279 | from any state: no push of the run replaces an unread commit, whatever the others and the network do, if and only if there is a tracking ref to begin with |
| `PushProtocol.AppearingBranchIsOverwritten` | src/robotsix_mill/agents/bridged_git_tools.py:170-181 | from any state without a tracking ref, a run in which the branch is missing at the fetch, is there with any foreign commit at the push, is overwritten, and success is reported |
| `PushProtocol.RetryIsLeasedOnReread` | src/robotsix_mill/agents/bridged_git_tools.py:242-255 | the retry after not landing is leased on what the verification read, so what it replaces is that commit, which is not the local HEAD |
| `PushProtocol.RetryCanReplaceForeignCommit` | src/robotsix_mill/agents/bridged_git_tools.py:242-255 | from any state and for any foreign commit, a run in which the retry replaces that commit, pushed by others after the first fetch, and success is reported |
| `Glob.GlobToRegex` | src/robotsix_mill/agents/expert_manager.py:177-203 | the loop emits the pieces of the recursive compilation |
| `Glob.CompiledMatchesGlob` | src/robotsix_mill/agents/expert_manager.py:177-203 | the compiled expression fully matches a path, line feeds included, if and only if a direct recursive matcher accepts it |
| `Glob.SegmentsBetween` | src/robotsix_mill/agents/expert_manager.py:184-193 | prefix/**/suffix matches if and only if whole segments, zero or more, separate a match of the prefix from one of the suffix |
| `Glob.SegmentsBetweenExactly` | src/robotsix_mill/agents/expert_manager.py:184-193 | that holds on all paths if and only if the prefix does not itself end in two stars |
| `Glob.TrailingStars` | src/robotsix_mill/agents/expert_manager.py:161-203 | for a prefix that does not end in two stars, prefix/** and prefix/**/ accept the same paths: a match of the prefix, a slash, and whole segments with their slashes |
| `Glob.TrailingStarsAcceptNoFile` | src/robotsix_mill/agents/expert_manager.py:161-203 | so prefix/** accepts no path that does not end in a slash |
| `Glob.MatchModulePaths` | src/robotsix_mill/agents/expert_manager.py:206-220 | true if and only if some pattern accepts the path |
| `EpicPlan.ComputeBaseEdges` | src/robotsix_mill/agents/epic_breakdown.py:320-347 | star or chain edges, with the predecessor at the head |
| `EpicPlan.GroupBumpCandidates` | src/robotsix_mill/agents/epic_breakdown.py:189-215 | the loops collect the wants in order |
| `EpicPlan.CollectGroups` | src/robotsix_mill/agents/epic_breakdown.py:199-215 | the groups are one per repository pair and hold exactly the children that want something of that pair |
| `EpicPlan.DetectCrossRepoDeps` | src/robotsix_mill/agents/epic_breakdown.py:267-286 | the edges of the tickets, later ones overriding earlier ones |
| `EpicPlan.ExtraDeps` | src/robotsix_mill/agents/epic_breakdown.py:182-186 | each ticket depends on all children of its producing repository; each child on the last ticket that has it as a consumer |
| `EpicPlan.PlanChildDependencies` | src/robotsix_mill/agents/epic_breakdown.py:350-407 | the returned edges are the base dependencies followed by the bump dependency, for every id |
| `EpicPlan.PlannedGroups` | src/robotsix_mill/agents/epic_breakdown.py:189-215 | the planner's own groups always have producers and never make a child wait for its own repository |
| `EpicPlan.PlanIsAcyclic` | src/robotsix_mill/agents/epic_breakdown.py:350-407 | with producers before their consumers the planned graph has no cycle |
| `EpicPlan.ChainIsAcyclicExactly` | src/robotsix_mill/agents/epic_breakdown.py:340-347 | a chain is acyclic if and only if every waiting child comes after all children of the producing repository |
| `EpicPlan.StarIsAcyclicExactly` | src/robotsix_mill/agents/epic_breakdown.py:333-339 | a star is acyclic if and only if the init child waits for no ticket and the waiting relation among children has no cycle |
| `EpicPlan.WaitingInitChildMakesCycle` | src/robotsix_mill/agents/epic_breakdown.py:333-339 | an init child that waits for a ticket always closes a cycle |
| `EpicPlan.ChainReaches` | src/robotsix_mill/agents/epic_breakdown.py:340-347 | in a chain every child transitively depends on all earlier ones |
| `EpicPlan.StarReaches` | src/robotsix_mill/agents/epic_breakdown.py:333-339 | in a star every other child depends on the init child |
| `EpicPlan.ConsumerReachesProducers` | src/robotsix_mill/agents/epic_breakdown.py:182-186 | a waiting child transitively depends on every child of the producing repository |
| `EpicPlan.OnlyGroupIsLast` | src/robotsix_mill/agents/epic_breakdown.py:267-286 | a consumer in a single group waits for that group's ticket |
| `EpicPlan.AllTicketsKeptExactly` | src/robotsix_mill/agents/epic_breakdown.py:267-286 | a child depends directly on the ticket of every group that lists it if and only if at most one group with a ticket lists it |
| `EpicPlan.TicketThroughWaiter` | src/robotsix_mill/agents/epic_breakdown.py:350-407 | a child depends transitively on a ticket if and only if it is, or depends on, a child whose last ticket that is |
| `EpicPlan.StarTicketExactly` | src/robotsix_mill/agents/epic_breakdown.py:333-339 | in a star whose init child waits for nothing, that dependency runs over tickets alone |
| `EpicPlan.ChainTicketExactly` | src/robotsix_mill/agents/epic_breakdown.py:340-347 | in a chain without a cycle, a child depends on a ticket if and only if it or an earlier child has it as its last |
| `EpicPlan.FirstOfTwoTicketsIsLost` | src/robotsix_mill/agents/epic_breakdown.py:284 | a valid plan that the planner itself makes, in which a consumer of two producers is listed for both tickets and never waits, even transitively, for the first ticket or its producer |
| `EpicPlan.TwoGroups` | src/robotsix_mill/agents/epic_breakdown.py:189-215 | the planner makes those two tickets |
| `MemoryRepair.IsStructuralQuoteEnd` | src/robotsix_mill/agents/retrospecting.py:113-130 | true if and only if the quote is followed by a closing brace, or by a comma and then a quote or closing brace |
| `MemoryRepair.FindMemoryValueEnd` | src/robotsix_mill/agents/retrospecting.py:133-151 | the first structurally terminated quote after an even run of backslashes, or none if there is none |
| `MemoryRepair.RepairMemoryField` | src/robotsix_mill/agents/retrospecting.py:154-190 | the input, or valid text that differs only in the value of the first such field, which reads back as the raw value and ends at the same quote; and a repair that would be valid is made |
| `MemoryRepair.EscapedStringReads` | src/robotsix_mill/agents/retrospecting.py:183-185 | by section 7 of RFC 8259 the re-escaped value reads back as the raw text with adjacent lone surrogates combined, ending at its closing quote |
| `MemoryRepair.RoundTripExactly` | src/robotsix_mill/agents/retrospecting.py:183-185 | the raw text comes back exactly if and only if it has no lone high surrogate right before a lone low one |
| `Utf8.CutDecodesToFittingPrefix` | src/robotsix_mill/agents/fleet_file_tools.py:60-69 | cutting the encoding (section 3 of RFC 3629) at n bytes and decoding without the broken tail yields the text's characters that fit |
| `Utf8.FittingIsLongest` | src/robotsix_mill/agents/fleet_file_tools.py:60-69 | a prefix fits in n bytes if and only if it is no longer than that |
| `Utf8.DecodeEncode` | src/robotsix_mill/agents/fleet_file_tools.py:60-69 | decoding undoes encoding |
| `Utf8.CapTextKeepsLongestPrefix` | src/robotsix_mill/agents/fleet_file_tools.py:60-69 | the kept text is the longest whole-character prefix within the cap, and the notice appears exactly when something was dropped |
| `Watchdog.RunKeeps` | src/robotsix_mill/agents/coordinating.py:397-441 | the invariant relating deadline, flag, clock and signals in every reachable state of loop and signallers |
| `Watchdog.TimeoutMeansSilentWindow` | src/robotsix_mill/agents/coordinating.py:414-441 | a timeout is raised only when the deadline is past, and every signal since the last reset then came after the last test of the flag, which was at most one statement before the deadline |
| `Watchdog.SilentRunIsKilledInTime` | src/robotsix_mill/agents/coordinating.py:414-441 | at no moment is a run later than its last signal plus timeout plus poll interval plus the time of twelve statements, even when signals land between testing and clearing the flag |
| `Watchdog.SignalCanBeLostExactly` | src/robotsix_mill/agents/coordinating.py:418-441 | a run can time out although a signal came after the last reset and before the deadline if and only if some number of whole rounds can end before the deadline by less than one statement |
| `Watchdog.NothingIsLost` | src/robotsix_mill/agents/coordinating.py:418-441 | no such signal is lost when statements take no time, or when they are faster than the timeout and the poll interval is at least the timeout |
| `Watchdog.LostSignalExample` | src/robotsix_mill/agents/coordinating.py:418-441 | numbers for which one can be lost, and numbers for which none can |
| `FailureTracker.Tracker.Observe` | src/robotsix_mill/agents/periodic_loader.py:385-427 | one cycle returns, in order, the latest failure of every file whose streak has just reached the threshold, and keeps the fields equal to the streaks |
| `FailureTracker.Tracker.Count` | src/robotsix_mill/agents/periodic_loader.py:402-427 | the loop counts every failing file once and collects those due |
| `FailureTracker.CycleTracks` | src/robotsix_mill/agents/periodic_loader.py:394-427 | dropping what did not fail and counting what did keeps counts equal to current streaks and the reported set equal to the streaks at or over the threshold |
| `FailureTracker.ReportedOncePerStreak` | src/robotsix_mill/agents/periodic_loader.py:394-427 | between two reports of a file there is a cycle in which it did not fail |
| `FailureTracker.LongStreakIsReported` | src/robotsix_mill/agents/periodic_loader.py:394-427 | a streak of at least the threshold is reported in exactly one cycle, the one that completes the threshold |
| `PromptStrip.StripDisabledToolDirectives` | src/robotsix_mill/agents/prompt_tool_consistency.py:88-125 | the nested loops take out exactly the lines that hold a directive or lie in a bullet item that does |
| `PromptStrip.GatherBlock` | src/robotsix_mill/agents/prompt_tool_consistency.py:100-113 | the inner loop gathers a bullet line with its deeper, non-blank, non-bullet lines |
| `PromptStrip.SurvivorsInOrder` | src/robotsix_mill/agents/prompt_tool_consistency.py:88-125 | the survivors are the lines that do not go, each once and in order |
| `PromptStrip.NoLineMatches` | src/robotsix_mill/agents/prompt_tool_consistency.py:88-125 | no line of the stripped prompt holds a directive for a disabled tool |
| `PromptStrip.OnlyBrokenDirectivesStay` | src/robotsix_mill/agents/prompt_tool_consistency.py:88-125 | any directive left for a disabled tool runs over a line break |
| `PromptStrip.GuardAfterStripping` | src/robotsix_mill/agents/prompt_tool_consistency.py:34-67 | afterwards the build-time guard reports a disabled tool if and only if a directive for it over a line break is left |
| `PromptStrip.GuardReportsExactly` | src/robotsix_mill/agents/prompt_tool_consistency.py:34-125 | that is so if and only if the prompt has two lines that stay, the upper ending in an unfinished directive for the tool, the lower starting with its parenthesis, and all lines between them going or blank |
| `PromptStrip.NoReportWithoutOpenLines` | src/robotsix_mill/agents/prompt_tool_consistency.py:34-125 | nothing is reported when no line of the prompt ends in an unfinished directive |
| `PromptStrip.StrippingCanMakeADirective` | src/robotsix_mill/agents/prompt_tool_consistency.py:88-125 | a prompt in which taking a line out brings such a directive about |
| `PromptStrip.CleanPromptIsKept` | src/robotsix_mill/agents/prompt_tool_consistency.py:88-125 | a prompt without directives for disabled tools comes back unchanged |
| `LogTail.QueryAppLogs` | src/robotsix_mill/agents/log_tools.py:102-144 | for every max_lines the answer is exactly the last max_lines wanted lines of the oldest-to-newest concatenation of the per-file windows (none when negative), and the overflow is exactly the number left out |
| `LogTail.CollectFile` | src/robotsix_mill/agents/log_tools.py:119-126 | the inner loop, over one window from its end |
| `LogTail.ChronicleIs` | src/robotsix_mill/agents/log_tools.py:110-126 | that concatenation holds exactly the wanted lines of the windows |
| `LogTail.OldFilesDoNotShow` | src/robotsix_mill/agents/log_tools.py:110-126 | once the newest files fill the answer, older files change nothing in it but the count |
| `JobLogCap.CapLogText` | src/robotsix_mill/agents/ci_log_fetch_tool.py:46-84 | an over-long log comes back as one part a section, each whole or cut to the head and tail its budget allows, then the closing note |
| `JobLogCap.CapSection` | src/robotsix_mill/agents/ci_log_fetch_tool.py:65-77 | head, dropped middle and tail make up the section; head is a quarter of the budget |
| `JobLogCap.KeptWithinBudget` | src/robotsix_mill/agents/ci_log_fetch_tool.py:61-77 | over n sections at most max_chars + 2000 n characters of log stay |
| `JobLogCap.SectionsRejoin` | src/robotsix_mill/agents/ci_log_fetch_tool.py:56-60 | splitting, re-heading and joining by line breaks reproduces the log |
| `JobLogCap.SectionsTotal` | src/robotsix_mill/agents/ci_log_fetch_tool.py:57-61 | the sections together are shorter than the log by one line break a border |
| `JobLogCap.CutExactly` | src/robotsix_mill/agents/ci_log_fetch_tool.py:63-77 | a section is cut if and only if it is over 2000 characters and the sections together are over the cap |
| `JobLogCap.NothingCutIsVerbatim` | src/robotsix_mill/agents/ci_log_fetch_tool.py:63-78 | with nothing cut the body is the log itself |
| `JobLogCap.OverlongLogStaysWholeExactly` | src/robotsix_mill/agents/ci_log_fetch_tool.py:54-84 | a log over the cap comes back whole under the capped note if and only if no job is over 2000 characters or it fits once line breaks between jobs are not counted |
| `JobLogCap.OverlongLogExample` | src/robotsix_mill/agents/ci_log_fetch_tool.py:54-84 | such a log |

## Left out

- FileSession.RunKeeps: runs with torn writes are excluded, because for those the property is false; `FileSession.TornWriteBreaksCache` and `FileSession.TornEditBreaksCache` say exactly when.
- FileSession.CacheIsInvisible: the same runs are excluded.
- FileSession.RefusalsAreSound: lines left out by the full read that a refusal names are the stated exception; `FileSession.FullReadRefusalExactly` says for which texts there are none.
- FileSession.MutationRefinesDisk: torn writes are excluded, as above.
- FileSession.FsToolState.EditFile: blocked write prefixes are not modelled.
- FileSession.FsToolState.DeleteFile: blocked write prefixes are not modelled.
- FileSession.FsToolState.ReadCached: text extraction from PDF documents and errors of reading are not modelled.
- FileSession.FsToolState.ReadFile: the message-history scan of calls with a context, the explore-served markers, PDF text and the argument coercions are not modelled; a path is an opaque key, so path resolution, confinement and the `src/` fallback are outside.
- FileSession.FsToolState.RunCommand: the shell recogniser of re-reading commands is a parameter (the parsed path and range), the full-suite and grep-loop guards are not modelled, and a command is taken to change no file, since it never drops a cache entry.
- FileSession.FsToolState.WriteFile: write prefixes that are blocked, validation of periodic workflow files and creation of parent directories are not modelled; the Python syntax check is a parameter.
- FileConcurrency.EveryInterleavingIsSerial: mutating calls only; `read_file` fills the cache outside the lock, and input or output errors other than a missing file do not occur in this module.
- Ranges.BuildExcerpts: the whole-file branch of the preload is not modelled, files that are PDF documents or missing on disk are files without lines, and the length of the header line is a parameter.
- DiffRanges.PrintedDiffReadsBack: digits are ASCII, and splitting is described on lines rather than by the engine of the regular expression.
- Candidates.UpdateStatus: the candidate id hash is a parameter, field recognisers work line by line (white space in the original patterns can cross lines), lower-casing is ASCII, and a ticket id with backslashes, which the substitution template would interpret, is not modelled.
- Candidates.UpdatedFileResplits: the status and the ticket fit on one line, as all callers' do.
- Candidates.RewriteKeepsPlace: the same.
- Candidates.SweepSettles: the fields of a block are recognised line by line.
- BlockFile.SecondPruneDropsNothing: file reading and atomic replacement are not modelled.
- PushProtocol.PushTool.GitPushWithLease: the branch-name guard, timeouts of git commands and the reading of error texts are replaced by the outcome they are classified as; the local branch is taken to be at HEAD; that git does not look at the lease when the remote branch is there already is git's behaviour, not code of this repository.
- EpicPlan.PlanChildDependencies: the init-repository pattern, parsing of prerequisites, and the maps from children and packages to repositories are inputs; titles and bodies of bump tickets are not modelled.
- Glob.TrailingStars: a glob of two stars without a slash before them is left to `Glob.CompiledMatchesGlob`.
- MemoryRepair.RepairMemoryField: the JSON parser's verdict is a parameter, so that nothing else in the text changed is proved but not what the parser makes of it.
- Watchdog.SilentRunIsKilledInTime: clocks are real numbers; every statement takes at most a given slack and a wait ends at most that much late. The thread pool, the wrapped tools and cancellation are not modelled.
- JobLogCap.CapLogText: the budget is computed by whole-number division; the original divides floating-point numbers, which agrees as long as the cap times the section length stays below 2 to the power 53. The texts of the notes are parameters.
- LogTail.QueryAppLogs: listing, filtering by age and sorting of files are the input, newest first; lower-casing is a parameter.
- PromptStrip.GuardAfterStripping: stated for an open catalog of known tools; `PromptStrip.GuardReportsExactly` has the catalog.
- Agent construction, prompts, retries, provider failover, forges, Docker and Langfuse are wrappers over libraries.
- `_grep_files`, `discover_periodic_workflows`, `list_dir`, `parallel_commands` and the ticket tools would add only easy members.
- Logging is left out throughout.
