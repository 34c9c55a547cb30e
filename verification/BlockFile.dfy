/**
  The candidates file as a text of blocks between separators that is split, pruned and joined again.
  The sweep sees a block only through its kind, so the kind is a parameter here.
*/
module BlockFile {
  import opened Options
  import opened Text
  import opened Lines
  import opened Separators
  import Sequences

  datatype Kind = Pending | Resolved | BlankPiece | Junk

  type KindOf = string -> Kind

  /** The blocks of one kind, in order. */
  function OfKind(kindOf: KindOf, blocks: seq<string>, kind: Kind): seq<string> {
    if blocks == [] then []
    else
      var n := |blocks| - 1;
      OfKind(kindOf, blocks[..n], kind) + if kindOf(blocks[n]) == kind then [blocks[n]] else []
  }

  function Count(kindOf: KindOf, blocks: seq<string>, kind: Kind): nat { |OfKind(kindOf, blocks, kind)| }

  /** How many of the oldest resolved blocks go. */
  function Surplus(kindOf: KindOf, blocks: seq<string>, cap: int): (n: nat)
    ensures n <= Count(kindOf, blocks, Resolved)
  {
    var room := cap - Count(kindOf, blocks, Pending);
    var resolved := Count(kindOf, blocks, Resolved);
    if room <= 0 then resolved else if room >= resolved then 0 else resolved - room
  }

  /** Block `i` stays: it is pending or blank, or resolved with `surplus` older resolved blocks. */
  predicate Stays(kindOf: KindOf, blocks: seq<string>, surplus: nat, i: nat)
    requires i < |blocks|
  {
    var kind := kindOf(blocks[i]);
    kind.Pending? || kind.BlankPiece? || (kind.Resolved? && Count(kindOf, blocks[..i], Resolved) >= surplus)
  }

  function Keep(kindOf: KindOf, blocks: seq<string>, surplus: nat): seq<string> {
    if blocks == [] then []
    else
      var n := |blocks| - 1;
      Keep(kindOf, blocks[..n], surplus) + if Stays(kindOf, blocks, surplus, n) then [blocks[n]] else []
  }

  function EndsWithNewline(s: string): bool { s != "" && s[|s| - 1] == '\n' }

  /** The joined blocks, with the final line feed of the old text restored. */
  function Rejoin(blocks: seq<string>, before: string): string {
    var joined := Join(blocks, SEP);
    if EndsWithNewline(before) && !EndsWithNewline(joined) then joined + NL else joined
  }

  /** The new text, if anything is dropped. */
  function Prune(kindOf: KindOf, text: string, cap: int): Option<string> {
    if cap <= 0 then None
    else
      var blocks := Split(text, SEP);
      var kept := Keep(kindOf, blocks, Surplus(kindOf, blocks, cap));
      if |kept| == |blocks| then None else Some(Rejoin(kept, text))
  }

  // ---- The sweep as the source runs it ----

  /** The indices of the blocks of one kind, in order, each with its rank. */
  ghost predicate Indexes(kindOf: KindOf, blocks: seq<string>, kind: Kind, indices: seq<nat>) {
    && |indices| == Count(kindOf, blocks, kind)
    && (forall j: nat :: j < |indices| ==> Ranked(kindOf, blocks, kind, indices[j], j))
    && AllListed(kindOf, blocks, kind, indices)
  }

  predicate AllListed(kindOf: KindOf, blocks: seq<string>, kind: Kind, indices: seq<nat>) {
    forall i: nat :: i < |blocks| && kindOf(blocks[i]) == kind ==> i in indices
  }

  lemma {:induction false} PrefixPrefix(blocks: seq<string>, i: nat, n: nat)
    requires i <= n <= |blocks|
    ensures blocks[..n][..i] == blocks[..i]
  {
  }

  /** Index `i` is the one of rank `j`. */
  ghost predicate Ranked(kindOf: KindOf, blocks: seq<string>, kind: Kind, i: nat, j: nat) {
    i < |blocks| && kindOf(blocks[i]) == kind && Count(kindOf, blocks[..i], kind) == j
  }

  lemma {:induction false} RankedLonger(kindOf: KindOf, front: seq<string>, b: string, kind: Kind, i: nat, j: nat)
    requires Ranked(kindOf, front, kind, i, j)
    ensures Ranked(kindOf, front + [b], kind, i, j)
  {
    assert (front + [b])[..i] == front[..i];
  }

  lemma {:induction false} CountLonger(kindOf: KindOf, front: seq<string>, b: string, kind: Kind)
    ensures Count(kindOf, front + [b], kind) == Count(kindOf, front, kind) + if kindOf(b) == kind then 1 else 0
    ensures kindOf(b) == kind ==> Ranked(kindOf, front + [b], kind, |front|, Count(kindOf, front, kind))
  {
    assert (front + [b])[..|front|] == front;
  }

  lemma {:induction false} ListedLonger(kindOf: KindOf, front: seq<string>, b: string, kind: Kind, indices: seq<nat>)
    requires AllListed(kindOf, front, kind, indices)
    ensures AllListed(kindOf, front + [b], kind, if kindOf(b) == kind then indices + [|front|] else indices)
  {
    assert (indices + [|front|])[|indices|] == |front|;
    assert forall i: nat :: i in indices ==> i in indices + [|front|];
  }

  lemma {:induction false} RanksLonger(kindOf: KindOf, front: seq<string>, b: string, kind: Kind, indices: seq<nat>)
    requires forall j: nat :: j < |indices| ==> Ranked(kindOf, front, kind, indices[j], j)
    ensures forall j: nat :: j < |indices| ==> Ranked(kindOf, front + [b], kind, indices[j], j)
  {
    forall j: nat | j < |indices|
      ensures Ranked(kindOf, front + [b], kind, indices[j], j)
    {
      RankedLonger(kindOf, front, b, kind, indices[j], j);
    }
  }

  lemma {:induction false} IndexesGrow(kindOf: KindOf, front: seq<string>, b: string, kind: Kind, indices: seq<nat>)
    requires Indexes(kindOf, front, kind, indices)
    ensures Indexes(kindOf, front + [b], kind, if kindOf(b) == kind then indices + [|front|] else indices)
  {
    CountLonger(kindOf, front, b, kind);
    RanksLonger(kindOf, front, b, kind, indices);
    ListedLonger(kindOf, front, b, kind, indices);
  }

  ghost predicate Classified(kindOf: KindOf, blocks: seq<string>, pending: seq<nat>, resolved: seq<nat>,
                             blank: seq<nat>) {
    && Indexes(kindOf, blocks, Pending, pending)
    && Indexes(kindOf, blocks, Resolved, resolved)
    && Indexes(kindOf, blocks, BlankPiece, blank)
  }

  /** The indices of one kind, as the loop collects them. */
  function IndexList(kindOf: KindOf, blocks: seq<string>, kind: Kind): seq<nat> {
    if blocks == [] then []
    else
      var n := |blocks| - 1;
      IndexList(kindOf, blocks[..n], kind) + if kindOf(blocks[n]) == kind then [n] else []
  }

  lemma {:induction false} IndexListMore(kindOf: KindOf, front: seq<string>, b: string, kind: Kind)
    ensures IndexList(kindOf, front + [b], kind) == if kindOf(b) == kind
      then IndexList(kindOf, front, kind) + [|front|] else IndexList(kindOf, front, kind)
  {
    Sequences.Parts(front, [b]);
  }

  lemma {:induction false} IndexListIndexes(kindOf: KindOf, blocks: seq<string>, kind: Kind)
    ensures Indexes(kindOf, blocks, kind, IndexList(kindOf, blocks, kind))
  {
    if blocks != [] {
      var n := |blocks| - 1;
      IndexListIndexes(kindOf, blocks[..n], kind);
      IndexesGrow(kindOf, blocks[..n], blocks[n], kind, IndexList(kindOf, blocks[..n], kind));
      IndexListMore(kindOf, blocks[..n], blocks[n], kind);
      Sequences.FrontAndLast(blocks);
    }
  }

  method Classify(kindOf: KindOf, blocks: seq<string>) returns (pending: seq<nat>, resolved: seq<nat>, blank: seq<nat>)
    ensures Classified(kindOf, blocks, pending, resolved, blank)
  {
    pending, resolved, blank := [], [], [];
    for i := 0 to |blocks|
      invariant pending == IndexList(kindOf, blocks[..i], Pending)
      invariant resolved == IndexList(kindOf, blocks[..i], Resolved)
      invariant blank == IndexList(kindOf, blocks[..i], BlankPiece)
    {
      PrefixPrefix(blocks, i, i + 1);
      match kindOf(blocks[i]) {
        case BlankPiece => blank := blank + [i];
        case Junk =>
        case Pending => pending := pending + [i];
        case Resolved => resolved := resolved + [i];
      }
    }
    assert blocks[..|blocks|] == blocks;
    IndexListIndexes(kindOf, blocks, Pending);
    IndexListIndexes(kindOf, blocks, Resolved);
    IndexListIndexes(kindOf, blocks, BlankPiece);
  }

  /** The later part of the index list holds exactly the blocks with that many before them. */
  lemma {:induction false} ListedFrom(kindOf: KindOf, blocks: seq<string>, kind: Kind, indices: seq<nat>, start: nat,
                                      i: nat)
    requires Indexes(kindOf, blocks, kind, indices) && start <= |indices| && i < |blocks|
    ensures i in indices[start..] <==> kindOf(blocks[i]) == kind && Count(kindOf, blocks[..i], kind) >= start
  {
    if i in indices {
      var j :| 0 <= j < |indices| && indices[j] == i;
      assert Ranked(kindOf, blocks, kind, i, j);
      if j >= start {
        assert indices[start..][j - start] == i;
      }
    }
    if i in indices[start..] {
      var k :| 0 <= k < |indices[start..]| && indices[start..][k] == i;
      assert indices[k + start] == i && Ranked(kindOf, blocks, kind, i, k + start);
    }
  }

  /** Membership in the three index lists is staying. */
  lemma {:induction false} ListedIsStaying(kindOf: KindOf, blocks: seq<string>, surplus: nat, pending: seq<nat>,
                                           resolved: seq<nat>, blank: seq<nat>, i: nat)
    requires Classified(kindOf, blocks, pending, resolved, blank) && surplus <= |resolved| && i < |blocks|
    ensures (i in pending || i in resolved[surplus..] || i in blank) <==> Stays(kindOf, blocks, surplus, i)
  {
    ListedFrom(kindOf, blocks, Pending, pending, 0, i);
    ListedFrom(kindOf, blocks, Resolved, resolved, surplus, i);
    ListedFrom(kindOf, blocks, BlankPiece, blank, 0, i);
    assert pending[0..] == pending && blank[0..] == blank;
  }

  /** The blocks whose index is in one of the lists. */
  method KeepListed(kindOf: KindOf, blocks: seq<string>, pending: seq<nat>, keptResolved: seq<nat>, blank: seq<nat>,
                    ghost resolved: seq<nat>, ghost surplus: nat)
    returns (kept: seq<string>)
    requires Classified(kindOf, blocks, pending, resolved, blank)
    requires surplus <= |resolved| && keptResolved == resolved[surplus..]
    ensures kept == Keep(kindOf, blocks, surplus)
  {
    kept := [];
    for i := 0 to |blocks|
      invariant kept == Keep(kindOf, blocks[..i], surplus)
    {
      ListedIsStaying(kindOf, blocks, surplus, pending, resolved, blank, i);
      PrefixPrefix(blocks, i, i + 1);
      if i in pending || i in keptResolved || i in blank {
        kept := kept + [blocks[i]];
      }
    }
    assert blocks[..|blocks|] == blocks;
  }

  method PruneCandidates(kindOf: KindOf, text: string, maxEntries: int) returns (newText: Option<string>, dropped: nat)
    ensures newText == Prune(kindOf, text, maxEntries)
    ensures newText.Some? <==> dropped > 0
    ensures dropped > 0 ==>
      dropped == |Split(text, SEP)| - |Keep(kindOf, Split(text, SEP), Surplus(kindOf, Split(text, SEP), maxEntries))|
  {
    if maxEntries <= 0 {
      return None, 0;
    }
    var blocks := Split(text, SEP);
    var pending, resolved, blank := Classify(kindOf, blocks);
    var keptResolved: seq<nat> := [];
    if |pending| < maxEntries {
      var keepN := maxEntries - |pending|;
      keptResolved := if keepN >= |resolved| then resolved else resolved[|resolved| - keepN..];
    }
    assert keptResolved == resolved[Surplus(kindOf, blocks, maxEntries)..];
    var kept := KeepListed(kindOf, blocks, pending, keptResolved, blank, resolved, Surplus(kindOf, blocks, maxEntries));
    KeepAtMost(kindOf, blocks, Surplus(kindOf, blocks, maxEntries));
    dropped := |blocks| - |kept|;
    if dropped == 0 {
      return None, 0;
    }
    var joined := Join(kept, SEP);
    if EndsWithNewline(text) && !EndsWithNewline(joined) {
      joined := joined + NL;
    }
    newText := Some(joined);
  }

  lemma {:induction false} KeepAtMost(kindOf: KindOf, blocks: seq<string>, surplus: nat)
    ensures |Keep(kindOf, blocks, surplus)| <= |blocks|
  {
    if blocks != [] {
      KeepAtMost(kindOf, blocks[..|blocks| - 1], surplus);
    }
  }

  // ---- What a sweep keeps ----

  lemma {:induction false} OfKindSnoc(kindOf: KindOf, blocks: seq<string>, b: string, kind: Kind)
    ensures OfKind(kindOf, blocks + [b], kind) == OfKind(kindOf, blocks, kind) + if kindOf(b) == kind then [b] else []
  {
    assert (blocks + [b])[..|blocks|] == blocks;
  }

  lemma {:induction false} KeepSnoc(kindOf: KindOf, front: seq<string>, b: string, surplus: nat)
    ensures Keep(kindOf, front + [b], surplus) == Keep(kindOf, front, surplus)
      + match kindOf(b)
        case Junk => []
        case Resolved => if Count(kindOf, front, Resolved) >= surplus then [b] else []
        case _ => [b]
  {
    assert (front + [b])[..|front|] == front;
  }

  /** What a sweep leaves of the blocks of one kind. */
  function Left(all: seq<string>, kind: Kind, surplus: nat): seq<string> {
    match kind
    case Junk => []
    case Resolved => if surplus >= |all| then [] else all[surplus..]
    case _ => all
  }

  lemma {:induction false} LeftSnoc(all: seq<string>, b: string, surplus: nat)
    ensures Left(all + [b], Resolved, surplus) == Left(all, Resolved, surplus) + if |all| >= surplus then [b] else []
  {
  }

  lemma {:induction false} KeepKind(kindOf: KindOf, blocks: seq<string>, surplus: nat, kind: Kind)
    ensures OfKind(kindOf, Keep(kindOf, blocks, surplus), kind) == Left(OfKind(kindOf, blocks, kind), kind, surplus)
  {
    if blocks != [] {
      var n := |blocks| - 1;
      KeepKind(kindOf, blocks[..n], surplus, kind);
      assert blocks == blocks[..n] + [blocks[n]];
      KeepKindSnoc(kindOf, blocks[..n], blocks[n], surplus, kind);
    }
  }

  lemma {:induction false} KeepKindSnoc(kindOf: KindOf, front: seq<string>, b: string, surplus: nat, kind: Kind)
    requires OfKind(kindOf, Keep(kindOf, front, surplus), kind) == Left(OfKind(kindOf, front, kind), kind, surplus)
    ensures OfKind(kindOf, Keep(kindOf, front + [b], surplus), kind)
      == Left(OfKind(kindOf, front + [b], kind), kind, surplus)
  {
    var kept := Keep(kindOf, front, surplus);
    KeepSnoc(kindOf, front, b, surplus);
    OfKindSnoc(kindOf, front, b, kind);
    OfKindSnoc(kindOf, kept, b, kind);
    LeftSnoc(OfKind(kindOf, front, kind), b, surplus);
    assert kept + [] == kept;
  }

  /** Every pending block survives, the resolved survivors are exactly the newest that still fit under
      the cap, blank pieces stay and unreadable pieces go; each in its old order. */
  lemma {:induction false} SurvivorsAre(kindOf: KindOf, text: string, cap: int)
    requires cap > 0
    ensures var blocks := Split(text, SEP);
      var kept := Keep(kindOf, blocks, Surplus(kindOf, blocks, cap));
      var resolved := OfKind(kindOf, blocks, Resolved);
      var room := if cap > Count(kindOf, blocks, Pending) then cap - Count(kindOf, blocks, Pending) else 0;
      var newest := if room < |resolved| then room else |resolved|;
      && OfKind(kindOf, kept, Pending) == OfKind(kindOf, blocks, Pending)
      && OfKind(kindOf, kept, Resolved) == resolved[|resolved| - newest..]
      && OfKind(kindOf, kept, BlankPiece) == OfKind(kindOf, blocks, BlankPiece)
      && OfKind(kindOf, kept, Junk) == []
  {
    var blocks := Split(text, SEP);
    var surplus := Surplus(kindOf, blocks, cap);
    KeepKind(kindOf, blocks, surplus, Pending);
    KeepKind(kindOf, blocks, surplus, Resolved);
    KeepKind(kindOf, blocks, surplus, BlankPiece);
    KeepKind(kindOf, blocks, surplus, Junk);
  }

  // ---- Splitting the new text gives the kept blocks back ----

  /** What re-splitting gives: the blocks, the last one with the restored line feed. */
  function Restored(blocks: seq<string>, before: string): seq<string>
    requires blocks != []
  {
    var n := |blocks| - 1;
    if EndsWithNewline(before) && !EndsWithNewline(Join(blocks, SEP)) then blocks[n := blocks[n] + NL] else blocks
  }

  lemma {:induction false} JoinLast(blocks: seq<string>, tail: string)
    requires blocks != []
    ensures Join(blocks, SEP) + tail == Join(blocks[|blocks| - 1 := blocks[|blocks| - 1] + tail], SEP)
  {
    if |blocks| > 1 {
      var changed := blocks[|blocks| - 1 := blocks[|blocks| - 1] + tail];
      assert changed[1..] == blocks[1..][|blocks| - 2 := blocks[1..][|blocks| - 2] + tail];
      JoinLast(blocks[1..], tail);
    }
  }

  /** Clean blocks and a last one without a separator come back from the joined text. */
  lemma {:induction false} RejoinSplits(blocks: seq<string>, before: string)
    requires blocks != [] && forall i :: 0 <= i < |blocks| - 1 ==> Clean(blocks[i])
    requires Find(Restored(blocks, before)[|blocks| - 1], SEP) == None
    ensures Split(Rejoin(blocks, before), SEP) == Restored(blocks, before)
  {
    var restored := Restored(blocks, before);
    JoinLast(blocks, NL);
    assert Join(restored, SEP) == Rejoin(blocks, before);
    assert Proper(restored, SEP) by {
      forall i | 0 <= i < |restored| - 1
        ensures Find(restored[i] + SEP, SEP) == Some(|restored[i]|)
      {
        assert Clean(blocks[i]) && restored[i] == blocks[i];
      }
    }
    JoinThenSplit(restored, SEP);
  }

  lemma {:induction false} JoinEndsWithLast(blocks: seq<string>)
    requires blocks != [] && blocks[|blocks| - 1] != ""
    ensures EndsWithNewline(Join(blocks, SEP)) <==> EndsWithNewline(blocks[|blocks| - 1])
  {
    if |blocks| > 1 {
      JoinEndsWithLast(blocks[1..]);
      assert Join(blocks[1..], SEP) != "" by {
        JoinNotEmpty(blocks[1..]);
      }
    }
  }

  lemma {:induction false} JoinNotEmpty(blocks: seq<string>)
    requires blocks != [] && blocks[|blocks| - 1] != ""
    ensures Join(blocks, SEP) != ""
  {
  }

  lemma {:induction false} NoSeparatorInNewline()
    ensures Find("" + NL, SEP) == None
  {
    assert |"" + NL| == 1;
  }

  /** The blocks of a text. */
  ghost predicate PiecesOf(blocks: seq<string>, text: string) { Proper(blocks, SEP) && Join(blocks, SEP) == text }

  /** The file's last block decides whether it ends with a line feed. */
  lemma {:induction false} TextEnd(blocks: seq<string>, text: string)
    requires PiecesOf(blocks, text) && blocks[|blocks| - 1] != ""
    ensures EndsWithNewline(text) <==> EndsWithNewline(blocks[|blocks| - 1])
  {
    JoinEndsWithLast(blocks);
  }

  lemma {:induction false} LastUntouched(changed: seq<string>, text: string)
    requires changed != [] && var last := changed[|changed| - 1];
      Find(last, SEP) == None && (last != "" ==> (EndsWithNewline(text) <==> EndsWithNewline(last)))
    ensures Find(Restored(changed, text)[|changed| - 1], SEP) == None
  {
    var last := changed[|changed| - 1];
    if last == "" {
      NoSeparatorInNewline();
    } else {
      JoinEndsWithLast(changed);
      assert Restored(changed, text) == changed;
    }
  }

  /** What holds of all blocks but the last holds of all kept ones but the old last. */
  lemma {:induction false} KeptShape(kindOf: KindOf, blocks: seq<string>, surplus: nat, clean: string -> bool)
    requires blocks != [] && forall i :: 0 <= i < |blocks| - 1 ==> clean(blocks[i])
    ensures var kept := Keep(kindOf, blocks, surplus);
      && (forall i :: 0 <= i < |kept| - 1 ==> clean(kept[i]))
      && (kept != [] ==> clean(kept[|kept| - 1]) || kept[|kept| - 1] == blocks[|blocks| - 1])
  {
    var n := |blocks| - 1;
    KeepAll(kindOf, blocks[..n], surplus, clean);
  }

  lemma {:induction false} KeepAll(kindOf: KindOf, blocks: seq<string>, surplus: nat, clean: string -> bool)
    requires forall i :: 0 <= i < |blocks| ==> clean(blocks[i])
    ensures forall i :: 0 <= i < |Keep(kindOf, blocks, surplus)| ==> clean(Keep(kindOf, blocks, surplus)[i])
  {
    if blocks != [] {
      KeepAll(kindOf, blocks[..|blocks| - 1], surplus, clean);
    }
  }

  lemma {:induction false} LastCleanIsWhole(kept: seq<string>, text: string)
    requires kept != [] && Clean(kept[|kept| - 1])
    ensures Find(Restored(kept, text)[|kept| - 1], SEP) == None
  {
    CleanAlone(kept[|kept| - 1]);
  }

  lemma {:induction false} OldLastIsWhole(blocks: seq<string>, kept: seq<string>, text: string)
    requires PiecesOf(blocks, text) && kept != [] && kept[|kept| - 1] == blocks[|blocks| - 1]
    ensures Find(Restored(kept, text)[|kept| - 1], SEP) == None
  {
    if blocks[|blocks| - 1] != "" {
      TextEnd(blocks, text);
    }
    LastUntouched(kept, text);
  }

  /** The last kept block holds no separator, restored line feed or not. */
  lemma {:induction false} LastKeptIsWhole(kindOf: KindOf, blocks: seq<string>, text: string, surplus: nat)
    requires PiecesOf(blocks, text) && Keep(kindOf, blocks, surplus) != []
    ensures var kept := Keep(kindOf, blocks, surplus);
      && (forall i :: 0 <= i < |kept| - 1 ==> Clean(kept[i]))
      && Find(Restored(kept, text)[|kept| - 1], SEP) == None
  {
    var kept := Keep(kindOf, blocks, surplus);
    KeptShape(kindOf, blocks, surplus, b => Clean(b));
    if kept[|kept| - 1] == blocks[|blocks| - 1] {
      OldLastIsWhole(blocks, kept, text);
    } else {
      LastCleanIsWhole(kept, text);
    }
  }

  /** Whenever the sweep keeps a block, splitting the file it writes yields exactly the kept raw blocks
      in order; the last may have gained one line feed. */
  lemma {:induction false} PrunedFileResplits(kindOf: KindOf, text: string, cap: int)
    requires Prune(kindOf, text, cap).Some?
    requires Keep(kindOf, Split(text, SEP), Surplus(kindOf, Split(text, SEP), cap)) != []
    ensures var blocks := Split(text, SEP);
      var kept := Keep(kindOf, blocks, Surplus(kindOf, blocks, cap));
      Split(Prune(kindOf, text, cap).value, SEP) == Restored(kept, text)
  {
    SplitThenJoin(text, SEP);
    var blocks := Split(text, SEP);
    KeptPiecesResplit(kindOf, blocks, text, Surplus(kindOf, blocks, cap));
  }

  lemma {:induction false} KeptPiecesResplit(kindOf: KindOf, blocks: seq<string>, text: string, surplus: nat)
    requires PiecesOf(blocks, text) && Keep(kindOf, blocks, surplus) != []
    ensures var kept := Keep(kindOf, blocks, surplus);
      Split(Rejoin(kept, text), SEP) == Restored(kept, text)
  {
    LastKeptIsWhole(kindOf, blocks, text, surplus);
    RejoinSplits(Keep(kindOf, blocks, surplus), text);
  }

  /** A line feed at the end does not change a block's kind, and an empty piece is blank. */
  ghost predicate Sensible(kindOf: KindOf) {
    kindOf("").BlankPiece? && forall raw :: kindOf(raw + NL) == kindOf(raw)
  }

  lemma {:induction false} SameKinds(kindOf: KindOf, a: seq<string>, b: seq<string>, kind: Kind)
    requires |a| == |b| && forall i :: 0 <= i < |a| ==> kindOf(a[i]) == kindOf(b[i])
    ensures Count(kindOf, a, kind) == Count(kindOf, b, kind)
  {
    if a != [] {
      SameKinds(kindOf, a[..|a| - 1], b[..|b| - 1], kind);
    }
  }

  /** With nothing unreadable and no surplus, everything stays. */
  lemma {:induction false} NothingGoes(kindOf: KindOf, blocks: seq<string>)
    requires OfKind(kindOf, blocks, Junk) == []
    ensures Keep(kindOf, blocks, 0) == blocks
  {
    if blocks != [] {
      var n := |blocks| - 1;
      NothingGoes(kindOf, blocks[..n]);
      assert blocks == blocks[..n] + [blocks[n]];
    }
  }

  lemma {:induction false} RestoredKinds(kindOf: KindOf, blocks: seq<string>, before: string, kind: Kind)
    requires Sensible(kindOf) && blocks != []
    ensures Count(kindOf, Restored(blocks, before), kind) == Count(kindOf, blocks, kind)
  {
    SameKinds(kindOf, Restored(blocks, before), blocks, kind);
  }

  /** Nothing of what a sweep keeps would go in another one. */
  lemma {:induction false} KeptHasNoSurplus(kindOf: KindOf, blocks: seq<string>, cap: int)
    ensures var kept := Keep(kindOf, blocks, Surplus(kindOf, blocks, cap));
      Surplus(kindOf, kept, cap) == 0 && Count(kindOf, kept, Junk) == 0
  {
    var surplus := Surplus(kindOf, blocks, cap);
    KeepKind(kindOf, blocks, surplus, Pending);
    KeepKind(kindOf, blocks, surplus, Resolved);
    KeepKind(kindOf, blocks, surplus, Junk);
  }

  lemma {:induction false} NoPruneNeeded(kindOf: KindOf, text: string, cap: int)
    requires Surplus(kindOf, Split(text, SEP), cap) == 0 && Count(kindOf, Split(text, SEP), Junk) == 0
    ensures Prune(kindOf, text, cap) == None
  {
    NothingGoes(kindOf, Split(text, SEP));
  }

  /** A second sweep with the same cap drops nothing. */
  lemma {:induction false} SecondPruneDropsNothing(kindOf: KindOf, text: string, cap: int)
    requires Sensible(kindOf) && Prune(kindOf, text, cap).Some?
    ensures Prune(kindOf, Prune(kindOf, text, cap).value, cap) == None
  {
    var blocks := Split(text, SEP);
    var kept := Keep(kindOf, blocks, Surplus(kindOf, blocks, cap));
    if kept == [] {
      EmptyPrune(kindOf, text, cap);
    } else {
      PrunedFileResplits(kindOf, text, cap);
      KeptHasNoSurplus(kindOf, blocks, cap);
      RestoredKinds(kindOf, kept, text, Pending);
      RestoredKinds(kindOf, kept, text, Resolved);
      RestoredKinds(kindOf, kept, text, Junk);
      NoPruneNeeded(kindOf, Prune(kindOf, text, cap).value, cap);
    }
  }

  lemma {:induction false} EmptyPrune(kindOf: KindOf, text: string, cap: int)
    requires Sensible(kindOf) && Prune(kindOf, text, cap).Some?
      && Keep(kindOf, Split(text, SEP), Surplus(kindOf, Split(text, SEP), cap)) == []
    ensures Prune(kindOf, Prune(kindOf, text, cap).value, cap) == None
  {
    var after := Prune(kindOf, text, cap).value;
    assert after == "" || after == NL;
    BlankIsOnePiece(kindOf, after);
    NoPruneNeeded(kindOf, after, cap);
  }

  lemma {:induction false} OneOfKind(kindOf: KindOf, b: string, kind: Kind)
    ensures OfKind(kindOf, [b], kind) == if kindOf(b) == kind then [b] else []
  {
    OfKindSnoc(kindOf, [], b, kind);
    Sequences.WithNothing([b]);
    Sequences.WithNothing(if kindOf(b) == kind then [b] else []);
  }

  lemma {:induction false} BlankIsOnePiece(kindOf: KindOf, after: string)
    requires Sensible(kindOf) && (after == "" || after == NL)
    ensures Count(kindOf, Split(after, SEP), Resolved) == 0 && Count(kindOf, Split(after, SEP), Junk) == 0
  {
    NoSeparatorInNewline();
    Sequences.WithNothing(NL);
    assert Split(after, SEP) == [after];
    assert kindOf("" + NL) == kindOf("");
    OneOfKind(kindOf, after, Resolved);
    OneOfKind(kindOf, after, Junk);
  }

  // ---- Changing one block ----

  /** The walk of `update_status`: the first block with the id is rewritten, all others are left alone. */
  method UpdateBlock(hasId: string -> bool, rewrite: string -> string, text: string)
    returns (result: Option<(string, nat)>)
    ensures var blocks := Split(text, SEP);
      result == match First(blocks, hasId)
        case None => None
        case Some(i) => Some((Rejoin(blocks[i := rewrite(blocks[i])], text), i))
  {
    var blocks := Split(text, SEP);
    for i := 0 to |blocks|
      invariant forall k :: 0 <= k < i ==> !hasId(blocks[k])
    {
      if hasId(blocks[i]) {
        FirstIs(blocks, hasId, i);
        var joined := Join(blocks[i := rewrite(blocks[i])], SEP);
        if EndsWithNewline(text) && !EndsWithNewline(joined) {
          joined := joined + NL;
        }
        return Some((joined, i));
      }
    }
    FirstNone(blocks, hasId);
    result := None;
  }

  /** The new block can stand wherever the old one could. */
  ghost predicate KeepsPlace(b: string, after: string) {
    && (Clean(b) ==> Clean(after))
    && (Find(b, SEP) == None ==> Find(after, SEP) == None)
  }

  /** A block without separators that ends in a line feed can be followed by a separator. */
  lemma {:induction false} TerminatedIsClean(b: string)
    requires Find(b, SEP) == None && EndsWithNewline(b)
    ensures Clean(b)
  {
    var c := b[..|b| - 1];
    assert b == c + NL;
    LinesOfTerminated(c);
    LinesOf(b);
    NoSeparator(Split(b, NL));
    CleanIs(b);
    CleanTerminated(Split(c, NL));
  }

  lemma {:induction false} TargetIsLast(blocks: seq<string>, text: string, after: string)
    requires PiecesOf(blocks, text) && blocks[|blocks| - 1] != "" && KeepsPlace(blocks[|blocks| - 1], after)
    ensures Find(Restored(blocks[|blocks| - 1 := after], text)[|blocks| - 1], SEP) == None
  {
    TextEnd(blocks, text);
    if EndsWithNewline(text) {
      TerminatedIsClean(blocks[|blocks| - 1]);
      CleanAlone(after);
    }
  }

  lemma {:induction false} LastRestored(blocks: seq<string>, text: string, i: nat, after: string)
    requires PiecesOf(blocks, text) && i < |blocks| && blocks[i] != "" && KeepsPlace(blocks[i], after)
    ensures Find(Restored(blocks[i := after], text)[|blocks| - 1], SEP) == None
  {
    if i == |blocks| - 1 {
      TargetIsLast(blocks, text, after);
    } else {
      if blocks[|blocks| - 1] != "" {
        TextEnd(blocks, text);
      }
      LastUntouched(blocks[i := after], text);
    }
  }

  lemma {:induction false} EditedPiecesResplit(blocks: seq<string>, text: string, i: nat, after: string)
    requires PiecesOf(blocks, text) && i < |blocks| && blocks[i] != "" && KeepsPlace(blocks[i], after)
    ensures Split(Rejoin(blocks[i := after], text), SEP) == Restored(blocks[i := after], text)
  {
    LastRestored(blocks, text, i, after);
    RejoinSplits(blocks[i := after], text);
  }

  /** Splitting the edited file gives the old blocks with only the target replaced, in order and number;
      the last may have gained one line feed. */
  lemma {:induction false} EditedFileResplits(text: string, i: nat, after: string)
    requires var blocks := Split(text, SEP);
      i < |blocks| && blocks[i] != "" && KeepsPlace(blocks[i], after)
    ensures var changed := Split(text, SEP)[i := after];
      Split(Rejoin(changed, text), SEP) == Restored(changed, text)
  {
    SplitThenJoin(text, SEP);
    EditedPiecesResplit(Split(text, SEP), text, i, after);
  }
}
