/** `_bound_full_read`: a full read over the character cap shows a head and a tail of whole lines. */
module FullRead {
  import opened Options
  import opened Sequences

  /** The code points at which `str.splitlines` ends a line. */
  predicate IsBreak(c: char) {
    c as int in {0x0A, 0x0B, 0x0C, 0x0D, 0x1C, 0x1D, 0x1E, 0x85, 0x2028, 0x2029}
  }

  function FirstLineLength(t: string): (n: nat)
    requires t != ""
    ensures 1 <= n <= |t|
  {
    if IsBreak(t[0]) then
      if t[0] == '\r' && |t| > 1 && t[1] == '\n' then 2 else 1
    else if |t| == 1 then 1
    else 1 + FirstLineLength(t[1..])
  }

  /** `splitlines(keepends=True)`. */
  function SplitLines(t: string): (lines: seq<string>)
    ensures Concat(lines) == t
    ensures forall i :: 0 <= i < |lines| ==> lines[i] != ""
    decreases |t|
  {
    if t == "" then []
    else
      var n := FirstLineLength(t);
      [t[..n]] + SplitLines(t[n..])
  }

  function Concat(lines: seq<string>): string {
    if lines == [] then "" else lines[0] + Concat(lines[1..])
  }

  lemma {:induction false} ConcatAppend(a: seq<string>, b: seq<string>)
    ensures Concat(a + b) == Concat(a) + Concat(b)
  {
    if a == [] {
      assert a + b == b;
    } else {
      assert (a + b)[1..] == a[1..] + b;
      ConcatAppend(a[1..], b);
    }
  }

  lemma {:induction false} ConcatLonger(lines: seq<string>, m: nat, n: nat)
    requires m <= n <= |lines|
    ensures |Concat(lines[..m])| <= |Concat(lines[..n])|
  {
    assert lines[..n] == lines[..m] + lines[m..n];
    ConcatAppend(lines[..m], lines[m..n]);
  }

  /** `h` lines are the longest prefix within `budget` characters, but at least one line. */
  ghost predicate Fills(lines: seq<string>, budget: int, h: nat) {
    && h <= |lines|
    && (lines != [] ==> h >= 1)
    && (h > 1 ==> |Concat(lines[..h])| <= budget)
    && (0 < h < |lines| ==> |Concat(lines[..h + 1])| > budget)
  }

  lemma {:induction false} FillsOnce(lines: seq<string>, budget: int, g: nat, h: nat)
    requires Fills(lines, budget, g) && Fills(lines, budget, h)
    ensures g == h
  {
    if g < h {
      ConcatLonger(lines, g + 1, h);
    } else if h < g {
      ConcatLonger(lines, h + 1, g);
    }
  }

  lemma {:induction false} ConcatSnoc(lines: seq<string>, i: nat)
    requires i < |lines|
    ensures Concat(lines[..i + 1]) == Concat(lines[..i]) + lines[i]
  {
    assert lines[..i + 1] == lines[..i] + [lines[i]];
    ConcatAppend(lines[..i], [lines[i]]);
    assert Concat([lines[i]]) == lines[i] + Concat([]);
  }

  function TakeCount(lines: seq<string>, budget: int, i: nat, used: nat): (h: nat)
    requires i <= |lines| && used == |Concat(lines[..i])|
    requires i > 1 ==> used <= budget
    ensures Fills(lines, budget, h) && i <= h
    decreases |lines| - i
  {
    if i == |lines| then assert lines[..i] == lines; i
    else
      ConcatSnoc(lines, i);
      if i > 0 && used + |lines[i]| > budget then i
      else TakeCount(lines, budget, i + 1, used + |lines[i]|)
  }

  function HeadCount(lines: seq<string>, budget: int): (h: nat)
    ensures Fills(lines, budget, h)
  {
    TakeCount(lines, budget, 0, 0)
  }

  lemma {:induction false} ReverseLength(lines: seq<string>)
    ensures |Concat(Backwards(lines))| == |Concat(lines)|
  {
    if lines != [] {
      ReverseLength(lines[1..]);
      BackwardsMore(lines[0], lines[1..]);
      assert lines == [lines[0]] + lines[1..];
      ConcatAppend(Backwards(lines[1..]), [lines[0]]);
      assert Concat([lines[0]]) == lines[0] + Concat([]);
    }
  }

  /** What the caller gets: the text itself, or the head and tail lines around a marker naming the
      total and the omitted line range. */
  datatype View =
    | Verbatim(text: string)
    | Elided(head: seq<string>, tail: seq<string>, total: nat, omittedStart: nat, omittedEnd: int)

  function HeadBudget(maxChars: int): int { (maxChars * 2) / 3 }

  function TailBudget(maxChars: int): int { maxChars - HeadBudget(maxChars) }

  /** The view of the lines with `h` lines shown at the head and `t` at the tail. */
  function Shown(lines: seq<string>, h: nat, t: nat): View
    requires h <= |lines| && t <= |lines|
  {
    Elided(lines[..h], lines[|lines| - t..], |lines|, h + 1, |lines| - t)
  }

  function Bound(text: string, maxChars: int): View {
    if maxChars <= 0 || |text| <= maxChars then Verbatim(text)
    else
      var lines := SplitLines(text);
      Shown(lines, HeadCount(lines, HeadBudget(maxChars)), HeadCount(Backwards(lines), TailBudget(maxChars)))
  }

  method BoundFullRead(text: string, maxChars: int) returns (view: View)
    ensures view == Bound(text, maxChars)
  {
    if maxChars <= 0 || |text| <= maxChars {
      return Verbatim(text);
    }
    view := ShowEnds(SplitLines(text), maxChars);
  }

  /** The two loops and the marker. */
  method ShowEnds(lines: seq<string>, maxChars: int) returns (view: View)
    ensures view
      == Shown(lines, HeadCount(lines, HeadBudget(maxChars)), HeadCount(Backwards(lines), TailBudget(maxChars)))
  {
    var headBudget := (maxChars * 2) / 3;
    var tailBudget := maxChars - headBudget;
    var head := TakeWithin(lines, headBudget);
    var tail := TakeLast(lines, tailBudget);
    ShownIs(lines, head, HeadCount(lines, headBudget), tail, HeadCount(Backwards(lines), tailBudget));
    view := Elided(head, tail, |lines|, |head| + 1, |lines| - |tail|);
  }

  lemma {:induction false} ShownIs(lines: seq<string>, head: seq<string>, h: nat, tail: seq<string>, t: nat)
    requires h <= |lines| && t <= |lines| && head == lines[..h] && tail == lines[|lines| - t..]
    ensures Elided(head, tail, |lines|, |head| + 1, |lines| - |tail|) == Shown(lines, h, t)
  {
  }

  /** The second loop runs over the reversed lines, and its lines are put back in order. */
  method TakeLast(lines: seq<string>, budget: int) returns (taken: seq<string>)
    ensures taken == lines[|lines| - HeadCount(Backwards(lines), budget)..]
  {
    taken := TakeWithin(Backwards(lines), budget);
    BackwardsTake(lines, |taken|);
    taken := Backwards(taken);
  }

  /** One of the two collecting loops. */
  method TakeWithin(lines: seq<string>, budget: int) returns (taken: seq<string>)
    ensures taken == lines[..HeadCount(lines, budget)]
  {
    taken := [];
    var used := 0;
    var i := 0;
    while i < |lines|
      invariant 0 <= i <= |lines|
      invariant taken == lines[..i]
      invariant used == |Concat(taken)|
      invariant i > 1 ==> used <= budget
    {
      ConcatSnoc(lines, i);
      if taken != [] && used + |lines[i]| > budget {
        break;
      }
      taken := taken + [lines[i]];
      used := used + |lines[i]|;
      i := i + 1;
    }
    assert taken == lines[..|taken|];
    FillsOnce(lines, budget, |taken|, HeadCount(lines, budget));
  }

  /** Line `k` (from 1) is left out of the view. */
  predicate OmittedLine(text: string, maxChars: int, k: int) {
    LeavesOut(Bound(text, maxChars), k)
  }

  predicate LeavesOut(v: View, k: int) { v.Elided? && v.omittedStart <= k <= v.omittedEnd }

  lemma {:induction false} ElidedIs(text: string, maxChars: int)
    requires Bound(text, maxChars).Elided?
    ensures var lines := SplitLines(text);
      var h := HeadCount(lines, HeadBudget(maxChars));
      var t := HeadCount(Backwards(lines), TailBudget(maxChars));
      && 1 <= h <= |lines| && 1 <= t <= |lines|
      && Bound(text, maxChars) == Shown(lines, h, t)
  {
    assert SplitLines(text) != [];
  }

  lemma {:induction false} ThreeParts(lines: seq<string>, h: nat, e: nat)
    requires h <= e <= |lines|
    ensures Concat(lines) == Concat(lines[..h]) + Concat(lines[h..e]) + Concat(lines[e..])
  {
    assert lines[..e] == lines[..h] + lines[h..e];
    assert lines == lines[..e] + lines[e..];
    ConcatAppend(lines[..e], lines[e..]);
    ConcatAppend(lines[..h], lines[h..e]);
  }

  /** The view shows a head and a tail of the lines, and its marker numbers the lines between them. */
  ghost predicate Shows(v: View, lines: seq<string>) {
    && v.Elided? && v.total == |lines| && |v.head| >= 1 && |v.tail| >= 1
    && v.omittedStart == |v.head| + 1 && v.omittedEnd == v.total - |v.tail|
    && v.head <= lines && 0 <= v.omittedEnd <= |lines| && v.tail == lines[v.omittedEnd..]
    && (|v.head| <= v.omittedEnd ==>
          Concat(lines) == Concat(v.head) + Concat(lines[|v.head|..v.omittedEnd]) + Concat(v.tail))
  }

  lemma {:induction false} ShownShows(lines: seq<string>, h: nat, t: nat)
    requires 1 <= h <= |lines| && 1 <= t <= |lines|
    ensures Shows(Shown(lines, h, t), lines)
  {
    if h <= |lines| - t {
      ThreeParts(lines, h, |lines| - t);
    }
  }

  /** The three parts make up the text, and the marker names exactly the middle one. */
  lemma {:induction false} ElidedParts(text: string, maxChars: int)
    requires Bound(text, maxChars).Elided?
    ensures Shows(Bound(text, maxChars), SplitLines(text)) && Concat(SplitLines(text)) == text
  {
    ElidedIs(text, maxChars);
    var lines := SplitLines(text);
    ShownShows(lines, HeadCount(lines, HeadBudget(maxChars)), HeadCount(Backwards(lines), TailBudget(maxChars)));
  }

  lemma {:induction false} FillsFits(lines: seq<string>, budget: int, h: nat)
    requires Fills(lines, budget, h) && lines != []
    ensures |Concat(lines[..h])| <= budget <==> |lines[0]| <= budget
  {
    ConcatSnoc(lines, 0);
    ConcatLonger(lines, 1, h);
  }

  lemma {:induction false} TailSize(lines: seq<string>, t: nat)
    requires t <= |lines|
    ensures |Concat(lines[|lines| - t..])| == |Concat(Backwards(lines)[..t])|
  {
    BackwardsTake(lines, t);
    ReverseLength(Backwards(lines)[..t]);
  }

  /** Each shown part keeps its budget exactly when the line collected first for it does. */
  ghost predicate Budgeted(v: View, lines: seq<string>, headBudget: int, tailBudget: int) {
    && v.Elided? && lines != []
    && (|Concat(v.head)| <= headBudget <==> |lines[0]| <= headBudget)
    && (|Concat(v.tail)| <= tailBudget <==> |lines[|lines| - 1]| <= tailBudget)
  }

  lemma {:induction false} CountsFit(lines: seq<string>, headBudget: int, tailBudget: int)
    requires lines != []
    ensures Budgeted(Shown(lines, HeadCount(lines, headBudget), HeadCount(Backwards(lines), tailBudget)), lines,
                     headBudget, tailBudget)
  {
    FillsFits(lines, headBudget, HeadCount(lines, headBudget));
    var back := Backwards(lines);
    var t := HeadCount(back, tailBudget);
    FillsFits(back, tailBudget, t);
    TailSize(lines, t);
  }

  /** The shown parts of a text keep two thirds and one third of the cap exactly when its first and its
      last line do. */
  lemma {:induction false} PartsWithinBudget(text: string, maxChars: int)
    requires Bound(text, maxChars).Elided?
    ensures Budgeted(Bound(text, maxChars), SplitLines(text), HeadBudget(maxChars), TailBudget(maxChars))
  {
    ElidedIs(text, maxChars);
    CountsFit(SplitLines(text), HeadBudget(maxChars), TailBudget(maxChars));
  }

  /** When the first and the last line fit their budgets, the two shown parts are disjoint, total at
      most the cap, and the omitted range is not empty. */
  lemma {:induction false} BoundedViewIsWithinCap(text: string, maxChars: int)
    requires Bound(text, maxChars).Elided?
    requires |SplitLines(text)[0]| <= HeadBudget(maxChars)
    requires |SplitLines(text)[|SplitLines(text)| - 1]| <= TailBudget(maxChars)
    ensures var v := Bound(text, maxChars);
      && |Concat(v.head)| + |Concat(v.tail)| <= maxChars
      && |v.head| + |v.tail| < v.total
      && v.omittedStart <= v.omittedEnd
  {
    PartsWithinBudget(text, maxChars);
    ElidedIs(text, maxChars);
    var lines := SplitLines(text);
    ShownWithin(lines, HeadCount(lines, HeadBudget(maxChars)), HeadCount(Backwards(lines), TailBudget(maxChars)),
                maxChars);
  }

  lemma {:induction false} ShownWithin(lines: seq<string>, h: nat, t: nat, maxChars: int)
    requires h <= |lines| && t <= |lines| && |Concat(lines)| > maxChars
    requires |Concat(Shown(lines, h, t).head)| <= HeadBudget(maxChars)
      && |Concat(Shown(lines, h, t).tail)| <= TailBudget(maxChars)
    ensures var v := Shown(lines, h, t);
      && |Concat(v.head)| + |Concat(v.tail)| <= maxChars
      && |v.head| + |v.tail| < v.total
      && v.omittedStart <= v.omittedEnd
  {
    OverlapCovers(lines, h, t);
  }

  /** A prefix and a suffix that meet hold all characters between them. */
  lemma {:induction false} OverlapCovers(lines: seq<string>, h: nat, t: nat)
    requires h <= |lines| && t <= |lines|
    ensures h + t >= |lines| ==> |Concat(lines)| <= |Concat(lines[..h])| + |Concat(lines[|lines| - t..])|
  {
    var cut := |lines| - t;
    ThreeParts(lines, cut, cut);
    if cut <= h {
      ConcatLonger(lines, cut, h);
    }
  }

  // When nothing is left out

  /** All but the last line are taken exactly when they fit the budget, or are a single line. */
  lemma {:induction false} AllButLastTaken(lines: seq<string>, budget: int, h: nat)
    requires Fills(lines, budget, h) && |lines| >= 2
    ensures h >= |lines| - 1 <==> |lines| == 2 || |Concat(lines[..|lines| - 1])| <= budget
  {
    var n := |lines|;
    if h >= n - 1 {
      ConcatLonger(lines, n - 1, h);
    } else {
      ConcatLonger(lines, h + 1, n - 1);
    }
  }

  lemma {:induction false} AllButFirstTaken(lines: seq<string>, budget: int)
    requires |lines| >= 2
    ensures HeadCount(Backwards(lines), budget) >= |lines| - 1 <==> |lines| == 2 || |Concat(lines[1..])| <= budget
  {
    var back := Backwards(lines);
    AllButLastTaken(back, budget, HeadCount(back, budget));
    TailSize(lines, |lines| - 1);
  }

  /** Head and tail meet when one of them is all lines but one. */
  ghost predicate EndsMeet(lines: seq<string>, headBudget: int, tailBudget: int) {
    || |lines| <= 2
    || |Concat(lines[..|lines| - 1])| <= headBudget
    || |Concat(lines[1..])| <= tailBudget
  }

  lemma {:induction false} CountsMeetExactly(lines: seq<string>, headBudget: int, tailBudget: int)
    requires lines != [] && |Concat(lines)| > headBudget + tailBudget
    ensures HeadCount(lines, headBudget) + HeadCount(Backwards(lines), tailBudget) >= |lines|
       <==> EndsMeet(lines, headBudget, tailBudget)
  {
    var h, t := HeadCount(lines, headBudget), HeadCount(Backwards(lines), tailBudget);
    if |lines| >= 2 {
      AllButLastTaken(lines, headBudget, h);
      AllButFirstTaken(lines, tailBudget);
    }
    OverlapCovers(lines, h, t);
    TailSize(lines, t);
  }

  lemma {:induction false} SomethingBetween(lines: seq<string>, h: nat, t: nat)
    requires 1 <= h <= |lines| && t <= |lines|
    ensures var v := Shown(lines, h, t);
      (forall k :: 1 <= k <= |lines| ==> !LeavesOut(v, k)) <==> h + t >= |lines|
  {
    if h + t < |lines| {
      assert LeavesOut(Shown(lines, h, t), h + 1);
    }
  }

  /** The cap does not bind, or one of the two shown parts can hold all lines but one. */
  ghost predicate NothingCut(text: string, maxChars: int) {
    || maxChars <= 0 || |text| <= maxChars
    || EndsMeet(SplitLines(text), HeadBudget(maxChars), TailBudget(maxChars))
  }

  /** A full read leaves no line out exactly when the text is within the cap, has at most two lines, or has
      all its lines but the last, or but the first, within the budget of its head, or of its tail. */
  lemma {:induction false} NothingOmittedExactly(text: string, maxChars: int)
    ensures (forall k :: 1 <= k <= |SplitLines(text)| ==> !OmittedLine(text, maxChars, k))
      <==> NothingCut(text, maxChars)
  {
    if maxChars > 0 && |text| > maxChars {
      ElidedIs(text, maxChars);
      var lines := SplitLines(text);
      var h, t := HeadCount(lines, HeadBudget(maxChars)), HeadCount(Backwards(lines), TailBudget(maxChars));
      CountsMeetExactly(lines, HeadBudget(maxChars), TailBudget(maxChars));
      SomethingBetween(lines, h, t);
      forall k
        ensures OmittedLine(text, maxChars, k) <==> LeavesOut(Shown(lines, h, t), k)
      {
      }
    }
  }

  /** When the first and the last line fit their budgets, only the cap itself matters. */
  lemma {:induction false} NothingOmittedWithinCap(text: string, maxChars: int)
    requires text != ""
    requires |SplitLines(text)[0]| <= HeadBudget(maxChars)
    requires |SplitLines(text)[|SplitLines(text)| - 1]| <= TailBudget(maxChars)
    ensures (forall k :: 1 <= k <= |SplitLines(text)| ==> !OmittedLine(text, maxChars, k))
       <==> maxChars <= 0 || |text| <= maxChars
  {
    if maxChars > 0 && |text| > maxChars {
      BoundedViewIsWithinCap(text, maxChars);
      ElidedIs(text, maxChars);
      var v := Bound(text, maxChars);
      assert OmittedLine(text, maxChars, v.omittedStart);
      assert 1 <= v.omittedStart <= |SplitLines(text)|;
    }
  }
}
