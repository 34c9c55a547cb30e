/** Whitespace, stripping, and text as lines separated by line feeds. */
module Lines {
  import opened Options
  import opened Text

  const NL := "\n"

  /** `str.isspace`, which is also what `\s` matches. */
  predicate IsSpace(c: char) {
    var n := c as int;
    || 9 <= n <= 13 || 28 <= n <= 32 || n == 0x85 || n == 0xA0 || n == 0x1680 || 0x2000 <= n <= 0x200A
    || n == 0x2028 || n == 0x2029 || n == 0x202F || n == 0x205F || n == 0x3000
  }

  predicate Blank(s: string) { forall i :: 0 <= i < |s| ==> IsSpace(s[i]) }

  function TrimLeft(s: string): (t: string)
    ensures |t| <= |s| && (t == "" || !IsSpace(t[0]))
  {
    if s == "" || !IsSpace(s[0]) then s else TrimLeft(s[1..])
  }

  function TrimRight(s: string): (t: string)
    ensures |t| <= |s| && (t == "" || !IsSpace(t[|t| - 1]))
  {
    if s == "" || !IsSpace(s[|s| - 1]) then s else TrimRight(s[..|s| - 1])
  }

  lemma {:induction false} TrimLeftCuts(s: string) returns (a: string)
    ensures Blank(a) && s == a + TrimLeft(s)
  {
    if s == "" || !IsSpace(s[0]) {
      a := "";
    } else {
      var b := TrimLeftCuts(s[1..]);
      a := [s[0]] + b;
      assert s == [s[0]] + s[1..];
    }
  }

  lemma {:induction false} TrimRightCuts(s: string) returns (z: string)
    ensures Blank(z) && s == TrimRight(s) + z
  {
    if s == "" || !IsSpace(s[|s| - 1]) {
      z := "";
    } else {
      var n := |s| - 1;
      var y := TrimRightCuts(s[..n]);
      z := y + [s[n]];
      assert s == s[..n] + [s[n]];
    }
  }

  function Strip(s: string): string { TrimRight(TrimLeft(s)) }

  /** No white space at either end. */
  predicate Trimmed(s: string) { s != "" && !IsSpace(s[0]) && !IsSpace(s[|s| - 1]) }

  predicate OneLine(s: string) { '\n' !in s }

  lemma {:induction false} AtNewline(s: string, j: nat)
    ensures At(s, NL, j) <==> j < |s| && s[j] == '\n'
  {
    if j < |s| {
      assert s[j..j + 1] == [s[j]];
    }
  }

  lemma {:induction false} FindNewline(s: string)
    ensures Find(s, NL) == None <==> OneLine(s)
    ensures OneLine(s) <==> Find(s + NL, NL) == Some(|s|)
  {
    forall j: nat
      ensures At(s, NL, j) <==> j < |s| && s[j] == '\n'
      ensures At(s + NL, NL, j) <==> j == |s| || (j < |s| && s[j] == '\n')
    {
      AtNewline(s, j);
      AtNewline(s + NL, j);
    }
    if OneLine(s) {
      FindIs(s + NL, NL, |s|);
    }
  }

  /** A text and its lines determine each other. */
  lemma {:induction false} LinesOf(s: string)
    ensures var lines := Split(s, NL);
      && Join(lines, NL) == s
      && forall i :: 0 <= i < |lines| ==> OneLine(lines[i])
  {
    SplitThenJoin(s, NL);
    ProperAreLines(Split(s, NL));
  }

  lemma {:induction false} ProperAreLines(lines: seq<string>)
    requires Proper(lines, NL)
    ensures forall i :: 0 <= i < |lines| ==> OneLine(lines[i])
  {
    forall i | 0 <= i < |lines|
      ensures OneLine(lines[i])
    {
      FindNewline(lines[i]);
    }
  }

  lemma {:induction false} SplitOfLines(lines: seq<string>)
    requires lines != [] && forall i :: 0 <= i < |lines| ==> OneLine(lines[i])
    ensures Split(Join(lines, NL), NL) == lines
  {
    forall i | 0 <= i < |lines|
      ensures Find(lines[i] + NL, NL) == Some(|lines[i]|)
    {
      FindNewline(lines[i]);
    }
    FindNewline(lines[|lines| - 1]);
    JoinThenSplit(lines, NL);
  }

  /** A line feed at the end adds an empty last line. */
  lemma {:induction false} LinesOfTerminated(s: string)
    ensures Split(s + NL, NL) == Split(s, NL) + [""]
  {
    LinesOf(s);
    var lines := Split(s, NL);
    JoinAppend(lines, [""], NL);
    SplitOfLines(lines + [""]);
    assert s + NL + "" == s + NL;
  }

  // ---- The first line of a kind ----

  /** The first line that passes the test. */
  function First(lines: seq<string>, test: string -> bool): (r: Option<nat>)
    ensures r.Some? ==> r.value < |lines| && test(lines[r.value])
  {
    if lines == [] then None
    else if test(lines[0]) then Some(0)
    else
      match First(lines[1..], test)
      case None => None
      case Some(i) => Some(i + 1)
  }

  lemma {:induction false} FirstIs(lines: seq<string>, test: string -> bool, i: nat)
    requires i < |lines| && test(lines[i]) && forall k :: 0 <= k < i ==> !test(lines[k])
    ensures First(lines, test) == Some(i)
  {
    if i > 0 {
      FirstIs(lines[1..], test, i - 1);
    }
  }

  lemma {:induction false} FirstNone(lines: seq<string>, test: string -> bool)
    ensures First(lines, test) == None <==> forall k :: 0 <= k < |lines| ==> !test(lines[k])
  {
    if lines != [] {
      FirstNone(lines[1..], test);
      assert forall k :: 1 <= k < |lines| ==> lines[k] == lines[1..][k - 1];
    }
  }

  lemma {:induction false} BeforeFirst(lines: seq<string>, test: string -> bool, k: nat)
    requires First(lines, test).Some? && k < First(lines, test).value
    ensures !test(lines[k])
  {
    if k > 0 {
      BeforeFirst(lines[1..], test, k - 1);
    }
  }
}
