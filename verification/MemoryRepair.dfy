/**
  Repairing the unescaped `updated_memory` field of a JSON answer: finding where its value ends,
  re-escaping it, and splicing it back.
*/
module MemoryRepair {
  import opened Options

  /** Texts are sequences of code points and may hold lone surrogates, as Python strings may. */
  type Code = n: int | 0 <= n < 0x110000

  const QUOTE: Code := 0x22
  const BACKSLASH: Code := 0x5C
  const COMMA: Code := 0x2C
  const CLOSE_BRACE: Code := 0x7D
  const LETTER_U: Code := 0x75

  // ---- Where the value ends ----

  predicate IsJsonSpace(c: Code) { c == 0x20 || c == 9 || c == 10 || c == 13 }

  /** Only white space from `i` up to `j`. */
  predicate Gap(text: seq<Code>, i: nat, j: nat)
    requires j <= |text|
  {
    forall k :: i <= k < j ==> IsJsonSpace(text[k])
  }

  /** The next thing after `i` that is no white space is at `j`. */
  predicate NextAt(text: seq<Code>, i: nat, j: nat) {
    i <= j < |text| && Gap(text, i, j) && !IsJsonSpace(text[j])
  }

  /** After the quote comes a closing brace, or a comma and then a quote or a closing brace. */
  ghost predicate Terminated(text: seq<Code>, quote: nat) {
    exists j: nat :: NextAt(text, quote + 1, j) &&
      (text[j] == CLOSE_BRACE || (text[j] == COMMA && CommaTerminated(text, j)))
  }

  ghost predicate CommaTerminated(text: seq<Code>, j: nat) {
    exists k: nat :: NextAt(text, j + 1, k) && (text[k] == QUOTE || text[k] == CLOSE_BRACE)
  }

  method SkipSpace(text: seq<Code>, i: nat) returns (j: nat)
    requires i <= |text|
    ensures i <= j <= |text| && Gap(text, i, j) && (j < |text| ==> NextAt(text, i, j))
  {
    j := i;
    while j < |text| && IsJsonSpace(text[j])
      invariant i <= j <= |text| && Gap(text, i, j)
    {
      j := j + 1;
    }
  }

  lemma {:induction false} NextIsUnique(text: seq<Code>, i: nat, k: nat)
    requires i <= k <= |text| && Gap(text, i, k) && (k < |text| ==> NextAt(text, i, k))
    ensures forall x: nat :: NextAt(text, i, x) ==> x == k
  {
  }

  /** `_is_structural_quote_end`. */
  method IsStructuralQuoteEnd(text: seq<Code>, quote: nat) returns (structural: bool)
    requires quote < |text|
    ensures structural <==> Terminated(text, quote)
  {
    var j := SkipSpace(text, quote + 1);
    NextIsUnique(text, quote + 1, j);
    if j >= |text| {
      return false;
    }
    if text[j] == CLOSE_BRACE {
      return true;
    }
    if text[j] != COMMA {
      return false;
    }
    var k := SkipSpace(text, j + 1);
    NextIsUnique(text, j + 1, k);
    structural := k < |text| && (text[k] == QUOTE || text[k] == CLOSE_BRACE);
    assert structural ==> CommaTerminated(text, j);
  }

  /** The number of backslashes right before `i`, back to `start`. */
  function Backslashes(text: seq<Code>, start: nat, i: nat): nat
    requires start <= i <= |text|
  {
    if i == start || text[i - 1] != BACKSLASH then 0 else 1 + Backslashes(text, start, i - 1)
  }

  /** A quote that ends the value: after an even run of backslashes, and structurally terminated. */
  ghost predicate EndsValue(text: seq<Code>, start: nat, i: nat) {
    start <= i < |text| && text[i] == QUOTE && Backslashes(text, start, i) % 2 == 0 && Terminated(text, i)
  }

  /** `_find_memory_value_end`: the first quote that ends the value. */
  method FindMemoryValueEnd(text: seq<Code>, start: nat) returns (end: Option<nat>)
    requires start <= |text|
    ensures end.Some? ==>
      EndsValue(text, start, end.value) && forall i: nat :: i < end.value ==> !EndsValue(text, start, i)
    ensures end.None? ==> forall i: nat :: !EndsValue(text, start, i)
  {
    var escaped := false;
    for i := start to |text|
      invariant escaped <==> Backslashes(text, start, i) % 2 == 1
      invariant forall k: nat :: k < i ==> !EndsValue(text, start, k)
    {
      var ch := text[i];
      if escaped {
        escaped := false;
      } else if ch == BACKSLASH {
        escaped := true;
      } else if ch == QUOTE {
        var structural := IsStructuralQuoteEnd(text, i);
        if structural {
          return Some(i);
        }
      }
    }
    end := None;
  }

  // ---- Escaping and reading back, by section 7 of RFC 8259 ----

  function HexDigit(n: nat): Code
    requires n < 16
  {
    if n < 10 then 0x30 + n else 0x61 + n - 10
  }

  function HexValue(c: Code): Option<nat> {
    if 0x30 <= c <= 0x39 then Some(c - 0x30)
    else if 0x61 <= c <= 0x66 then Some(c - 0x61 + 10)
    else if 0x41 <= c <= 0x46 then Some(c - 0x41 + 10)
    else None
  }

  /** A backslash, `u` and four hexadecimal digits. */
  function Unicode(n: nat): (e: seq<Code>)
    requires n < 0x10000
    ensures |e| == 6
  {
    [BACKSLASH, LETTER_U, HexDigit(n / 0x1000), HexDigit(n / 0x100 % 0x10), HexDigit(n / 0x10 % 0x10),
     HexDigit(n % 0x10)]
  }

  /** The letter of a two-character escape. */
  function ShortEscape(c: Code): Option<Code> {
    if c == QUOTE || c == BACKSLASH then Some(c)
    else if c == 0x0A then Some(0x6E)
    else if c == 0x0D then Some(0x72)
    else if c == 0x09 then Some(0x74)
    else if c == 0x0C then Some(0x66)
    else if c == 0x08 then Some(0x62)
    else None
  }

  function HighPart(c: Code): nat
    requires c >= 0x10000
  {
    0xD800 + (c - 0x10000) / 0x400
  }

  function LowPart(c: Code): nat
    requires c >= 0x10000
  {
    0xDC00 + (c - 0x10000) % 0x400
  }

  /** `json.dumps` of one character: printable ASCII as it is, everything else escaped, and characters
      beyond the basic plane as a surrogate pair. */
  function EscapeChar(c: Code): (e: seq<Code>)
    ensures |e| >= 1
  {
    if ShortEscape(c).Some? then [BACKSLASH, ShortEscape(c).value]
    else if 0x20 <= c < 0x7F then [c]
    else if c < 0x10000 then Unicode(c)
    else Unicode(HighPart(c)) + Unicode(LowPart(c))
  }

  function Escape(raw: seq<Code>): seq<Code> {
    if raw == [] then [] else EscapeChar(raw[0]) + Escape(raw[1..])
  }

  predicate IsHigh(n: int) { 0xD800 <= n < 0xDC00 }

  predicate IsLow(n: int) { 0xDC00 <= n < 0xE000 }

  function Combine(high: nat, low: nat): Code
    requires IsHigh(high) && IsLow(low)
  {
    0x10000 + (high - 0xD800) * 0x400 + (low - 0xDC00)
  }

  /** The character a two-character escape stands for. */
  function Unescape(letter: Code): Option<Code> {
    if letter == QUOTE || letter == BACKSLASH || letter == 0x2F then Some(letter)
    else if letter == 0x6E then Some(0x0A)
    else if letter == 0x72 then Some(0x0D)
    else if letter == 0x74 then Some(0x09)
    else if letter == 0x66 then Some(0x0C)
    else if letter == 0x62 then Some(0x08)
    else None
  }

  /** The number of a Unicode escape at the front of the text. */
  function ReadUnicode(t: seq<Code>): Option<nat> {
    if |t| < 6 || t[0] != BACKSLASH || t[1] != LETTER_U then None
    else
      var a, b, c, d := HexValue(t[2]), HexValue(t[3]), HexValue(t[4]), HexValue(t[5]);
      if a.None? || b.None? || c.None? || d.None? then None
      else Some(a.value * 0x1000 + b.value * 0x100 + c.value * 0x10 + d.value)
  }

  /** One character read from inside a string, and how much text it took. */
  function ReadChar(t: seq<Code>): (r: Option<(Code, nat)>)
    ensures r.Some? ==> 1 <= r.value.1 <= |t|
  {
    if t == [] || t[0] == QUOTE || t[0] < 0x20 then None
    else if t[0] != BACKSLASH then Some((t[0], 1))
    else if |t| == 1 then None
    else if t[1] != LETTER_U then
      (match Unescape(t[1]) case None => None case Some(c) => Some((c, 2)))
    else
      match ReadUnicode(t)
      case None => None
      case Some(n) =>
        if n >= 0x10000 then None
        else if IsHigh(n) && ReadUnicode(t[6..]).Some? && IsLow(ReadUnicode(t[6..]).value) then
          Some((Combine(n, ReadUnicode(t[6..]).value), 12))
        else Some((n, 6))
  }

  /** The value of a string whose opening quote stands right before `t`, and the index of its closing
      quote in `t`. */
  function ReadString(t: seq<Code>): Option<(seq<Code>, nat)>
    decreases |t|
  {
    if t == [] then None
    else if t[0] == QUOTE then Some(([], 0))
    else
      match ReadChar(t)
      case None => None
      case Some((c, n)) =>
        match ReadString(t[n..])
        case None => None
        case Some((rest, end)) => Some(([c] + rest, n + end))
  }

  /** A high surrogate right before a low one: as escapes they read back as one character. */
  predicate StartsWithPair(raw: seq<Code>) { |raw| >= 2 && IsHigh(raw[0]) && IsLow(raw[1]) }

  function Glue(raw: seq<Code>): seq<Code>
    decreases |raw|
  {
    if raw == [] then []
    else if StartsWithPair(raw) then [Combine(raw[0], raw[1])] + Glue(raw[2..])
    else [raw[0]] + Glue(raw[1..])
  }

  predicate HasPair(raw: seq<Code>) { exists i :: 0 <= i < |raw| - 1 && IsHigh(raw[i]) && IsLow(raw[i + 1]) }

  /** A number by its hexadecimal digits. */
  lemma {:induction false} HexDigits(n: nat)
    ensures n == n / 0x1000 * 0x1000 + n / 0x100 % 0x10 * 0x100 + n / 0x10 % 0x10 * 0x10 + n % 0x10
  {
    assert n == n / 0x10 * 0x10 + n % 0x10;
    assert n / 0x10 / 0x10 == n / 0x100 && n / 0x100 / 0x10 == n / 0x1000;
    assert n / 0x10 == n / 0x100 * 0x10 + n / 0x10 % 0x10;
    assert n / 0x100 == n / 0x1000 * 0x10 + n / 0x100 % 0x10;
  }

  lemma {:induction false} DigitsRead(t: seq<Code>, a: nat, b: nat, c: nat, d: nat)
    requires a < 16 && b < 16 && c < 16 && d < 16 && |t| >= 6 && t[0] == BACKSLASH && t[1] == LETTER_U
    requires t[2] == HexDigit(a) && t[3] == HexDigit(b) && t[4] == HexDigit(c) && t[5] == HexDigit(d)
    ensures ReadUnicode(t) == Some(a * 0x1000 + b * 0x100 + c * 0x10 + d)
  {
    HexReads(a);
    HexReads(b);
    HexReads(c);
    HexReads(d);
  }

  lemma {:induction false} UnicodeReads(n: nat, rest: seq<Code>)
    requires n < 0x10000
    ensures ReadUnicode(Unicode(n) + rest) == Some(n) && (Unicode(n) + rest)[6..] == rest
  {
    DigitsRead(Unicode(n) + rest, n / 0x1000, n / 0x100 % 0x10, n / 0x10 % 0x10, n % 0x10);
    HexDigits(n);
  }

  lemma {:induction false} HexReads(n: nat)
    requires n < 16
    ensures HexValue(HexDigit(n)) == Some(n)
  {
  }

  lemma {:induction false} PairCombines(c: Code)
    requires c >= 0x10000
    ensures IsHigh(HighPart(c)) && IsLow(LowPart(c)) && Combine(HighPart(c), LowPart(c)) == c
  {
  }

  /** An escaped character other than a high surrogate reads back alone, whatever follows. */
  lemma {:induction false} EscapedCharReads(c: Code, rest: seq<Code>)
    requires !IsHigh(c) || (ReadUnicode(rest).Some? ==> !IsLow(ReadUnicode(rest).value))
    ensures ReadChar(EscapeChar(c) + rest) == Some((c, |EscapeChar(c)|))
    ensures (EscapeChar(c) + rest)[0] != QUOTE
  {
    var t := EscapeChar(c) + rest;
    if ShortEscape(c).Some? {
      assert t[1] == ShortEscape(c).value;
    } else if 0x20 <= c < 0x7F {
    } else if c < 0x10000 {
      UnicodeReads(c, rest);
    } else {
      PairCombines(c);
      UnicodeReads(HighPart(c), Unicode(LowPart(c)) + rest);
      UnicodeReads(LowPart(c), rest);
      assert t == Unicode(HighPart(c)) + (Unicode(LowPart(c)) + rest);
    }
  }

  /** Two lone surrogates in a row read back as one character. */
  lemma {:induction false} EscapedPairReads(high: Code, low: Code, rest: seq<Code>)
    requires IsHigh(high) && IsLow(low)
    ensures var t := EscapeChar(high) + (EscapeChar(low) + rest);
      ReadChar(t) == Some((Combine(high, low), 12)) && t[0] != QUOTE && t[12..] == rest
  {
    UnicodeReads(high, Unicode(low) + rest);
    UnicodeReads(low, rest);
  }

  lemma {:induction false} LongEscapeStarts(c: Code, tail: seq<Code>)
    requires c >= 0x10000
    ensures ReadUnicode(EscapeChar(c) + tail) == Some(HighPart(c)) && IsHigh(HighPart(c))
  {
    PairCombines(c);
    assert EscapeChar(c) + tail == Unicode(HighPart(c)) + (Unicode(LowPart(c)) + tail);
    UnicodeReads(HighPart(c), Unicode(LowPart(c)) + tail);
  }

  /** What an escaped character starts with is a low surrogate's escape only if it is one. */
  lemma {:induction false} CharStartsLow(c: Code, tail: seq<Code>)
    ensures var n := ReadUnicode(EscapeChar(c) + tail); n.Some? && IsLow(n.value) ==> IsLow(c)
  {
    var t := EscapeChar(c) + tail;
    if ShortEscape(c).Some? {
      assert t[1] == ShortEscape(c).value;
    } else if 0x20 <= c < 0x7F {
      assert t[0] == c;
    } else if c < 0x10000 {
      UnicodeReads(c, tail);
    } else {
      LongEscapeStarts(c, tail);
    }
  }

  lemma {:induction false} EscapeStartsLow(raw: seq<Code>, rest: seq<Code>)
    requires rest != [] && rest[0] == QUOTE
    ensures var n := ReadUnicode(Escape(raw) + rest);
      n.Some? && IsLow(n.value) ==> raw != [] && IsLow(raw[0])
  {
    if raw == [] {
      assert Escape(raw) + rest == rest;
    } else {
      assert Escape(raw) + rest == EscapeChar(raw[0]) + (Escape(raw[1..]) + rest);
      CharStartsLow(raw[0], Escape(raw[1..]) + rest);
    }
  }

  /** One character read at the front, then the rest of the string. */
  lemma {:induction false} ReadStep(t: seq<Code>, c: Code, n: nat, value: seq<Code>, end: nat)
    requires t != [] && t[0] != QUOTE && ReadChar(t) == Some((c, n))
    requires ReadString(t[n..]) == Some((value, end))
    ensures ReadString(t) == Some(([c] + value, n + end))
  {
  }

  /** The re-escaped text reads back as the raw text with its surrogate pairs glued, and the string ends
      at the quote after it. */
  lemma {:induction false} EscapedStringReads(raw: seq<Code>, rest: seq<Code>)
    requires rest != [] && rest[0] == QUOTE
    ensures ReadString(Escape(raw) + rest) == Some((Glue(raw), |Escape(raw)|))
    decreases |raw|
  {
    if raw == [] {
      assert Escape(raw) + rest == rest;
    } else if StartsWithPair(raw) {
      EscapedStringReads(raw[2..], rest);
      PairThenRest(raw, rest);
    } else {
      EscapedStringReads(raw[1..], rest);
      CharThenRest(raw, rest);
    }
  }

  lemma {:induction false} PairThenRest(raw: seq<Code>, rest: seq<Code>)
    requires StartsWithPair(raw)
    requires ReadString(Escape(raw[2..]) + rest) == Some((Glue(raw[2..]), |Escape(raw[2..])|))
    ensures ReadString(Escape(raw) + rest) == Some((Glue(raw), |Escape(raw)|))
  {
    var tail := Escape(raw[2..]) + rest;
    var a, b := EscapeChar(raw[0]), EscapeChar(raw[1]);
    EscapedPairReads(raw[0], raw[1], tail);
    assert raw[1..][1..] == raw[2..];
    assert Escape(raw[1..]) == b + Escape(raw[2..]);
    assert Escape(raw) + rest == a + (b + tail);
    ReadStep(a + (b + tail), Combine(raw[0], raw[1]), 12, Glue(raw[2..]), |Escape(raw[2..])|);
    assert |a| == 6 && |b| == 6;
  }

  lemma {:induction false} EscapeFirst(raw: seq<Code>, rest: seq<Code>)
    requires raw != []
    ensures Escape(raw) + rest == EscapeChar(raw[0]) + (Escape(raw[1..]) + rest)
  {
  }

  lemma {:induction false} DropFront(a: seq<Code>, b: seq<Code>)
    ensures (a + b)[|a|..] == b
  {
  }

  lemma {:induction false} CharThenRest(raw: seq<Code>, rest: seq<Code>)
    requires raw != [] && !StartsWithPair(raw) && rest != [] && rest[0] == QUOTE
    requires ReadString(Escape(raw[1..]) + rest) == Some((Glue(raw[1..]), |Escape(raw[1..])|))
    ensures ReadString(Escape(raw) + rest) == Some((Glue(raw), |Escape(raw)|))
  {
    var tail := Escape(raw[1..]) + rest;
    EscapeStartsLow(raw[1..], rest);
    EscapedCharReads(raw[0], tail);
    EscapeFirst(raw, rest);
    DropFront(EscapeChar(raw[0]), tail);
    ReadStep(EscapeChar(raw[0]) + tail, raw[0], |EscapeChar(raw[0])|, Glue(raw[1..]), |Escape(raw[1..])|);
  }

  lemma {:induction false} GlueShortens(raw: seq<Code>)
    ensures |Glue(raw)| <= |raw|
    ensures HasPair(raw) ==> |Glue(raw)| < |raw|
    ensures !HasPair(raw) ==> Glue(raw) == raw
    decreases |raw|
  {
    if raw != [] {
      if StartsWithPair(raw) {
        GlueShortens(raw[2..]);
        assert HasPair(raw);
      } else {
        GlueShortens(raw[1..]);
        if HasPair(raw) {
          var i :| 0 <= i < |raw| - 1 && IsHigh(raw[i]) && IsLow(raw[i + 1]);
          assert raw[1..][i - 1] == raw[i] && raw[1..][i] == raw[i + 1];
        }
        if HasPair(raw[1..]) {
          var i :| 0 <= i < |raw[1..]| - 1 && IsHigh(raw[1..][i]) && IsLow(raw[1..][i + 1]);
          assert raw[i + 1] == raw[1..][i] && raw[i + 2] == raw[1..][i + 1];
        }
        assert raw == [raw[0]] + raw[1..];
      }
    }
  }

  /** Reading the re-escaped text gives back the raw text exactly when no high surrogate stands right
      before a low one in it; a text decoded from bytes never has that. */
  lemma {:induction false} RoundTripExactly(raw: seq<Code>, rest: seq<Code>)
    requires rest != [] && rest[0] == QUOTE
    ensures ReadString(Escape(raw) + rest) == Some((raw, |Escape(raw)|)) <==> !HasPair(raw)
  {
    EscapedStringReads(raw, rest);
    GlueShortens(raw);
  }

  // ---- The repair ----

  /** White space as `\s` matches it. */
  predicate IsSpace(c: Code) {
    || 9 <= c <= 13 || 28 <= c <= 32 || c == 0x85 || c == 0xA0 || c == 0x1680 || 0x2000 <= c <= 0x200A
    || c == 0x2028 || c == 0x2029 || c == 0x202F || c == 0x205F || c == 0x3000
  }

  function SkipBlank(t: seq<Code>): (n: nat)
    ensures n <= |t|
  {
    if t == [] || !IsSpace(t[0]) then 0 else 1 + SkipBlank(t[1..])
  }

  /** The field's name in its quotes. */
  const FIELD: seq<Code> :=
    [0x22, 0x75, 0x70, 0x64, 0x61, 0x74, 0x65, 0x64, 0x5F, 0x6D, 0x65, 0x6D, 0x6F, 0x72, 0x79, 0x22]
  const COLON: Code := 0x3A

  /** The length of the field's name, colon and opening quote at the front of the text. */
  function FieldOpening(t: seq<Code>): (r: Option<nat>)
    ensures r.Some? ==> 1 <= r.value <= |t| && t[r.value - 1] == QUOTE
  {
    if !(FIELD <= t) then None
    else
      var a := |FIELD| + SkipBlank(t[|FIELD|..]);
      if a >= |t| || t[a] != COLON then None
      else
        var b := a + 1 + SkipBlank(t[a + 1..]);
        if b >= |t| || t[b] != QUOTE then None else Some(b + 1)
  }

  /** The end of the first match of an opening. */
  function Seek(opening: seq<Code> -> Option<nat>, text: seq<Code>): Option<nat> {
    if opening(text).Some? || text == [] then opening(text)
    else match Seek(opening, text[1..]) case None => None case Some(n) => Some(n + 1)
  }

  lemma {:induction false} SeekEndsAtQuote(opening: seq<Code> -> Option<nat>, text: seq<Code>)
    requires forall t :: opening(t).Some? ==> 1 <= opening(t).value <= |t| && t[opening(t).value - 1] == QUOTE
    ensures var r := Seek(opening, text); r.Some? ==> 1 <= r.value <= |text| && text[r.value - 1] == QUOTE
  {
    if opening(text).None? && text != [] {
      SeekEndsAtQuote(opening, text[1..]);
    }
  }

  /** Where the first such field's value starts. */
  function FieldStart(text: seq<Code>): Option<nat> { Seek(FieldOpening, text) }

  /** `valid` is the JSON parser's verdict. The result is the input, or valid text that differs from it
      only in the field's value, which runs from the first field's opening quote to the first quote that
      ends it; there the result reads back as the raw value, ending at the same quote. A repair that
      would be valid is made. */
  method RepairMemoryField(valid: seq<Code> -> bool, text: seq<Code>) returns (repaired: seq<Code>)
    ensures valid(text) ==> repaired == text
    ensures repaired == text || (!valid(text) && exists start: nat, end: nat ::
      FieldStart(text) == Some(start) && RepairedAt(text, start, end, repaired) && valid(repaired))
    ensures !valid(text) ==> forall start: nat, end: nat ::
      (FieldStart(text) == Some(start) && FirstEnd(text, start, end) && valid(Spliced(text, start, end))
       ==> repaired == Spliced(text, start, end))
  {
    if valid(text) {
      return text;
    }
    var found := FieldStart(text);
    SeekEndsAtQuote(FieldOpening, text);
    if found.None? {
      return text;
    }
    repaired := RepairFrom(valid, text, found.value);
  }

  /** Repairs the value that starts at `start`, if its end is found and the result is valid. */
  method RepairFrom(valid: seq<Code> -> bool, text: seq<Code>, start: nat) returns (repaired: seq<Code>)
    requires start <= |text| && !valid(text)
    ensures repaired == text || (valid(repaired) && exists end: nat :: RepairedAt(text, start, end, repaired))
    ensures forall end: nat :: FirstEnd(text, start, end) && valid(Spliced(text, start, end)) ==>
      repaired == Spliced(text, start, end)
  {
    var last := FindMemoryValueEnd(text, start);
    if last.None? {
      return text;
    }
    var end := last.value;
    assert FirstEnd(text, start, end);
    OnlyOneFirstEnd(text, start, end);
    var raw := text[start..end];
    var escaped := Escape(raw);
    repaired := text[..start] + escaped + text[end..];
    SplicedReads(text, start, end);
    assert RepairedAt(text, start, end, repaired);
    if !valid(repaired) {
      repaired := text;
    }
  }

  lemma {:induction false} OnlyOneFirstEnd(text: seq<Code>, start: nat, end: nat)
    requires FirstEnd(text, start, end)
    ensures forall e: nat :: FirstEnd(text, start, e) ==> e == end
  {
    forall e: nat | FirstEnd(text, start, e)
      ensures e == end
    {
      assert e < end ==> !EndsValue(text, start, e);
      assert end < e ==> !EndsValue(text, start, end);
    }
  }

  ghost predicate FirstEnd(text: seq<Code>, start: nat, end: nat) {
    EndsValue(text, start, end) && forall i: nat :: i < end ==> !EndsValue(text, start, i)
  }

  function Spliced(text: seq<Code>, start: nat, end: nat): seq<Code> {
    if start <= end < |text| then text[..start] + Escape(text[start..end]) + text[end..] else text
  }

  ghost predicate RepairedAt(text: seq<Code>, start: nat, end: nat, repaired: seq<Code>) {
    && FirstEnd(text, start, end)
    && repaired == Spliced(text, start, end)
    && start <= |repaired|
    && ReadString(repaired[start..]) == Some((Glue(text[start..end]), |Escape(text[start..end])|))
    && repaired[start + |Escape(text[start..end])|..] == text[end..]
  }

  lemma {:induction false} SplicedReads(text: seq<Code>, start: nat, end: nat)
    requires start <= end < |text| && text[end] == QUOTE
    ensures var repaired := Spliced(text, start, end);
      && start + |Escape(text[start..end])| <= |repaired|
      && ReadString(repaired[start..]) == Some((Glue(text[start..end]), |Escape(text[start..end])|))
      && repaired[start + |Escape(text[start..end])|..] == text[end..]
  {
    var repaired := Spliced(text, start, end);
    var raw := text[start..end];
    assert repaired[start..] == Escape(raw) + text[end..];
    EscapedStringReads(raw, text[end..]);
  }
}
