/** Cutting text at a byte count without breaking a character: `_cap_text`. */
module Utf8 {
  /** A byte. */
  newtype byte = x: int | 0 <= x < 256

  /** The UTF-8 encoding of one character, by the four ranges of section 3 of RFC 3629. */
  function EncodeChar(c: char): (bytes: seq<byte>)
    ensures 1 <= |bytes| <= 4
  {
    var n := c as int;
    if n < 0x80 then [n as byte]
    else if n < 0x800 then [(0xC0 + n / 0x40) as byte, Low(n)]
    else if n < 0x10000 then [(0xE0 + n / 0x1000) as byte, Low(n / 0x40), Low(n)]
    else [(0xF0 + n / 0x40000) as byte, Low(n / 0x1000), Low(n / 0x40), Low(n)]
  }

  /** A continuation byte carrying the low six bits. */
  function Low(n: nat): (b: byte)
    ensures Continues(b) && b as int == 0x80 + n % 0x40
  {
    (0x80 + n % 0x40) as byte
  }

  predicate Continues(b: byte) { 0x80 <= b < 0xC0 }

  function Encode(text: string): seq<byte> {
    if text == "" then [] else EncodeChar(text[0]) + Encode(text[1..])
  }

  /** How many bytes a well-formed sequence starting with `b` has; 0 when `b` cannot start one. */
  function LeadLength(b: byte): nat {
    if b < 0x80 then 1
    else if 0xC2 <= b < 0xE0 then 2
    else if 0xE0 <= b < 0xF0 then 3
    else if 0xF0 <= b < 0xF5 then 4
    else 0
  }

  /** The number read off `k` well-placed bytes. */
  function Value(bytes: seq<byte>, k: nat): int
    requires 1 <= k <= 4 && k <= |bytes|
  {
    if k == 1 then bytes[0] as int
    else if k == 2 then (bytes[0] as int - 0xC0) * 0x40 + (bytes[1] as int - 0x80)
    else if k == 3 then (bytes[0] as int - 0xE0) * 0x1000 + (bytes[1] as int - 0x80) * 0x40 + (bytes[2] as int - 0x80)
    else (bytes[0] as int - 0xF0) * 0x40000 + (bytes[1] as int - 0x80) * 0x1000
         + (bytes[2] as int - 0x80) * 0x40 + (bytes[3] as int - 0x80)
  }

  /** A well-formed sequence stands at the front: right length, continuation bytes, shortest form, and
      not a surrogate or out of range. */
  predicate StartsWell(bytes: seq<byte>) {
    && bytes != []
    && var k := LeadLength(bytes[0]);
       && 1 <= k <= |bytes|
       && (forall i :: 1 <= i < k ==> Continues(bytes[i]))
       && var v := Value(bytes, k);
          && (k == 1 || (k == 2 && 0x80 <= v) || (k == 3 && 0x800 <= v) || (k == 4 && 0x10000 <= v))
          && (0 <= v < 0xD800 || 0xE000 <= v < 0x110000)
  }

  /** Decoding that skips every byte at which no well-formed sequence starts. */
  function DecodeIgnore(bytes: seq<byte>): string
    decreases |bytes|
  {
    if bytes == [] then ""
    else if StartsWell(bytes) then
      var k := LeadLength(bytes[0]);
      [Value(bytes, k) as char] + DecodeIgnore(bytes[k..])
    else DecodeIgnore(bytes[1..])
  }

  /** `n` is read back from the front of `bytes` as one character of `k` bytes. */
  ghost predicate ReadsAs(bytes: seq<byte>, k: nat, n: int) {
    1 <= k <= 4 && k <= |bytes| && StartsWell(bytes) && LeadLength(bytes[0]) == k && Value(bytes, k) == n
  }

  lemma {:induction false} TwoBytes(n: nat, rest: seq<byte>)
    requires 0x80 <= n < 0x800
    ensures ReadsAs([(0xC0 + n / 0x40) as byte, Low(n)] + rest, 2, n)
  {
  }

  /** A number by its six-bit digits. */
  lemma {:induction false} SixBitDigits(n: nat)
    ensures n == n / 0x40 * 0x40 + n % 0x40
    ensures n / 0x40 == n / 0x1000 * 0x40 + n / 0x40 % 0x40
    ensures n / 0x1000 == n / 0x40000 * 0x40 + n / 0x1000 % 0x40
  {
    assert n / 0x40 / 0x40 == n / 0x1000 && n / 0x1000 / 0x40 == n / 0x40000;
  }

  lemma {:induction false} ThreeBytes(n: nat, rest: seq<byte>)
    requires 0x800 <= n < 0xD800 || 0xE000 <= n < 0x10000
    ensures ReadsAs([(0xE0 + n / 0x1000) as byte, Low(n / 0x40), Low(n)] + rest, 3, n)
  {
    var bytes := [(0xE0 + n / 0x1000) as byte, Low(n / 0x40), Low(n)] + rest;
    SixBitDigits(n);
    assert Value(bytes, 3) == n;
  }

  lemma {:induction false} FourBytesValue(n: nat, bytes: seq<byte>)
    requires 0x10000 <= n < 0x110000 && |bytes| >= 4
    requires bytes[0] == (0xF0 + n / 0x40000) as byte
    requires bytes[1] == Low(n / 0x1000) && bytes[2] == Low(n / 0x40) && bytes[3] == Low(n)
    ensures Value(bytes, 4) == n
  {
    SixBitDigits(n);
  }

  lemma {:induction false} FourBytes(n: nat, rest: seq<byte>)
    requires 0x10000 <= n < 0x110000
    ensures ReadsAs([(0xF0 + n / 0x40000) as byte, Low(n / 0x1000), Low(n / 0x40), Low(n)] + rest, 4, n)
  {
    FourBytesValue(n, [(0xF0 + n / 0x40000) as byte, Low(n / 0x1000), Low(n / 0x40), Low(n)] + rest);
  }

  /** An encoded character is read back whatever follows. */
  lemma {:induction false} EncodedCharIsRead(c: char, rest: seq<byte>)
    ensures ReadsAs(EncodeChar(c) + rest, |EncodeChar(c)|, c as int)
  {
    var n := c as int;
    assert n < 0xD800 || 0xE000 <= n < 0x110000;
    if n < 0x80 {
      assert (EncodeChar(c) + rest)[0] == n as byte;
    } else if n < 0x800 {
      TwoBytes(n, rest);
    } else if n < 0x10000 {
      ThreeBytes(n, rest);
    } else {
      FourBytes(n, rest);
    }
  }

  /** A proper prefix of an encoded character decodes to nothing. */
  lemma {:induction false} BrokenCharIsSkipped(c: char, n: nat)
    requires n < |EncodeChar(c)|
    ensures DecodeIgnore(EncodeChar(c)[..n]) == ""
  {
    EncodedCharIsRead(c, []);
    var bytes := EncodeChar(c)[..n];
    assert EncodeChar(c) + [] == EncodeChar(c);
    if n > 0 {
      assert LeadLength(bytes[0]) == |EncodeChar(c)| > n;
      assert forall i :: 1 <= i < n ==> Continues(bytes[i]);
      OnlyContinuations(bytes[1..]);
    }
  }

  lemma {:induction false} OnlyContinuations(bytes: seq<byte>)
    requires forall i :: 0 <= i < |bytes| ==> Continues(bytes[i])
    ensures DecodeIgnore(bytes) == ""
  {
    if bytes != [] {
      assert LeadLength(bytes[0]) == 0;
      OnlyContinuations(bytes[1..]);
    }
  }

  /** How many whole characters of the text fit in `n` bytes. */
  function FittingChars(text: string, n: nat): (k: nat)
    ensures k <= |text|
  {
    if text == "" || |EncodeChar(text[0])| > n then 0
    else 1 + FittingChars(text[1..], n - |EncodeChar(text[0])|)
  }

  /** That count is the longest prefix whose encoding fits. */
  lemma {:induction false} FittingIsLongest(text: string, n: nat, k: nat)
    requires k <= |text|
    ensures |Encode(text[..k])| <= n <==> k <= FittingChars(text, n)
  {
    if k > 0 {
      assert text[..k][0] == text[0] && text[..k][1..] == text[1..][..k - 1];
      if |EncodeChar(text[0])| <= n {
        FittingIsLongest(text[1..], n - |EncodeChar(text[0])|, k - 1);
      }
    }
  }

  /** Cutting the encoded text at `n` bytes and dropping the broken tail yields exactly the longest
      prefix of whole characters whose encoding fits in `n` bytes. */
  lemma {:induction false} CutDecodesToFittingPrefix(text: string, n: nat)
    requires n <= |Encode(text)|
    ensures DecodeIgnore(Encode(text)[..n]) == text[..FittingChars(text, n)]
  {
    if text == "" {
    } else {
      var head := EncodeChar(text[0]);
      var tail := Encode(text[1..]);
      if |head| > n {
        assert Encode(text)[..n] == head[..n];
        BrokenCharIsSkipped(text[0], n);
      } else {
        var rest := tail[..n - |head|];
        assert Encode(text)[..n] == head + rest;
        EncodedCharIsRead(text[0], rest);
        assert (head + rest)[|head|..] == rest;
        CutDecodesToFittingPrefix(text[1..], n - |head|);
        assert text[..FittingChars(text, n)] == [text[0]] + text[1..][..FittingChars(text[1..], n - |head|)];
      }
    }
  }

  lemma {:induction false} AllCharsFit(text: string)
    ensures FittingChars(text, |Encode(text)|) == |text|
  {
    FittingIsLongest(text, |Encode(text)|, |text|);
    assert text[..|text|] == text;
  }

  /** Decoding undoes encoding. */
  lemma {:induction false} DecodeEncode(text: string)
    ensures DecodeIgnore(Encode(text)) == text
  {
    CutDecodesToFittingPrefix(text, |Encode(text)|);
    AllCharsFit(text);
    assert Encode(text)[..|Encode(text)|] == Encode(text);
    assert text[..|text|] == text;
  }

  /** The kept text, and the byte count named in the notice when it was cut. */
  datatype Capped = Whole(text: string) | Cut(text: string, bytes: nat)

  function CapText(text: string, maxBytes: nat): Capped {
    var raw := Encode(text);
    if |raw| <= maxBytes then Whole(text) else Cut(DecodeIgnore(raw[..maxBytes]), |raw|)
  }

  /** The kept text is the longest prefix of whole characters within the cap, and the notice appears
      exactly when something was dropped. */
  lemma {:induction false} CapTextKeepsLongestPrefix(text: string, maxBytes: nat, k: nat)
    requires k <= |text|
    ensures var kept := CapText(text, maxBytes).text;
      && kept <= text && |Encode(kept)| <= maxBytes
      && (|Encode(text[..k])| <= maxBytes ==> k <= |kept|)
      && (CapText(text, maxBytes).Cut? <==> kept != text)
  {
    var kept := CapText(text, maxBytes).text;
    FittingIsLongest(text, maxBytes, k);
    FittingIsLongest(text, maxBytes, |text|);
    FittingIsLongest(text, maxBytes, FittingChars(text, maxBytes));
    assert text[..|text|] == text;
    if |Encode(text)| > maxBytes {
      CutDecodesToFittingPrefix(text, maxBytes);
    }
  }
}
