/** The three mutating file tools as plain operations on one file's content. */
module FileOps {
  import opened Options
  import opened Text
  import Sequences

  /** Reading in text mode translates every line ending to a line feed. */
  function Decode(raw: string): (text: string)
    ensures '\r' !in text
    decreases |raw|
  {
    if raw == "" then ""
    else if raw[0] == '\r' then
      "\n" + Decode(if |raw| > 1 && raw[1] == '\n' then raw[2..] else raw[1..])
    else [raw[0]] + Decode(raw[1..])
  }

  /** `text.count(old)`. */
  function Occurrences(text: string, old_: string): nat {
    if old_ == "" then |text| + 1 else |Split(text, old_)| - 1
  }

  /** Replacing the empty string inserts before each of the first `n` positions. */
  function InsertBetween(text: string, new_: string, n: nat): string {
    if n == 0 then text
    else if text == "" then new_
    else new_ + [text[0]] + InsertBetween(text[1..], new_, n - 1)
  }

  /** `text.replace(old, new, count)`: a negative count means every occurrence. */
  function ReplaceCount(text: string, old_: string, new_: string, count: int): string {
    var n: nat := if count < 0 then Occurrences(text, old_) else count;
    if old_ == "" then InsertBetween(text, new_, n) else Replace(text, old_, new_, n)
  }

  datatype Mutation =
    | Write(path: string, content: string)
    | Edit(path: string, old_: string, new_: string, count: int, replaceAll: bool)
    | Delete(path: string)

  datatype Result =
    | Wrote(size: nat)
    | Replaced(count: int)
    | Deleted
    | NotFound
    | Ambiguous(occurrences: nat)
    | TooFew(occurrences: nat, wanted: int)
    | SyntaxRejected
    | IoError
  {
    predicate Succeeded() { Wrote? || Replaced? || Deleted? }
  }

  /** The syntax check on edited or written Python files, as a function of path and new content. */
  type Lint = (string, string) -> bool

  function EditText(rejects: Lint, m: Mutation, text: string): (Option<string>, Result)
    requires m.Edit?
  {
    var occurrences := Occurrences(text, m.old_);
    var count := if m.replaceAll && occurrences > 0 then occurrences else m.count;
    if occurrences == 0 then (None, NotFound)
    else if count == 1 && occurrences > 1 && m.old_ != "" then (None, Ambiguous(occurrences))
    else if occurrences < count then (None, TooFew(occurrences, count))
    else
      var after := ReplaceCount(text, m.old_, m.new_, count);
      if rejects(m.path, after) then (None, SyntaxRejected) else (Some(after), Replaced(count))
  }

  /** One call run alone against a plain disk that holds `file` at the call's path. */
  function Apply(rejects: Lint, m: Mutation, file: Option<string>): (Option<string>, Result) {
    match m
    case Write(path, content) =>
      if rejects(path, content) then (file, SyntaxRejected) else (Some(content), Wrote(|content|))
    case Edit(path, _, _, _, _) =>
      if file.None? then (None, IoError)
      else
        var (after, result) := EditText(rejects, m, Decode(file.value));
        (if after.Some? then after else file, result)
    case Delete(_) =>
      if file.None? then (None, IoError) else (None, Deleted)
  }

  function Lookup(files: map<string, string>, p: string): Option<string> {
    if p in files then Some(files[p]) else None
  }

  function Put(files: map<string, string>, p: string, file: Option<string>): map<string, string> {
    if file.Some? then files[p := file.value] else files - {p}
  }

  /** Every character is cut off from the text before it, and the first also from nothing: the first `n` places the
      empty string stands at. */
  function CutBetween(text: string, n: nat): (pieces: seq<string>)
    requires n <= |text| + 1
    ensures |pieces| == n + 1
  {
    if n == 0 then [text]
    else if text == "" then ["", ""]
    else
      var rest := CutBetween(text[1..], n - 1);
      ["", [text[0]] + rest[0]] + rest[1..]
  }

  lemma {:induction false} JoinLongerFirst(c: string, parts: seq<string>, sep: string)
    requires parts != []
    ensures Join([c + parts[0]] + parts[1..], sep) == c + Join(parts, sep)
  {
    var rest := parts[1..];
    Sequences.Parts([c + parts[0]], rest);
    if rest != [] {
      Sequences.Regroup(c, parts[0], sep + Join(rest, sep));
    }
  }

  /** One piece more: an empty one, and the character in front of the next. */
  lemma {:induction false} JoinOneMore(c: string, parts: seq<string>, sep: string)
    requires parts != []
    ensures Join(["", c + parts[0]] + parts[1..], sep) == sep + c + Join(parts, sep)
  {
    var below := [c + parts[0]] + parts[1..];
    JoinLongerFirst(c, parts, sep);
    Sequences.Regroup([""], [c + parts[0]], parts[1..]);
    JoinCons("", below, sep);
    Sequences.WithNothing(sep);
    Sequences.Regroup(sep, c, Join(parts, sep));
  }

  lemma {:induction false} JoinCutBetween(text: string, n: nat, sep: string)
    requires n <= |text| + 1
    ensures Join(CutBetween(text, n), sep) == InsertBetween(text, sep, n)
    decreases |text|
  {
    if n > 0 {
      if text == "" {
        JoinOneMore("", [""], sep);
        Sequences.WithNothing(sep);
      } else {
        JoinCutBetween(text[1..], n - 1, sep);
        JoinOneMore([text[0]], CutBetween(text[1..], n - 1), sep);
      }
    }
  }

  lemma {:induction false} InsertNothing(text: string, n: nat)
    requires n <= |text| + 1
    ensures InsertBetween(text, "", n) == text
  {
    if n > 0 && text != "" {
      InsertNothing(text[1..], n - 1);
    }
  }

  /** The pieces around the first `k` leftmost non-overlapping occurrences; the empty string stands between any
      two characters and at both ends. */
  function PiecesAround(text: string, old_: string, k: nat): seq<string>
    requires k <= Occurrences(text, old_)
  {
    if old_ == "" then CutBetween(text, k) else SplitN(text, old_, k)
  }

  lemma {:induction false} ReplaceIsSwap(text: string, old_: string, new_: string, k: nat)
    requires k <= Occurrences(text, old_)
    ensures var pieces := PiecesAround(text, old_, k);
      |pieces| == k + 1 && Join(pieces, old_) == text && Join(pieces, new_) == ReplaceCount(text, old_, new_, k)
  {
    if old_ == "" {
      JoinCutBetween(text, k, "");
      JoinCutBetween(text, k, new_);
      InsertNothing(text, k);
    } else {
      ReplaceIsRejoin(text, old_, new_, k);
    }
  }

  /** A successful edit swaps exactly the first `k` leftmost non-overlapping occurrences: cutting the
      old text there and joining the pieces with the new string gives the new text. Without
      `replaceAll`, a lone replacement happens only when the occurrence is unique or the old string is empty; with
      it, all occurrences are swapped. */
  lemma {:induction false} EditSwapsFirstOccurrences(rejects: Lint, m: Mutation, text: string)
    requires m.Edit? && EditText(rejects, m, text).0.Some?
    ensures var (after, result) := EditText(rejects, m, text);
      && result.Replaced?
      && var k := if result.count < 0 then Occurrences(text, m.old_) else result.count;
         && k <= Occurrences(text, m.old_)
         && var pieces := PiecesAround(text, m.old_, k);
            && |pieces| == k + 1
            && Join(pieces, m.old_) == text
            && Join(pieces, m.new_) == after.value
            && (m.count == 1 ==> m.replaceAll || m.old_ == "" || Occurrences(text, m.old_) == 1)
            && (m.replaceAll ==> k == Occurrences(text, m.old_))
            && (m.replaceAll && m.old_ != "" ==> after.value == Join(Split(text, m.old_), m.new_))
  {
    var (after, result) := EditText(rejects, m, text);
    var k: nat := if result.count < 0 then Occurrences(text, m.old_) else result.count;
    ReplaceIsSwap(text, m.old_, m.new_, k);
    if m.replaceAll && m.old_ != "" {
      Text.ReplaceAll(text, m.old_, m.new_, k);
    }
  }
}
