/**
  The file-tool session: one object whose content cache, served line ranges and command history are
  shared by every tool, modelled for callers without a message history (`ctx` is absent).
*/
module FileSession {
  import opened Options
  import opened FullRead
  import opened FileOps

  /** A served or requested line range; no limit means to the end of the file. */
  datatype Range = Range(offset: int, limit: Option<int>)

  datatype Settings = Settings(maxChars: int, maxReads: Option<nat>, rejects: Lint)

  /** `disk` holds raw contents; everything else is the tools' own state. */
  datatype Session = Session(
    disk: map<string, string>,
    cache: map<string, string>,
    served: map<string, seq<Range>>,
    readCount: nat,
    history: seq<string>)

  /** How the operating system treats a write: done, refused before the file is opened, or failing
      after the file was truncated, which leaves `left` on disk. */
  datatype Fault = NoFault | OpenFails | Torn(left: string)

  datatype Op =
    | Read(path: string, offset: int, limit: Option<int>)
    | Mutate(m: Mutation, fault: Fault)
    | Run(command: string, reread: Option<(string, Range)>)

  datatype Reply =
    | CapReached
    | Missing
    | Refused(covering: Range)
    | Part(first: int, lines: seq<string>)
    | Full(view: View)
    | BeyondEnd(total: nat)
    | Mutated(result: Result)
    | Repeated
    | Executed

  predicate Covers(r: Range, offset: int, limit: Option<int>) {
    && offset >= r.offset
    && (r.limit.None? || (limit.Some? && offset + limit.value <= r.offset + r.limit.value))
  }

  /** Line `k` belongs to the range. */
  predicate InRange(r: Range, k: int) {
    r.offset <= k && (r.limit.None? || k < r.offset + r.limit.value)
  }

  function FirstCovering(records: seq<Range>, offset: int, limit: Option<int>): (hit: Option<Range>)
    ensures hit.Some? ==> hit.value in records && Covers(hit.value, offset, limit)
  {
    if records == [] then None
    else if Covers(records[0], offset, limit) then Some(records[0])
    else FirstCovering(records[1..], offset, limit)
  }

  function RecordsOf(s: Session, p: string): seq<Range> {
    if p in s.served then s.served[p] else []
  }

  function Newlines(text: string): nat {
    if text == "" then 0 else (if text[0] == '\n' then 1 else 0) + Newlines(text[1..])
  }

  /** A limited read that reaches past the counted lines is recorded as a read to the end, and as a
      full read when it starts at line 1. */
  function Upgrade(text: string, offset: int, limit: Option<int>): (Option<int>, bool) {
    var remaining := Newlines(text) - (offset - 1);
    if limit.Some? && limit.value > (if remaining < 0 then 0 else remaining) then (None, offset == 1)
    else (limit, offset == 1 && limit.None?)
  }

  /** `lines[start:start + limit]`, with Python's reading of a negative end. */
  function Slice(lines: seq<string>, start: nat, limit: Option<int>): seq<string>
    requires start <= |lines|
  {
    var end := if limit.None? then |lines| else start + limit.value;
    var stop := if end < 0 then |lines| + end else if end > |lines| then |lines| else end;
    if stop <= start then [] else lines[start..stop]
  }

  /** The text a tool works on: the cached copy, or a fresh read of the disk. */
  function CachedText(s: Session, p: string): string
    requires p in s.cache || p in s.disk
  {
    if p in s.cache then s.cache[p] else Decode(s.disk[p])
  }

  function Warm(s: Session, p: string): Session
    requires p in s.cache || p in s.disk
  {
    s.(cache := s.cache[p := CachedText(s, p)])
  }

  function Record(s: Session, p: string, r: Range): Session {
    s.(served := s.served[p := RecordsOf(s, p) + [r]])
  }

  function ReadSpec(cfg: Settings, s: Session, p: string, offset: int, limit: Option<int>): (Session, Reply) {
    if cfg.maxReads.Some? && s.readCount >= cfg.maxReads.value then (s, CapReached)
    else
      var counted := s.(readCount := s.readCount + 1);
      var first := if offset < 1 then 1 else offset;
      var hit := FirstCovering(RecordsOf(s, p), first, limit);
      if p !in s.disk then (counted, Missing)
      else if hit.Some? then (counted, Refused(hit.value))
      else Serve(cfg, Warm(counted, p), p, CachedText(s, p), first, limit)
  }

  function Serve(cfg: Settings, s: Session, p: string, text: string, first: int, limit: Option<int>): (Session, Reply)
    requires first >= 1
  {
    var (effective, full) := Upgrade(text, first, limit);
    var recorded := Record(s, p, Range(first, effective));
    if full then (recorded, Full(Bound(text, cfg.maxChars)))
    else
      var lines := SplitLines(text);
      if first > |lines| && first > 1 then (s, BeyondEnd(|lines|))
      else (recorded, Part(first, Slice(lines, first - 1, effective)))
  }

  function Store(s: Session, p: string, content: string, fault: Fault, ok: Result): (Session, Result) {
    match fault
    case OpenFails => (s, IoError)
    case Torn(left) => (s.(disk := s.disk[p := left]), IoError)
    case NoFault => (s.(disk := s.disk[p := content], cache := s.cache - {p}, served := s.served - {p}), ok)
  }

  function MutateFile(cfg: Settings, s: Session, m: Mutation, fault: Fault): (Session, Result) {
    var p := m.path;
    match m
    case Write(_, content) =>
      if cfg.rejects(p, content) then (s, SyntaxRejected)
      else Store(s, p, content, fault, Wrote(|content|))
    case Edit(_, _, _, _, _) =>
      if p !in s.cache && p !in s.disk then (s, IoError)
      else
        var (after, result) := EditText(cfg.rejects, m, CachedText(s, p));
        if after.None? then (Warm(s, p), result)
        else Store(Warm(s, p), p, after.value, fault, result)
    case Delete(_) =>
      if p !in s.disk || !fault.NoFault? then (s, IoError)
      else (s.(disk := s.disk - {p}, cache := s.cache - {p}, served := s.served - {p}), Deleted)
  }

  function RunSpec(s: Session, command: string, reread: Option<(string, Range)>): (Session, Reply) {
    var hit := if reread.None? then None
      else FirstCovering(RecordsOf(s, reread.value.0), reread.value.1.offset, reread.value.1.limit);
    if command in s.history then (s, Repeated)
    else if hit.Some? then (s, Refused(hit.value))
    else (s.(history := s.history + [command]), Executed)
  }

  function Step(cfg: Settings, s: Session, op: Op): (Session, Reply) {
    match op
    case Read(p, offset, limit) => ReadSpec(cfg, s, p, offset, limit)
    case Mutate(m, fault) => var (after, result) := MutateFile(cfg, s, m, fault); (after, Mutated(result))
    case Run(command, reread) => RunSpec(s, command, reread)
  }

  // ---- The object the tool closures share ----

  class FsToolState {
    const cfg: Settings
    var disk: map<string, string>
    var cache: map<string, string>
    var served: map<string, seq<Range>>
    var readCount: nat
    var history: seq<string>

    constructor (cfg: Settings, disk: map<string, string>, preSeeded: map<string, string>)
      ensures this.cfg == cfg && View() == Session(disk, preSeeded, map[], 0, [])
    {
      this.cfg := cfg;
      this.disk, this.cache := disk, preSeeded;
      served, readCount, history := map[], 0, [];
    }

    function View(): Session
      reads this
    {
      Session(disk, cache, served, readCount, history)
    }

    /** `_read_cached` on a file that is cached or on disk. */
    method ReadCached(p: string) returns (text: string)
      requires p in cache || p in disk
      modifies this`cache
      ensures text == CachedText(old(View()), p) && View() == Warm(old(View()), p)
    {
      if p in cache {
        text := cache[p];
        assert cache[p := text] == cache;
      } else {
        text := Decode(disk[p]);
        cache := cache[p := text];
      }
    }

    method FindCovering(records: seq<Range>, offset: int, limit: Option<int>) returns (hit: Option<Range>)
      ensures hit == FirstCovering(records, offset, limit)
    {
      for i := 0 to |records|
        invariant FirstCovering(records, offset, limit) == FirstCovering(records[i..], offset, limit)
      {
        if Covers(records[i], offset, limit) {
          return Some(records[i]);
        }
      }
      hit := None;
    }

    method ReadFile(p: string, offset: int, limit: Option<int>) returns (reply: Reply)
      modifies this
      ensures (View(), reply) == ReadSpec(cfg, old(View()), p, offset, limit)
    {
      if cfg.maxReads.Some? && readCount >= cfg.maxReads.value {
        return CapReached;
      }
      readCount := readCount + 1;
      if p !in disk {
        return Missing;
      }
      var first := if offset < 1 then 1 else offset;
      var records := if p in served then served[p] else [];
      var hit := FindCovering(records, first, limit);
      if hit.Some? {
        return Refused(hit.value);
      }
      var text := ReadCached(p);
      reply := ServeText(p, text, first, limit);
    }

    /** The rest of `read_file`, once the text is at hand. */
    method ServeText(p: string, text: string, first: int, limit: Option<int>) returns (reply: Reply)
      requires first >= 1
      modifies this`served
      ensures (View(), reply) == Serve(cfg, old(View()), p, text, first, limit)
    {
      var records := if p in served then served[p] else [];
      var (effective, full) := Upgrade(text, first, limit);
      if full {
        served := served[p := records + [Range(first, effective)]];
        var view := BoundFullRead(text, cfg.maxChars);
        return Full(view);
      }
      var lines := SplitLines(text);
      if first > |lines| && first > 1 {
        return BeyondEnd(|lines|);
      }
      served := served[p := records + [Range(first, effective)]];
      reply := Part(first, Slice(lines, first - 1, effective));
    }

    method WriteText(p: string, content: string, fault: Fault, ok: Result) returns (result: Result)
      modifies this
      ensures (View(), result) == Store(old(View()), p, content, fault, ok)
    {
      match fault {
        case OpenFails =>
          result := IoError;
        case Torn(left) =>
          disk := disk[p := left];
          result := IoError;
        case NoFault =>
          disk := disk[p := content];
          cache := cache - {p};
          served := served - {p};
          result := ok;
      }
    }

    method WriteFile(p: string, content: string, fault: Fault) returns (result: Result)
      modifies this
      ensures (View(), result) == MutateFile(cfg, old(View()), Write(p, content), fault)
    {
      if cfg.rejects(p, content) {
        return SyntaxRejected;
      }
      result := WriteText(p, content, fault, Wrote(|content|));
    }

    method EditFile(m: Mutation, fault: Fault) returns (result: Result)
      requires m.Edit?
      modifies this
      ensures (View(), result) == MutateFile(cfg, old(View()), m, fault)
    {
      var p := m.path;
      if p !in cache && p !in disk {
        return IoError;
      }
      var content := ReadCached(p);
      var occurrences := Occurrences(content, m.old_);
      var count := m.count;
      if m.replaceAll && occurrences > 0 {
        count := occurrences;
      }
      if occurrences == 0 {
        return NotFound;
      }
      if count == 1 && occurrences > 1 && m.old_ != "" {
        return Ambiguous(occurrences);
      }
      if occurrences < count {
        return TooFew(occurrences, count);
      }
      var newContent := ReplaceCount(content, m.old_, m.new_, count);
      if cfg.rejects(p, newContent) {
        return SyntaxRejected;
      }
      result := WriteText(p, newContent, fault, Replaced(count));
    }

    method DeleteFile(p: string, fault: Fault) returns (result: Result)
      modifies this
      ensures (View(), result) == MutateFile(cfg, old(View()), Delete(p), fault)
    {
      if p !in disk || !fault.NoFault? {
        return IoError;
      }
      disk := disk - {p};
      cache := cache - {p};
      served := served - {p};
      result := Deleted;
    }

    method RunCommand(command: string, reread: Option<(string, Range)>) returns (reply: Reply)
      modifies this`history
      ensures (View(), reply) == RunSpec(old(View()), command, reread)
    {
      if command in history {
        return Repeated;
      }
      if reread.Some? {
        var (p, range) := reread.value;
        var hit := FindCovering(if p in served then served[p] else [], range.offset, range.limit);
        if hit.Some? {
          return Refused(hit.value);
        }
      }
      history := history + [command];
      reply := Executed;
    }
  }

  // ---- Whole runs ----

  datatype Event = Event(op: Op, reply: Reply)

  function RunAll(cfg: Settings, s: Session, ops: seq<Op>): (Session, seq<Event>) {
    if ops == [] then (s, [])
    else
      var (before, trace) := RunAll(cfg, s, ops[..|ops| - 1]);
      var op := ops[|ops| - 1];
      var (after, reply) := Step(cfg, before, op);
      (after, trace + [Event(op, reply)])
  }

  /** Every cached entry is what reading the disk now would give. */
  ghost predicate Coherent(s: Session) {
    forall p :: p in s.cache ==> p in s.disk && s.cache[p] == Decode(s.disk[p])
  }

  predicate IsTorn(op: Op) { op.Mutate? && op.fault.Torn? }

  /** The event replaced or removed the file at `p`. */
  predicate Changes(e: Event, p: string) {
    e.op.Mutate? && e.op.m.path == p && e.reply.Mutated? && e.reply.result.Succeeded()
  }

  /** The reply hands over `line` as line `k`. */
  predicate Gives(reply: Reply, k: int, line: string) {
    match reply
    case Part(first, lines) => first <= k < first + |lines| && lines[k - first] == line
    case Full(Verbatim(text)) => var lines := SplitLines(text); 1 <= k <= |lines| && lines[k - 1] == line
    case Full(Elided(head, tail, total, _, _)) =>
      || (1 <= k <= |head| && head[k - 1] == line)
      || (total - |tail| < k <= total && tail[k - 1 - (total - |tail|)] == line)
    case _ => false
  }

  /** The event gave its caller `line` as line `k` of the file at `p`. */
  predicate Shows(e: Event, p: string, k: int, line: string) {
    e.op.Read? && e.op.path == p && Gives(e.reply, k, line)
  }

  ghost predicate Untouched(trace: seq<Event>, i: nat, p: string) {
    forall j :: i < j < |trace| ==> !Changes(trace[j], p)
  }

  /** Some read of the run gave `line` as line `k` of `p`, and nothing changed the file since. */
  ghost predicate WasShown(trace: seq<Event>, p: string, k: int, line: string) {
    exists i: nat :: i < |trace| && Shows(trace[i], p, k, line) && Untouched(trace, i, p)
  }

  lemma {:induction false} StillShown(trace: seq<Event>, e: Event, p: string, k: int, line: string)
    requires WasShown(trace, p, k, line) && !Changes(e, p)
    ensures WasShown(trace + [e], p, k, line)
  {
    var i: nat :| i < |trace| && Shows(trace[i], p, k, line) && Untouched(trace, i, p);
    var longer := trace + [e];
    assert longer[i] == trace[i];
    assert Untouched(longer, i, p) by {
      forall j | i < j < |longer|
        ensures !Changes(longer[j], p)
      {
        if j < |trace| {
          assert longer[j] == trace[j];
        }
      }
    }
  }

  lemma {:induction false} JustShown(trace: seq<Event>, e: Event, p: string, k: int, line: string)
    requires Shows(e, p, k, line)
    ensures WasShown(trace + [e], p, k, line)
  {
    var longer := trace + [e];
    assert longer[|trace|] == e;
    assert Untouched(longer, |trace|, p);
  }

  /** Each existing line of the record was shown, or an over-long full read left it out. */
  ghost predicate Accounted(cfg: Settings, trace: seq<Event>, p: string, text: string, r: Range) {
    var lines := SplitLines(text);
    forall k :: 1 <= k <= |lines| && InRange(r, k) ==>
      || WasShown(trace, p, k, lines[k - 1])
      || (r == Range(1, None) && OmittedLine(text, cfg.maxChars, k))
  }

  ghost predicate AllAccounted(cfg: Settings, s: Session, trace: seq<Event>) {
    && s.served.Keys <= s.disk.Keys
    && forall p, r :: p in s.served && r in s.served[p] ==> Accounted(cfg, trace, p, Decode(s.disk[p]), r)
  }

  /** A slice holds every line of its range. */
  lemma {:induction false} SliceHolds(lines: seq<string>, first: int, limit: Option<int>, k: int)
    requires 1 <= first <= |lines| + 1 && 1 <= k <= |lines| && InRange(Range(first, limit), k)
    ensures var part := Slice(lines, first - 1, limit);
      first <= k < first + |part| && part[k - first] == lines[k - 1]
  {
  }

  lemma {:induction false} ElidedGives(view: View, lines: seq<string>, k: int)
    requires FullRead.Shows(view, lines) && 1 <= k <= |lines|
    ensures Gives(Full(view), k, lines[k - 1]) || LeavesOut(view, k)
  {
  }

  lemma {:induction false} FullGives(text: string, maxChars: int, k: int)
    requires 1 <= k <= |SplitLines(text)|
    ensures Gives(Full(Bound(text, maxChars)), k, SplitLines(text)[k - 1]) || OmittedLine(text, maxChars, k)
  {
    if Bound(text, maxChars).Elided? {
      ElidedParts(text, maxChars);
      ElidedGives(Bound(text, maxChars), SplitLines(text), k);
    }
  }

  /** A read that records a range shows every line of it, unless the full read was cut. */
  lemma {:induction false} ServeGives(cfg: Settings, s: Session, p: string, text: string, first: int,
                                      limit: Option<int>, k: int)
    requires first >= 1 && Serve(cfg, s, p, text, first, limit).0 != s
    requires 1 <= k <= |SplitLines(text)| && InRange(Range(first, Upgrade(text, first, limit).0), k)
    ensures var r := Range(first, Upgrade(text, first, limit).0);
      || Gives(Serve(cfg, s, p, text, first, limit).1, k, SplitLines(text)[k - 1])
      || (r == Range(1, None) && OmittedLine(text, cfg.maxChars, k))
  {
    var (effective, full) := Upgrade(text, first, limit);
    if full {
      FullGives(text, cfg.maxChars, k);
    } else {
      SliceHolds(SplitLines(text), first, effective, k);
    }
  }

  lemma {:induction false} AccountedGrows(cfg: Settings, trace: seq<Event>, e: Event, p: string, text: string, r: Range)
    requires Accounted(cfg, trace, p, text, r) && !Changes(e, p)
    ensures Accounted(cfg, trace + [e], p, text, r)
  {
    var lines := SplitLines(text);
    forall k | 1 <= k <= |lines| && InRange(r, k) && WasShown(trace, p, k, lines[k - 1])
      ensures WasShown(trace + [e], p, k, lines[k - 1])
    {
      StillShown(trace, e, p, k, lines[k - 1]);
    }
  }

  lemma {:induction false} ServeChanges(cfg: Settings, s: Session, p: string, text: string, first: int,
                                        limit: Option<int>)
    requires first >= 1
    ensures var after := Serve(cfg, s, p, text, first, limit).0;
      after == s || after == Record(s, p, Range(first, Upgrade(text, first, limit).0))
  {
  }

  /** The range a serving read records is accounted for by that very read. */
  lemma {:induction false} ServeAccounts(cfg: Settings, s: Session, trace: seq<Event>, p: string, op: Op,
                                         text: string, first: int, limit: Option<int>)
    requires op.Read? && op.path == p && first >= 1 && Serve(cfg, s, p, text, first, limit).0 != s
    ensures Accounted(cfg, trace + [Event(op, Serve(cfg, s, p, text, first, limit).1)], p, text,
                      Range(first, Upgrade(text, first, limit).0))
  {
    var e := Event(op, Serve(cfg, s, p, text, first, limit).1);
    var r := Range(first, Upgrade(text, first, limit).0);
    var lines := SplitLines(text);
    forall k | 1 <= k <= |lines| && InRange(r, k)
      ensures WasShown(trace + [e], p, k, lines[k - 1]) || (r == Range(1, None) && OmittedLine(text, cfg.maxChars, k))
    {
      ServeGives(cfg, s, p, text, first, limit, k);
      if Gives(e.reply, k, lines[k - 1]) {
        JustShown(trace, e, p, k, lines[k - 1]);
      }
    }
  }

  /** Events that change no file keep what is accounted for. */
  lemma {:induction false} AllAccountedGrows(cfg: Settings, s: Session, trace: seq<Event>, e: Event)
    requires AllAccounted(cfg, s, trace)
    requires forall p :: p in s.served ==> !Changes(e, p)
    ensures AllAccounted(cfg, s, trace + [e])
  {
    forall p, r | p in s.served && r in s.served[p]
      ensures Accounted(cfg, trace + [e], p, Decode(s.disk[p]), r)
    {
      AccountedGrows(cfg, trace, e, p, Decode(s.disk[p]), r);
    }
  }

  lemma {:induction false} WarmStaysCoherent(s: Session, p: string)
    requires Coherent(s) && p in s.disk
    ensures CachedText(s, p) == Decode(s.disk[p])
    ensures Coherent(Warm(s, p)) && Warm(s, p).disk == s.disk && Warm(s, p).served == s.served
  {
  }

  /** A read that records anything is a serving read of the current disk text. */
  lemma {:induction false} ReadServes(cfg: Settings, s: Session, p: string, offset: int, limit: Option<int>)
    requires Coherent(s)
    ensures var (after, reply) := ReadSpec(cfg, s, p, offset, limit);
      var first := if offset < 1 then 1 else offset;
      && Coherent(after) && after.disk == s.disk
      && (after.served != s.served ==>
            && p in s.disk
            && var warm := Warm(s.(readCount := s.readCount + 1), p);
               var text := Decode(s.disk[p]);
               && (after, reply) == Serve(cfg, warm, p, text, first, limit)
               && after == Record(warm, p, Range(first, Upgrade(text, first, limit).0)))
  {
    var capped := cfg.maxReads.Some? && s.readCount >= cfg.maxReads.value;
    if !capped && p in s.disk {
      var first := if offset < 1 then 1 else offset;
      WarmStaysCoherent(s.(readCount := s.readCount + 1), p);
      ServeChanges(cfg, Warm(s.(readCount := s.readCount + 1), p), p, Decode(s.disk[p]), first, limit);
    }
  }

  /** A read keeps the books. */
  lemma {:induction false} ReadKeeps(cfg: Settings, s: Session, trace: seq<Event>, p: string, offset: int,
                                     limit: Option<int>)
    requires Coherent(s) && AllAccounted(cfg, s, trace)
    ensures var (after, reply) := ReadSpec(cfg, s, p, offset, limit);
      Coherent(after) && AllAccounted(cfg, after, trace + [Event(Read(p, offset, limit), reply)])
  {
    var (after, reply) := ReadSpec(cfg, s, p, offset, limit);
    var op := Read(p, offset, limit);
    var e := Event(op, reply);
    AllAccountedGrows(cfg, s, trace, e);
    ReadServes(cfg, s, p, offset, limit);
    if after.served != s.served {
      var first := if offset < 1 then 1 else offset;
      var text := Decode(s.disk[p]);
      var r := Range(first, Upgrade(text, first, limit).0);
      ServeAccounts(cfg, Warm(s.(readCount := s.readCount + 1), p), trace, p, op, text, first, limit);
      assert after.served == s.served[p := RecordsOf(s, p) + [r]];
      assert Accounted(cfg, trace + [e], p, text, r);
      forall q, x | q in after.served && x in after.served[q]
        ensures Accounted(cfg, trace + [e], q, Decode(after.disk[q]), x)
      {
        if q != p || x in RecordsOf(s, p) {
          assert x in s.served[q];
        }
      }
    }
  }

  /** A mutation leaves other files alone, and what stays recorded stands for an unchanged file. */
  lemma {:induction false} MutateTouches(cfg: Settings, s: Session, m: Mutation, fault: Fault)
    requires Coherent(s) && s.served.Keys <= s.disk.Keys && !fault.Torn?
    ensures var (after, result) := MutateFile(cfg, s, m, fault);
      var e := Event(Mutate(m, fault), Mutated(result));
      && Coherent(after)
      && (forall q :: q in after.served ==>
            && q in s.served && after.served[q] == s.served[q]
            && q in after.disk && after.disk[q] == s.disk[q] && !Changes(e, q))
  {
  }

  lemma {:induction false} MutateKeeps(cfg: Settings, s: Session, trace: seq<Event>, m: Mutation, fault: Fault)
    requires Coherent(s) && AllAccounted(cfg, s, trace) && !fault.Torn?
    ensures var (after, result) := MutateFile(cfg, s, m, fault);
      Coherent(after) && AllAccounted(cfg, after, trace + [Event(Mutate(m, fault), Mutated(result))])
  {
    var (after, result) := MutateFile(cfg, s, m, fault);
    var e := Event(Mutate(m, fault), Mutated(result));
    MutateTouches(cfg, s, m, fault);
    forall q, r | q in after.served && r in after.served[q]
      ensures q in after.disk && Accounted(cfg, trace + [e], q, Decode(after.disk[q]), r)
    {
      assert r in s.served[q] && after.disk[q] == s.disk[q];
      AccountedGrows(cfg, trace, e, q, Decode(s.disk[q]), r);
    }
  }

  lemma {:induction false} StepKeeps(cfg: Settings, s: Session, trace: seq<Event>, op: Op)
    requires Coherent(s) && AllAccounted(cfg, s, trace) && !IsTorn(op)
    ensures var (after, reply) := Step(cfg, s, op);
      Coherent(after) && AllAccounted(cfg, after, trace + [Event(op, reply)])
  {
    match op
    case Read(p, offset, limit) => ReadKeeps(cfg, s, trace, p, offset, limit);
    case Mutate(m, fault) => MutateKeeps(cfg, s, trace, m, fault);
    case Run(command, reread) =>
      AllAccountedGrows(cfg, s, trace, Event(op, Step(cfg, s, op).1));
  }

  /** Over every run without torn writes the cache agrees with the disk and every served range is
      accounted for. */
  lemma {:induction false} RunKeeps(cfg: Settings, s: Session, ops: seq<Op>)
    requires Coherent(s) && s.served == map[]
    requires forall i :: 0 <= i < |ops| ==> !IsTorn(ops[i])
    ensures var (after, trace) := RunAll(cfg, s, ops);
      Coherent(after) && AllAccounted(cfg, after, trace)
  {
    if ops != [] {
      var prefix := ops[..|ops| - 1];
      RunKeeps(cfg, s, prefix);
      var (before, trace) := RunAll(cfg, s, prefix);
      StepKeeps(cfg, before, trace, ops[|ops| - 1]);
    }
  }

  /** The lines a request asks for, by file: a read starts at line 1 at the earliest. */
  function Request(op: Op): Option<(string, Range)> {
    match op
    case Read(p, offset, limit) => Some((p, Range(if offset < 1 then 1 else offset, limit)))
    case Run(_, reread) => reread
    case Mutate(_, _) => None
  }

  /** Every refusal of a read, or of a command that re-reads a file, is sound: each existing line it
      asks for was shown by an earlier read of the file as it still is, unless the refusal names a read of
      the whole file and that read left the line out of its view. */
  lemma {:induction false} RefusalsAreSound(cfg: Settings, s: Session, ops: seq<Op>, op: Op)
    requires Coherent(s) && s.served == map[]
    requires forall i :: 0 <= i < |ops| ==> !IsTorn(ops[i])
    requires Step(cfg, RunAll(cfg, s, ops).0, op).1.Refused?
    ensures var (now, trace) := RunAll(cfg, s, ops);
      var hit := Step(cfg, now, op).1.covering;
      && Request(op).Some?
      && var (p, range) := Request(op).value;
         && p in now.disk
         && var text := Decode(now.disk[p]);
            var lines := SplitLines(text);
            forall k :: 1 <= k <= |lines| && InRange(range, k) ==>
              || WasShown(trace, p, k, lines[k - 1])
              || (hit == Range(1, None) && OmittedLine(text, cfg.maxChars, k))
  {
    RunKeeps(cfg, s, ops);
    var (now, trace) := RunAll(cfg, s, ops);
    var (p, range) := Request(op).value;
    var hit := FirstCovering(RecordsOf(now, p), range.offset, range.limit);
    assert hit.Some? && hit.value in now.served[p];
    var text := Decode(now.disk[p]);
    var lines := SplitLines(text);
    assert Accounted(cfg, trace, p, text, hit.value);
    forall k | 1 <= k <= |lines| && InRange(range, k)
      ensures || WasShown(trace, p, k, lines[k - 1])
              || (hit.value == Range(1, None) && OmittedLine(text, cfg.maxChars, k))
    {
      assert InRange(hit.value, k);
    }
  }

  /** The session with nothing cached. */
  function Cold(s: Session): Session { s.(cache := map[]) }

  /** Serving a text does not look at the cache. */
  lemma {:induction false} ServeIgnoresCache(cfg: Settings, s: Session, t: Session, p: string, text: string, first: int,
                                             limit: Option<int>)
    requires first >= 1 && Cold(s) == Cold(t)
    ensures Serve(cfg, s, p, text, first, limit).1 == Serve(cfg, t, p, text, first, limit).1
    ensures Cold(Serve(cfg, s, p, text, first, limit).0) == Cold(Serve(cfg, t, p, text, first, limit).0)
  {
  }

  /** A cached read is a disk read: on a coherent session, what a read returns does not depend on the cache. */
  lemma {:induction false} CachedReadIsDiskRead(cfg: Settings, s: Session, p: string, offset: int, limit: Option<int>)
    requires Coherent(s)
    ensures ReadSpec(cfg, s, p, offset, limit).1 == ReadSpec(cfg, Cold(s), p, offset, limit).1
    ensures Cold(ReadSpec(cfg, s, p, offset, limit).0) == Cold(ReadSpec(cfg, Cold(s), p, offset, limit).0)
  {
    if p in s.disk {
      assert CachedText(s, p) == CachedText(Cold(s), p);
      var counted := s.(readCount := s.readCount + 1);
      ServeIgnoresCache(cfg, Warm(counted, p), Warm(Cold(counted), p), p, CachedText(s, p),
                        if offset < 1 then 1 else offset, limit);
    }
  }

  lemma {:induction false} MutationIgnoresCache(cfg: Settings, s: Session, m: Mutation, fault: Fault)
    requires Coherent(s) && !fault.Torn?
    ensures MutateFile(cfg, s, m, fault).1 == MutateFile(cfg, Cold(s), m, fault).1
    ensures Cold(MutateFile(cfg, s, m, fault).0) == Cold(MutateFile(cfg, Cold(s), m, fault).0)
  {
    if m.path in s.disk {
      assert CachedText(s, m.path) == CachedText(Cold(s), m.path);
    }
  }

  /** The tools without their cache: whatever a call keeps is dropped before the next one. */
  function RunCold(cfg: Settings, s: Session, ops: seq<Op>): (Session, seq<Event>) {
    if ops == [] then (Cold(s), [])
    else
      var (before, trace) := RunCold(cfg, s, ops[..|ops| - 1]);
      var op := ops[|ops| - 1];
      var (after, reply) := Step(cfg, before, op);
      (Cold(after), trace + [Event(op, reply)])
  }

  /** Every reply of a run without torn writes, of reads and mutations alike, is the one the tools give
      without a cache, and disk, records and history are left the same. */
  lemma {:induction false} CacheIsInvisible(cfg: Settings, s: Session, ops: seq<Op>)
    requires Coherent(s) && s.served == map[]
    requires forall i :: 0 <= i < |ops| ==> !IsTorn(ops[i])
    ensures RunCold(cfg, s, ops) == (Cold(RunAll(cfg, s, ops).0), RunAll(cfg, s, ops).1)
  {
    if ops != [] {
      var n := |ops| - 1;
      CacheIsInvisible(cfg, s, ops[..n]);
      RunKeeps(cfg, s, ops[..n]);
      StepIgnoresCache(cfg, RunAll(cfg, s, ops[..n]).0, ops[n]);
    }
  }

  lemma {:induction false} StepIgnoresCache(cfg: Settings, s: Session, op: Op)
    requires Coherent(s) && !IsTorn(op)
    ensures Step(cfg, s, op).1 == Step(cfg, Cold(s), op).1
    ensures Cold(Step(cfg, s, op).0) == Cold(Step(cfg, Cold(s), op).0)
  {
    match op
    case Read(p, offset, limit) => CachedReadIsDiskRead(cfg, s, p, offset, limit);
    case Mutate(m, fault) => MutationIgnoresCache(cfg, s, m, fault);
    case Run(command, reread) =>
  }

  /** A coherent session mutates files exactly as a plain disk without a cache does. When the file cannot be opened
      for writing, the disk stays as it is, and a call that would have succeeded reports an error. */
  lemma {:induction false} MutationRefinesDisk(cfg: Settings, s: Session, m: Mutation)
    requires Coherent(s)
    ensures var (after, result) := MutateFile(cfg, s, m, NoFault);
      var (file, plain) := Apply(cfg.rejects, m, Lookup(s.disk, m.path));
      && result == plain
      && after.disk == FileOps.Put(s.disk, m.path, file)
    ensures var (after, result) := MutateFile(cfg, s, m, OpenFails);
      var plain := Apply(cfg.rejects, m, Lookup(s.disk, m.path)).1;
      && result == (if plain.Succeeded() then IoError else plain)
      && after.disk == s.disk
  {
    var p := m.path;
    if m.Edit? && p in s.disk {
      assert CachedText(s, p) == Decode(s.disk[p]);
    }
    if p in s.disk {
      assert s.disk[p := s.disk[p]] == s.disk;
    } else {
      assert s.disk - {p} == s.disk;
    }
  }

  /** A write that fails after truncating the file keeps the cache right exactly when nothing was
      cached for the path or the cached text happens to be what is left. */
  lemma {:induction false} TornWriteBreaksCache(cfg: Settings, s: Session, p: string, content: string, left: string)
    requires Coherent(s) && !cfg.rejects(p, content)
    ensures Coherent(MutateFile(cfg, s, Write(p, content), Torn(left)).0)
       <==> (p !in s.cache || s.cache[p] == Decode(left))
  {
    var after := MutateFile(cfg, s, Write(p, content), Torn(left)).0;
    assert after.disk == s.disk[p := left] && after.cache == s.cache;
    if p !in s.cache || s.cache[p] == Decode(left) {
      forall q | q in after.cache
        ensures q in after.disk && after.cache[q] == Decode(after.disk[q])
      {
      }
    }
  }

  /** An edit has always read the file into the cache before it writes: one that fails after truncating the file
      keeps the cache right exactly when what is left reads as the old text. */
  lemma {:induction false} TornEditBreaksCache(cfg: Settings, s: Session, m: Mutation, left: string)
    requires Coherent(s) && m.Edit? && m.path in s.disk
    requires EditText(cfg.rejects, m, Decode(s.disk[m.path])).0.Some?
    ensures Coherent(MutateFile(cfg, s, m, Torn(left)).0) <==> Decode(s.disk[m.path]) == Decode(left)
  {
    var p := m.path;
    var after := MutateFile(cfg, s, m, Torn(left)).0;
    WarmStaysCoherent(s, p);
    assert after.disk == s.disk[p := left] && after.cache == s.cache[p := Decode(s.disk[p])];
    if Decode(s.disk[p]) == Decode(left) {
      forall q | q in after.cache
        ensures q in after.disk && after.cache[q] == Decode(after.disk[q])
      {
        assert q != p ==> q in s.cache;
      }
    }
  }

  lemma {:induction false} OmittedIsNotGiven(text: string, maxChars: int, k: int, line: string)
    requires 1 <= k <= |SplitLines(text)| && OmittedLine(text, maxChars, k)
    ensures !Gives(Full(Bound(text, maxChars)), k, line)
  {
    ElidedParts(text, maxChars);
  }

  /** A full read of an unread file is recorded as a read of the whole file. */
  lemma {:induction false} FullReadRecords(cfg: Settings, s: Session, p: string)
    requires Coherent(s) && p in s.disk && RecordsOf(s, p) == [] && cfg.maxReads.None?
    ensures var (after, reply) := ReadSpec(cfg, s, p, 1, None);
      && reply == Full(Bound(Decode(s.disk[p]), cfg.maxChars))
      && p in after.disk && RecordsOf(after, p) == [Range(1, None)]
  {
    assert CachedText(s, p) == Decode(s.disk[p]);
  }

  lemma {:induction false} WholeFileRefuses(cfg: Settings, s: Session, p: string, k: int)
    requires p in s.disk && RecordsOf(s, p) == [Range(1, None)] && cfg.maxReads.None? && k >= 1
    ensures ReadSpec(cfg, s, p, k, Some(1)).1 == Refused(Range(1, None))
  {
    assert FirstCovering(RecordsOf(s, p), k, Some(1)) == Some(Range(1, None));
  }

  /** The line is handed over exactly when the cut does not leave it out. */
  lemma {:induction false} GivenExactly(text: string, maxChars: int, k: int)
    requires 1 <= k <= |SplitLines(text)|
    ensures Gives(Full(Bound(text, maxChars)), k, SplitLines(text)[k - 1]) <==> !OmittedLine(text, maxChars, k)
  {
    if OmittedLine(text, maxChars, k) {
      OmittedIsNotGiven(text, maxChars, k, SplitLines(text)[k - 1]);
    } else {
      FullGives(text, maxChars, k);
    }
  }

  /** The view hands over every line of the text. */
  ghost predicate GivesAll(view: View, text: string) {
    forall k :: 1 <= k <= |SplitLines(text)| ==> GivesLine(view, SplitLines(text), k)
  }

  predicate GivesLine(view: View, lines: seq<string>, k: int)
    requires 1 <= k <= |lines|
  {
    Gives(Full(view), k, lines[k - 1])
  }

  lemma {:induction false} AllGivenExactly(text: string, maxChars: int)
    ensures GivesAll(Bound(text, maxChars), text) <==> NothingCut(text, maxChars)
  {
    forall k | 1 <= k <= |SplitLines(text)|
      ensures GivesLine(Bound(text, maxChars), SplitLines(text), k) <==> !OmittedLine(text, maxChars, k)
    {
      GivenExactly(text, maxChars, k);
    }
    NothingOmittedExactly(text, maxChars);
  }

  /** After a full read of an unread file, a request for any one line is refused, as already read. The lines
      refused are lines handed over, for every line of the file, exactly when the text is within the cap, has
      at most two lines, or has all lines but one within the budget of its head or of its tail. */
  lemma {:induction false} FullReadRefusalExactly(cfg: Settings, s: Session, p: string)
    requires Coherent(s) && p in s.disk && RecordsOf(s, p) == [] && cfg.maxReads.None?
    ensures var text := Decode(s.disk[p]);
      var (after, reply) := ReadSpec(cfg, s, p, 1, None);
      && (forall k :: k >= 1 ==> ReadSpec(cfg, after, p, k, Some(1)).1 == Refused(Range(1, None)))
      && reply.Full?
      && (GivesAll(reply.view, text) <==> NothingCut(text, cfg.maxChars))
  {
    var text := Decode(s.disk[p]);
    var after := ReadSpec(cfg, s, p, 1, None).0;
    FullReadRecords(cfg, s, p);
    forall k | k >= 1
      ensures ReadSpec(cfg, after, p, k, Some(1)).1 == Refused(Range(1, None))
    {
      WholeFileRefuses(cfg, after, p, k);
    }
    AllGivenExactly(text, cfg.maxChars);
  }
}
