/**
  The mutating file tools run concurrently: every call is a thread that takes one small step at a
  time, in any interleaving, over the shared disk, content cache and per-path lock table.
*/
module FileConcurrency {
  import opened Options
  import opened FileOps

  /** Where a call stands. `Opened` is the moment the file is truncated and not yet filled. */
  datatype PC =
    | Idle
    | HaveLock
    | Inside
    | Missed
    | Fetched(text: string)
    | Loaded(text: string)
    | Opened(content: string, ok: Result)
    | Written(ok: Result)
    | Leaving(result: Result)
    | Done(result: Result)

  /** `lock` is the lock object the call got; `entry` records the file as it was on acquiring it. */
  datatype Thread = Thread(op: Mutation, pc: PC, lock: nat, entry: Option<string>)

  /** `locks` is the lock table, `held` maps a locked lock to its owner, and `order` lists the calls in
      the order they acquired their locks. */
  datatype System = System(
    disk: map<string, string>,
    cache: map<string, string>,
    locks: map<string, nat>,
    nextLock: nat,
    held: map<nat, nat>,
    threads: seq<Thread>,
    order: seq<nat>)

  predicate Critical(pc: PC) { !pc.Idle? && !pc.HaveLock? && !pc.Done? }

  /** A write whose content fails the syntax check returns before it asks for a lock. */
  predicate Prechecked(rejects: Lint, op: Mutation) { op.Write? && rejects(op.path, op.content) }

  /** One step under the lock, before leaving: the next program point, and the disk and cache after. */
  function Move(rejects: Lint, op: Mutation, pc: PC, disk: map<string, string>, cache: map<string, string>)
    : (PC, map<string, string>, map<string, string>)
  {
    var p := op.path;
    match pc
    case Inside =>
      (match op
       case Write(_, content) => (Opened(content, Wrote(|content|)), disk[p := ""], cache)
       case Edit(_, _, _, _, _) => (if p in cache then Loaded(cache[p]) else Missed, disk, cache)
       case Delete(_) => if p in disk then (Written(Deleted), disk - {p}, cache) else (Leaving(IoError), disk, cache))
    case Missed => (if p in disk then Fetched(Decode(disk[p])) else Leaving(IoError), disk, cache)
    case Fetched(text) => (Loaded(text), disk, cache[p := text])
    case Loaded(text) =>
      if !op.Edit? then (pc, disk, cache)
      else
        var (after, result) := EditText(rejects, op, text);
        if after.None? then (Leaving(result), disk, cache)
        else (Opened(after.value, result), disk[p := ""], cache)
    case Opened(content, ok) => (Written(ok), disk[p := content], cache)
    case Written(ok) => (Leaving(ok), disk, cache - {p})
    case _ => (pc, disk, cache)
  }

  /** One step of call `t`; a call that waits for a lock, or has returned, stays put. */
  function Step(rejects: Lint, s: System, t: nat): System {
    if t >= |s.threads| then s
    else
      var th := s.threads[t];
      match th.pc
      case Idle =>
        if Prechecked(rejects, th.op) then At(s, t, Done(SyntaxRejected)) else FetchLock(s, t)
      case HaveLock => if th.lock in s.held then s else Acquire(s, t)
      case Leaving(result) => At(s, t, Done(result)).(held := s.held - {th.lock})
      case Done(_) => s
      case _ => Advance(rejects, s, t)
  }

  function At(s: System, t: nat, pc: PC): System
    requires t < |s.threads|
  {
    s.(threads := s.threads[t := s.threads[t].(pc := pc)])
  }

  function Advance(rejects: Lint, s: System, t: nat): System
    requires t < |s.threads|
  {
    var (pc, disk, cache) := Move(rejects, s.threads[t].op, s.threads[t].pc, s.disk, s.cache);
    At(s, t, pc).(disk := disk, cache := cache)
  }

  /** `_lock_for`: the guard makes looking up and inserting the lock one step. */
  function FetchLock(s: System, t: nat): System
    requires t < |s.threads|
  {
    var th := s.threads[t];
    var p := th.op.path;
    if p in s.locks then
      s.(threads := s.threads[t := th.(pc := HaveLock, lock := s.locks[p])])
    else
      s.(threads := s.threads[t := th.(pc := HaveLock, lock := s.nextLock)],
         locks := s.locks[p := s.nextLock],
         nextLock := s.nextLock + 1)
  }

  function Acquire(s: System, t: nat): System
    requires t < |s.threads|
  {
    var th := s.threads[t];
    s.(threads := s.threads[t := th.(pc := Inside, entry := Lookup(s.disk, th.op.path))],
       held := s.held[th.lock := t],
       order := s.order + [t])
  }

  /** The state after a schedule: the calls named in it step in that order. */
  function Run(rejects: Lint, s: System, schedule: seq<nat>): System {
    if schedule == [] then s
    else Step(rejects, Run(rejects, s, schedule[..|schedule| - 1]), schedule[|schedule| - 1])
  }

  function Start(ops: seq<Mutation>, disk: map<string, string>, cache: map<string, string>): System {
    System(disk, cache, map[], 0, map[], seq(|ops|, i requires 0 <= i < |ops| => Thread(ops[i], Idle, 0, None)), [])
  }

  /** The calls run one at a time on a plain disk, in the given order, with their results. */
  function Serial(rejects: Lint, disk: map<string, string>, ops: seq<Mutation>,
                  order: seq<nat>): (r: (map<string, string>, seq<Result>))
    requires forall i :: 0 <= i < |order| ==> order[i] < |ops|
    ensures |r.1| == |order|
  {
    if order == [] then (disk, [])
    else
      var (before, results) := Serial(rejects, disk, ops, order[..|order| - 1]);
      var op := ops[order[|order| - 1]];
      var (file, result) := Apply(rejects, op, Lookup(before, op.path));
      (Put(before, op.path, file), results + [result])
  }

  // ---- Invariants ----

  /** Lock objects are one per path. */
  ghost predicate TableOk(locks: map<string, nat>, nextLock: nat) {
    && (forall p :: p in locks ==> locks[p] < nextLock)
    && (forall p, q :: p in locks && q in locks && p != q ==> locks[p] != locks[q])
  }

  predicate HoldsItsLock(s: System, i: nat)
    requires i < |s.threads|
  {
    var th := s.threads[i];
    && (th.pc.HaveLock? || Critical(th.pc) ==> th.op.path in s.locks && th.lock == s.locks[th.op.path])
    && (Critical(th.pc) ==> th.lock in s.held && s.held[th.lock] == i)
  }

  /** A lock is held exactly by the call inside. */
  ghost predicate LocksOk(s: System) {
    && TableOk(s.locks, s.nextLock)
    && (forall i: nat :: i < |s.threads| ==> HoldsItsLock(s, i))
    && (forall l :: l in s.held ==>
          s.held[l] < |s.threads| && Critical(s.threads[s.held[l]].pc) && s.threads[s.held[l]].lock == l)
  }

  /** The call has got its lock. */
  predicate Counted(rejects: Lint, th: Thread) {
    Critical(th.pc) || (th.pc.Done? && !Prechecked(rejects, th.op))
  }

  ghost predicate OrderOk(rejects: Lint, s: System) {
    && (forall i :: 0 <= i < |s.order| ==> s.order[i] < |s.threads|)
    && (forall i, j :: 0 <= i < j < |s.order| ==> s.order[i] != s.order[j])
    && (forall i: nat :: i < |s.threads| ==>
          (i in s.order <==> Counted(rejects, s.threads[i])))
  }

  predicate Agrees(disk: map<string, string>, cache: map<string, string>, p: string) {
    p in cache ==> p in disk && cache[p] == Decode(disk[p])
  }

  /** What holds at each program point of a call that found the file as `entry`. */
  predicate PointOk(rejects: Lint, op: Mutation, pc: PC, entry: Option<string>, disk: map<string, string>,
                    cache: map<string, string>) {
    var p := op.path;
    var now := Lookup(disk, p);
    var (file, result) := Apply(rejects, op, entry);
    && (pc.HaveLock? || Critical(pc) ==> !Prechecked(rejects, op))
    && match pc
       case Idle => true
       case HaveLock => true
       case Inside => now == entry && Agrees(disk, cache, p)
       case Missed => now == entry && Agrees(disk, cache, p) && op.Edit?
       case Fetched(text) =>
         now == entry && Agrees(disk, cache, p) && op.Edit? && now.Some? && text == Decode(now.value)
       case Loaded(text) =>
         now == entry && Agrees(disk, cache, p) && op.Edit? && now.Some? && text == Decode(now.value)
       case Opened(content, ok) => file == Some(content) && ok == result
       case Written(ok) => now == file && ok == result
       case Leaving(r) => now == file && r == result && Agrees(disk, cache, p)
       case Done(r) => r == if Prechecked(rejects, op) then SyntaxRejected else result
  }

  predicate ThreadOk(rejects: Lint, th: Thread, disk: map<string, string>, cache: map<string, string>) {
    PointOk(rejects, th.op, th.pc, th.entry, disk, cache)
  }

  predicate Free(s: System, p: string) {
    forall i :: 0 <= i < |s.threads| && Critical(s.threads[i].pc) ==> s.threads[i].op.path != p
  }

  /** `ideal` is the plain disk on which every call took effect when it acquired its lock. */
  ghost predicate ContentOk(rejects: Lint, s: System, ideal: map<string, string>) {
    && (forall i :: 0 <= i < |s.threads| ==> ThreadOk(rejects, s.threads[i], s.disk, s.cache))
    && (forall i :: 0 <= i < |s.threads| && Critical(s.threads[i].pc) ==>
          Lookup(ideal, s.threads[i].op.path) == Apply(rejects, s.threads[i].op, s.threads[i].entry).0)
    && (forall p :: Free(s, p) ==> Agrees(s.disk, s.cache, p) && Lookup(s.disk, p) == Lookup(ideal, p))
  }

  ghost predicate OpsAre(s: System, ops: seq<Mutation>) {
    |s.threads| == |ops| && forall i :: 0 <= i < |ops| ==> s.threads[i].op == ops[i]
  }

  ghost predicate ResultsOk(rejects: Lint, s: System, results: seq<Result>)
    requires OrderOk(rejects, s)
  {
    && |results| == |s.order|
    && forall i :: 0 <= i < |s.order| ==>
         results[i] == Apply(rejects, s.threads[s.order[i]].op, s.threads[s.order[i]].entry).1
  }

  ghost predicate Inv(rejects: Lint, s: System, ops: seq<Mutation>, disk: map<string, string>) {
    && OpsAre(s, ops) && LocksOk(s) && OrderOk(rejects, s)
    && var (ideal, results) := Serial(rejects, disk, ops, s.order);
       ContentOk(rejects, s, ideal) && ResultsOk(rejects, s, results)
  }

  /** At most one call is inside per path. */
  lemma {:induction false} OneInside(s: System, i: nat, j: nat)
    requires LocksOk(s) && i < |s.threads| && j < |s.threads|
    requires Critical(s.threads[i].pc) && Critical(s.threads[j].pc)
    requires s.threads[i].op.path == s.threads[j].op.path
    ensures i == j
  {
    assert HoldsItsLock(s, i) && HoldsItsLock(s, j);
  }

  lemma {:induction false} LeaveKeepsLocks(rejects: Lint, s: System, t: nat)
    requires LocksOk(s) && t < |s.threads| && s.threads[t].pc.Leaving?
    ensures LocksOk(Step(rejects, s, t))
  {
    var after := Step(rejects, s, t);
    assert HoldsItsLock(s, t);
    forall i: nat | i < |after.threads|
      ensures HoldsItsLock(after, i)
    {
      assert HoldsItsLock(s, i);
    }
  }

  /** A step under the lock moves the call's own program point and its own file and cache entry. */
  ghost predicate OnlyOwn(s: System, after: System, t: nat)
    requires t < |s.threads|
  {
    var p := s.threads[t].op.path;
    && |after.threads| == |s.threads|
    && after.threads[t] == s.threads[t].(pc := after.threads[t].pc)
    && after.threads == s.threads[t := after.threads[t]]
    && after.locks == s.locks && after.nextLock == s.nextLock && after.order == s.order
    && (forall q :: q != p ==>
          Lookup(after.disk, q) == Lookup(s.disk, q) && Lookup(after.cache, q) == Lookup(s.cache, q))
  }

  predicate InBody(pc: PC) { Critical(pc) && !pc.Leaving? }

  lemma {:induction false} MoveFrame(rejects: Lint, op: Mutation, pc: PC, disk: map<string, string>,
                                     cache: map<string, string>)
    requires InBody(pc)
    ensures var (pc', disk', cache') := Move(rejects, op, pc, disk, cache);
      && Critical(pc')
      && forall q :: q != op.path ==> Lookup(disk', q) == Lookup(disk, q) && Lookup(cache', q) == Lookup(cache, q)
  {
  }

  /** The step keeps what is known at the call's program point. */
  lemma {:induction false} MoveKeepsPoint(rejects: Lint, op: Mutation, pc: PC, entry: Option<string>,
                                          disk: map<string, string>, cache: map<string, string>)
    requires InBody(pc) && PointOk(rejects, op, pc, entry, disk, cache)
    ensures var (pc', disk', cache') := Move(rejects, op, pc, disk, cache);
      PointOk(rejects, op, pc', entry, disk', cache')
  {
    match pc
    case Inside =>
    case Missed =>
    case Fetched(_) =>
    case Loaded(text) =>
      var (after, result) := EditText(rejects, op, text);
    case Opened(_, _) =>
    case Written(_) =>
  }

  lemma {:induction false} AdvanceFrame(rejects: Lint, s: System, t: nat)
    requires t < |s.threads| && InBody(s.threads[t].pc)
    ensures var after := Step(rejects, s, t);
      && after == Advance(rejects, s, t)
      && OnlyOwn(s, after, t) && after.held == s.held && Critical(after.threads[t].pc)
  {
    MoveFrame(rejects, s.threads[t].op, s.threads[t].pc, s.disk, s.cache);
  }

  lemma {:induction false} SameLocks(s: System, after: System, t: nat)
    requires LocksOk(s) && t < |s.threads| && OnlyOwn(s, after, t) && after.held == s.held
    requires Critical(s.threads[t].pc) && Critical(after.threads[t].pc)
    ensures LocksOk(after)
  {
    forall i: nat | i < |after.threads|
      ensures HoldsItsLock(after, i)
    {
      assert HoldsItsLock(s, i);
    }
  }

  /** The disk and cache seen by calls on other paths stay as they were. */
  lemma {:induction false} OthersUnaffected(rejects: Lint, s: System, after: System, t: nat, i: nat)
    requires LocksOk(s) && t < |s.threads| && i < |s.threads| && i != t
    requires Critical(s.threads[t].pc) && OnlyOwn(s, after, t)
    requires ThreadOk(rejects, s.threads[i], s.disk, s.cache)
    ensures ThreadOk(rejects, after.threads[i], after.disk, after.cache)
  {
    assert after.threads[i] == s.threads[i];
    if Critical(s.threads[i].pc) {
      var p, q := s.threads[t].op.path, s.threads[i].op.path;
      if p == q {
        OneInside(s, i, t);
      }
      assert Lookup(after.disk, q) == Lookup(s.disk, q) && Lookup(after.cache, q) == Lookup(s.cache, q);
    }
  }

  /** The step of the call itself keeps what is known at its program point. */
  lemma {:induction false} OwnStep(rejects: Lint, s: System, t: nat)
    requires t < |s.threads| && Critical(s.threads[t].pc)
    requires ThreadOk(rejects, s.threads[t], s.disk, s.cache)
    ensures var after := Step(rejects, s, t);
      OnlyOwn(s, after, t) && ThreadOk(rejects, after.threads[t], after.disk, after.cache)
  {
    if InBody(s.threads[t].pc) {
      AdvanceFrame(rejects, s, t);
      MoveKeepsPoint(rejects, s.threads[t].op, s.threads[t].pc, s.threads[t].entry, s.disk, s.cache);
    }
  }

  lemma {:induction false} InsideKeepsContent(rejects: Lint, s: System, t: nat, ideal: map<string, string>)
    requires LocksOk(s) && ContentOk(rejects, s, ideal)
    requires t < |s.threads| && Critical(s.threads[t].pc)
    ensures ContentOk(rejects, Step(rejects, s, t), ideal)
  {
    var after := Step(rejects, s, t);
    OwnStep(rejects, s, t);
    forall i: nat | i < |after.threads|
      ensures ThreadOk(rejects, after.threads[i], after.disk, after.cache)
    {
      if i != t {
        OthersUnaffected(rejects, s, after, t, i);
      }
    }
    forall q | Free(after, q)
      ensures Agrees(after.disk, after.cache, q) && Lookup(after.disk, q) == Lookup(ideal, q)
    {
      InsideKeepsFree(rejects, s, t, ideal, q);
    }
  }

  lemma {:induction false} InsideKeepsFree(rejects: Lint, s: System, t: nat, ideal: map<string, string>, q: string)
    requires ContentOk(rejects, s, ideal) && t < |s.threads| && Critical(s.threads[t].pc)
    requires OnlyOwn(s, Step(rejects, s, t), t) && Free(Step(rejects, s, t), q)
    ensures var after := Step(rejects, s, t);
      Agrees(after.disk, after.cache, q) && Lookup(after.disk, q) == Lookup(ideal, q)
  {
    var after := Step(rejects, s, t);
    FreeBefore(s, after, t, q);
    if q != s.threads[t].op.path {
      assert Lookup(after.disk, q) == Lookup(s.disk, q) && Lookup(after.cache, q) == Lookup(s.cache, q);
    } else {
      OnlyLeavingFrees(rejects, s, t);
      assert ThreadOk(rejects, s.threads[t], s.disk, s.cache);
    }
  }

  lemma {:induction false} OnlyLeavingFrees(rejects: Lint, s: System, t: nat)
    requires t < |s.threads| && Critical(s.threads[t].pc) && !Critical(Step(rejects, s, t).threads[t].pc)
    ensures s.threads[t].pc.Leaving?
  {
    if InBody(s.threads[t].pc) {
      AdvanceFrame(rejects, s, t);
    }
  }

  lemma {:induction false} FreeBefore(s: System, after: System, t: nat, q: string)
    requires t < |s.threads| && OnlyOwn(s, after, t) && Free(after, q)
    ensures q != s.threads[t].op.path ==> Free(s, q)
    ensures q == s.threads[t].op.path ==> !Critical(after.threads[t].pc)
  {
    if q != s.threads[t].op.path {
      forall i | 0 <= i < |s.threads| && Critical(s.threads[i].pc)
        ensures s.threads[i].op.path != q
      {
        if i != t {
          assert after.threads[i] == s.threads[i];
        }
      }
    }
  }

  /** Acquiring the lock is the moment the call takes effect on the ideal disk. */
  lemma {:induction false} AcquireKeepsContent(rejects: Lint, s: System, t: nat, ideal: map<string, string>)
    requires LocksOk(s) && ContentOk(rejects, s, ideal)
    requires t < |s.threads| && s.threads[t].pc.HaveLock? && s.threads[t].lock !in s.held
    ensures var op := s.threads[t].op;
      && Acquire(s, t).threads[t].entry == Lookup(ideal, op.path)
      && ContentOk(rejects, Acquire(s, t), Put(ideal, op.path, Apply(rejects, op, Lookup(ideal, op.path)).0))
  {
    var op := s.threads[t].op;
    var after := Acquire(s, t);
    var ideal' := Put(ideal, op.path, Apply(rejects, op, Lookup(ideal, op.path)).0);
    assert HoldsItsLock(s, t);
    forall i: nat | i < |s.threads| && Critical(s.threads[i].pc)
      ensures s.threads[i].op.path != op.path
    {
      assert HoldsItsLock(s, i);
    }
    assert Free(s, op.path);
    forall i | 0 <= i < |after.threads| && Critical(after.threads[i].pc)
      ensures Lookup(ideal', after.threads[i].op.path) == Apply(rejects, after.threads[i].op, after.threads[i].entry).0
    {
      if i != t {
        assert after.threads[i] == s.threads[i];
      }
    }
    forall q | Free(after, q)
      ensures Agrees(after.disk, after.cache, q) && Lookup(after.disk, q) == Lookup(ideal', q)
    {
      assert after.threads[t].op.path != q;
      forall i | 0 <= i < |s.threads| && Critical(s.threads[i].pc)
        ensures s.threads[i].op.path != q
      {
        assert after.threads[i] == s.threads[i];
      }
      assert Free(s, q);
    }
  }

  /** A call outside its lock that stays outside disturbs nothing. */
  lemma {:induction false} OutsideKeepsContent(rejects: Lint, s: System, after: System, t: nat,
                                               ideal: map<string, string>)
    requires ContentOk(rejects, s, ideal) && t < |s.threads| && t < |after.threads|
    requires after.threads == s.threads[t := after.threads[t]] && after.threads[t].op == s.threads[t].op
    requires after.disk == s.disk && after.cache == s.cache
    requires !Critical(s.threads[t].pc) && !Critical(after.threads[t].pc)
    requires ThreadOk(rejects, after.threads[t], s.disk, s.cache)
    ensures ContentOk(rejects, after, ideal)
  {
    forall i | 0 <= i < |after.threads|
      ensures ThreadOk(rejects, after.threads[i], after.disk, after.cache)
      ensures Critical(after.threads[i].pc) ==> after.threads[i] == s.threads[i]
    {
      assert i != t ==> after.threads[i] == s.threads[i];
    }
    forall q | Free(after, q)
      ensures Free(s, q)
    {
      SameCritical(s, after, t, q);
    }
  }

  lemma {:induction false} SameCritical(s: System, after: System, t: nat, q: string)
    requires t < |s.threads| && t < |after.threads| && after.threads == s.threads[t := after.threads[t]]
    requires !Critical(s.threads[t].pc) && Free(after, q)
    ensures Free(s, q)
  {
    forall i | 0 <= i < |s.threads| && Critical(s.threads[i].pc)
      ensures s.threads[i].op.path != q
    {
      assert after.threads[i] == s.threads[i];
    }
  }

  lemma {:induction false} NewLock(locks: map<string, nat>, nextLock: nat, p: string)
    requires TableOk(locks, nextLock) && p !in locks
    ensures TableOk(locks[p := nextLock], nextLock + 1)
  {
  }

  lemma {:induction false} FetchKeepsLocks(s: System, t: nat)
    requires LocksOk(s) && t < |s.threads| && s.threads[t].pc.Idle?
    ensures LocksOk(FetchLock(s, t))
  {
    var after := FetchLock(s, t);
    var p := s.threads[t].op.path;
    if p !in s.locks {
      NewLock(s.locks, s.nextLock, p);
    }
    forall i: nat | i < |after.threads|
      ensures HoldsItsLock(after, i)
    {
      assert HoldsItsLock(s, i);
    }
  }

  lemma {:induction false} AcquireKeepsLocks(s: System, t: nat)
    requires LocksOk(s) && t < |s.threads| && s.threads[t].pc.HaveLock? && s.threads[t].lock !in s.held
    ensures LocksOk(Acquire(s, t))
  {
    forall i: nat | i < |s.threads|
      ensures HoldsItsLock(Acquire(s, t), i)
    {
      assert HoldsItsLock(s, i);
    }
  }

  lemma {:induction false} OutsideKeepsLocks(rejects: Lint, s: System, t: nat)
    requires LocksOk(s) && t < |s.threads| && !Critical(s.threads[t].pc)
    ensures LocksOk(Step(rejects, s, t))
  {
    var pc := s.threads[t].pc;
    if pc.Idle? {
      if !Prechecked(rejects, s.threads[t].op) {
        FetchKeepsLocks(s, t);
      } else {
        forall i: nat | i < |s.threads|
          ensures HoldsItsLock(Step(rejects, s, t), i)
        {
          assert HoldsItsLock(s, i);
        }
      }
    } else if pc.HaveLock? && s.threads[t].lock !in s.held {
      AcquireKeepsLocks(s, t);
    } else {
      assert Step(rejects, s, t) == s;
    }
  }

  lemma {:induction false} StepKeepsLocks(rejects: Lint, s: System, t: nat)
    requires LocksOk(s)
    ensures LocksOk(Step(rejects, s, t))
  {
    if t < |s.threads| {
      var pc := s.threads[t].pc;
      if pc.Leaving? {
        LeaveKeepsLocks(rejects, s, t);
      } else if Critical(pc) {
        AdvanceFrame(rejects, s, t);
        SameLocks(s, Step(rejects, s, t), t);
      } else {
        OutsideKeepsLocks(rejects, s, t);
      }
    }
  }

  lemma {:induction false} SameOrder(rejects: Lint, s: System, after: System, t: nat)
    requires OrderOk(rejects, s) && t < |s.threads| && t < |after.threads|
    requires after.threads == s.threads[t := after.threads[t]] && after.order == s.order
    requires Counted(rejects, after.threads[t]) == Counted(rejects, s.threads[t])
    ensures OrderOk(rejects, after)
  {
    assert forall i :: 0 <= i < |s.threads| && i != t ==> after.threads[i] == s.threads[i];
  }

  /** Only acquiring a lock adds to the order. */
  lemma {:induction false} InsideKeepsOrder(rejects: Lint, s: System, t: nat)
    requires OrderOk(rejects, s) && t < |s.threads| && Critical(s.threads[t].pc)
    requires ThreadOk(rejects, s.threads[t], s.disk, s.cache)
    ensures OrderOk(rejects, Step(rejects, s, t)) && Step(rejects, s, t).order == s.order
  {
    OwnStep(rejects, s, t);
    if InBody(s.threads[t].pc) {
      AdvanceFrame(rejects, s, t);
    }
    SameOrder(rejects, s, Step(rejects, s, t), t);
  }

  lemma {:induction false} IdleKeepsOrder(rejects: Lint, s: System, t: nat)
    requires OrderOk(rejects, s) && t < |s.threads| && s.threads[t].pc.Idle?
    ensures OrderOk(rejects, Step(rejects, s, t)) && Step(rejects, s, t).order == s.order
  {
    SameOrder(rejects, s, Step(rejects, s, t), t);
  }

  lemma {:induction false} AcquireKeepsOrder(rejects: Lint, s: System, t: nat)
    requires OrderOk(rejects, s) && t < |s.threads| && s.threads[t].pc.HaveLock?
    ensures OrderOk(rejects, Acquire(s, t)) && t !in s.order
  {
    var after := Acquire(s, t);
    assert !Counted(rejects, s.threads[t]);
    forall i: nat | i < |after.threads|
      ensures i in after.order <==> Counted(rejects, after.threads[i])
    {
      if i != t {
        assert after.threads[i] == s.threads[i];
        assert i in after.order <==> i in s.order;
      } else {
        assert after.order[|s.order|] == t;
      }
    }
  }

  lemma {:induction false} ResultsKept(rejects: Lint, s: System, after: System, results: seq<Result>)
    requires OrderOk(rejects, s) && OrderOk(rejects, after) && ResultsOk(rejects, s, results)
    requires after.order == s.order && |after.threads| == |s.threads|
    requires forall i :: 0 <= i < |s.threads| && i in s.order ==>
      after.threads[i].op == s.threads[i].op && after.threads[i].entry == s.threads[i].entry
    ensures ResultsOk(rejects, after, results)
  {
    forall i | 0 <= i < |s.order|
      ensures results[i] == Apply(rejects, after.threads[after.order[i]].op, after.threads[after.order[i]].entry).1
    {
      assert s.order[i] in s.order;
    }
  }

  lemma {:induction false} SerialMore(rejects: Lint, disk: map<string, string>, ops: seq<Mutation>, order: seq<nat>,
                                      t: nat)
    requires t < |ops| && forall i :: 0 <= i < |order| ==> order[i] < |ops|
    ensures forall i :: 0 <= i < |order + [t]| ==> (order + [t])[i] < |ops|
    ensures var (before, results) := Serial(rejects, disk, ops, order);
      var (file, result) := Apply(rejects, ops[t], Lookup(before, ops[t].path));
      Serial(rejects, disk, ops, order + [t]) == (Put(before, ops[t].path, file), results + [result])
  {
    assert (order + [t])[..|order|] == order;
  }

  lemma {:induction false} AcquireKeepsResults(rejects: Lint, s: System, t: nat, results: seq<Result>)
    requires OrderOk(rejects, s) && ResultsOk(rejects, s, results)
    requires t < |s.threads| && t !in s.order && OrderOk(rejects, Acquire(s, t))
    ensures ResultsOk(rejects, Acquire(s, t),
                      results + [Apply(rejects, s.threads[t].op, Acquire(s, t).threads[t].entry).1])
  {
    var after := Acquire(s, t);
    forall i | 0 <= i < |s.order|
      ensures after.threads[after.order[i]] == s.threads[s.order[i]]
    {
      assert s.order[i] in s.order;
    }
  }

  lemma {:induction false} AcquireKeepsOps(s: System, t: nat, ops: seq<Mutation>)
    requires OpsAre(s, ops) && t < |s.threads|
    ensures OpsAre(Acquire(s, t), ops)
  {
  }

  lemma {:induction false} AcquireKeepsInv(rejects: Lint, s: System, t: nat, ops: seq<Mutation>,
                                           disk: map<string, string>)
    requires Inv(rejects, s, ops, disk)
    requires t < |s.threads| && s.threads[t].pc.HaveLock? && s.threads[t].lock !in s.held
    ensures Inv(rejects, Acquire(s, t), ops, disk)
  {
    var (ideal, results) := Serial(rejects, disk, ops, s.order);
    AcquireKeepsOps(s, t, ops);
    AcquireKeepsLocks(s, t);
    AcquireKeepsOrder(rejects, s, t);
    AcquireKeepsContent(rejects, s, t, ideal);
    AcquireKeepsResults(rejects, s, t, results);
    SerialMore(rejects, disk, ops, s.order, t);
  }

  /** A call outside its lock changes neither files nor cache nor order. */
  lemma {:induction false} IdleStep(rejects: Lint, s: System, t: nat)
    requires t < |s.threads| && s.threads[t].pc.Idle?
    ensures var after := Step(rejects, s, t);
      && after.disk == s.disk && after.cache == s.cache && after.order == s.order
      && |after.threads| == |s.threads| && after.threads == s.threads[t := after.threads[t]]
      && after.threads[t].op == s.threads[t].op && after.threads[t].entry == s.threads[t].entry
      && !Critical(after.threads[t].pc) && ThreadOk(rejects, after.threads[t], s.disk, s.cache)
  {
  }

  lemma {:induction false} IdleKeepsInv(rejects: Lint, s: System, t: nat, ops: seq<Mutation>, disk: map<string, string>)
    requires Inv(rejects, s, ops, disk)
    requires t < |s.threads| && s.threads[t].pc.Idle?
    ensures Inv(rejects, Step(rejects, s, t), ops, disk)
  {
    var (ideal, results) := Serial(rejects, disk, ops, s.order);
    IdleStep(rejects, s, t);
    StepKeepsLocks(rejects, s, t);
    IdleKeepsOrder(rejects, s, t);
    OutsideKeepsContent(rejects, s, Step(rejects, s, t), t, ideal);
    ResultsKept(rejects, s, Step(rejects, s, t), results);
  }

  lemma {:induction false} InsideKeepsInv(rejects: Lint, s: System, t: nat, ops: seq<Mutation>,
                                          disk: map<string, string>)
    requires Inv(rejects, s, ops, disk)
    requires t < |s.threads| && Critical(s.threads[t].pc)
    ensures Inv(rejects, Step(rejects, s, t), ops, disk)
  {
    var (ideal, results) := Serial(rejects, disk, ops, s.order);
    assert ThreadOk(rejects, s.threads[t], s.disk, s.cache);
    StepKeepsLocks(rejects, s, t);
    InsideKeepsOrder(rejects, s, t);
    InsideKeepsContent(rejects, s, t, ideal);
    OwnStep(rejects, s, t);
    ResultsKept(rejects, s, Step(rejects, s, t), results);
  }

  lemma {:induction false} StepKeepsInv(rejects: Lint, s: System, t: nat, ops: seq<Mutation>, disk: map<string, string>)
    requires Inv(rejects, s, ops, disk)
    ensures Inv(rejects, Step(rejects, s, t), ops, disk)
  {
    if t < |s.threads| {
      var pc := s.threads[t].pc;
      if Critical(pc) {
        InsideKeepsInv(rejects, s, t, ops, disk);
      } else if pc.HaveLock? && s.threads[t].lock !in s.held {
        AcquireKeepsInv(rejects, s, t, ops, disk);
      } else if pc.Idle? {
        IdleKeepsInv(rejects, s, t, ops, disk);
      } else {
        assert Step(rejects, s, t) == s;
      }
    }
  }

  lemma {:induction false} RunKeepsInv(rejects: Lint, ops: seq<Mutation>, disk: map<string, string>,
                                       cache: map<string, string>, schedule: seq<nat>)
    requires forall p :: Agrees(disk, cache, p)
    ensures Inv(rejects, Run(rejects, Start(ops, disk, cache), schedule), ops, disk)
  {
    if schedule != [] {
      var prefix := schedule[..|schedule| - 1];
      RunKeepsInv(rejects, ops, disk, cache, prefix);
      StepKeepsInv(rejects, Run(rejects, Start(ops, disk, cache), prefix), schedule[|schedule| - 1], ops, disk);
    }
  }

  // ---- What every interleaving guarantees ----

  predicate AllDone(s: System) {
    forall i :: 0 <= i < |s.threads| ==> s.threads[i].pc.Done?
  }

  /** Whatever the interleaving, once all calls have returned the disk is what running the calls that
      took a lock one at a time, in lock-acquisition order, leaves; each call reported what it reports
      in that serial run; and the calls that took no lock are exactly the rejected writes. So no
      mutation that reported success is lost. */
  lemma {:induction false} EveryInterleavingIsSerial(rejects: Lint, ops: seq<Mutation>, disk: map<string, string>,
                                                     cache: map<string, string>, schedule: seq<nat>)
    requires forall p :: Agrees(disk, cache, p)
    requires AllDone(Run(rejects, Start(ops, disk, cache), schedule))
    ensures var end := Run(rejects, Start(ops, disk, cache), schedule);
      && |end.threads| == |ops|
      && (forall i :: 0 <= i < |end.order| ==> end.order[i] < |ops|)
      && (forall i, j :: 0 <= i < j < |end.order| ==> end.order[i] != end.order[j])
      && (forall i: nat :: i < |ops| ==> (i in end.order <==> !Prechecked(rejects, ops[i])))
      && var (ideal, results) := Serial(rejects, disk, ops, end.order);
         && end.disk == ideal
         && (forall i :: 0 <= i < |end.order| ==> end.threads[end.order[i]].pc == Done(results[i]))
         && (forall i: nat :: i < |ops| && i !in end.order ==> end.threads[i].pc == Done(SyntaxRejected))
  {
    RunKeepsInv(rejects, ops, disk, cache, schedule);
    var end := Run(rejects, Start(ops, disk, cache), schedule);
    var (ideal, results) := Serial(rejects, disk, ops, end.order);
    EndIsIdeal(rejects, end, ideal);
    EndReports(rejects, end, ideal, results);
  }

  lemma {:induction false} EndIsIdeal(rejects: Lint, end: System, ideal: map<string, string>)
    requires AllDone(end) && ContentOk(rejects, end, ideal)
    ensures end.disk == ideal
  {
    forall p
      ensures Lookup(end.disk, p) == Lookup(ideal, p)
    {
      assert Free(end, p);
    }
    SameFiles(end.disk, ideal);
  }

  lemma {:induction false} EndReports(rejects: Lint, end: System, ideal: map<string, string>, results: seq<Result>)
    requires AllDone(end) && ContentOk(rejects, end, ideal) && OrderOk(rejects, end) && ResultsOk(rejects, end, results)
    ensures forall i :: 0 <= i < |end.order| ==> end.threads[end.order[i]].pc == Done(results[i])
    ensures forall i: nat :: i < |end.threads| && i !in end.order ==> end.threads[i].pc == Done(SyntaxRejected)
  {
    forall i: nat | i < |end.threads|
      ensures end.threads[i].pc.result
        == if i in end.order then Apply(rejects, end.threads[i].op, end.threads[i].entry).1 else SyntaxRejected
    {
      assert ThreadOk(rejects, end.threads[i], end.disk, end.cache);
    }
    forall i | 0 <= i < |end.order|
      ensures end.threads[end.order[i]].pc == Done(results[i])
    {
      assert end.order[i] in end.order;
    }
  }

  lemma {:induction false} SameFiles(a: map<string, string>, b: map<string, string>)
    requires forall p :: Lookup(a, p) == Lookup(b, p)
    ensures a == b
  {
    forall p
      ensures p in a <==> p in b
      ensures p in a ==> a[p] == b[p]
    {
      assert Lookup(a, p) == Lookup(b, p);
    }
  }

  /** At any moment of any interleaving, a file no call is inside of already has its serial content,
      and no cached text is stale for it. */
  lemma {:induction false} QuietFilesAreSerial(rejects: Lint, ops: seq<Mutation>, disk: map<string, string>,
                                               cache: map<string, string>, schedule: seq<nat>, p: string)
    requires forall q :: Agrees(disk, cache, q)
    ensures var s := Run(rejects, Start(ops, disk, cache), schedule);
      && (forall i :: 0 <= i < |s.order| ==> s.order[i] < |ops|)
      && (Free(s, p) ==>
            && Lookup(s.disk, p) == Lookup(Serial(rejects, disk, ops, s.order).0, p)
            && Agrees(s.disk, s.cache, p))
  {
    RunKeepsInv(rejects, ops, disk, cache, schedule);
  }

  /** No interleaving gets stuck: while some call has not returned, some call can step. */
  lemma {:induction false} NeverStuck(rejects: Lint, ops: seq<Mutation>, disk: map<string, string>,
                                      cache: map<string, string>, schedule: seq<nat>, i: nat)
    requires forall p :: Agrees(disk, cache, p)
    requires i < |Run(rejects, Start(ops, disk, cache), schedule).threads|
    requires !Run(rejects, Start(ops, disk, cache), schedule).threads[i].pc.Done?
    ensures var s := Run(rejects, Start(ops, disk, cache), schedule);
      exists t: nat :: t < |s.threads| && Step(rejects, s, t) != s
  {
    RunKeepsInv(rejects, ops, disk, cache, schedule);
    var s := Run(rejects, Start(ops, disk, cache), schedule);
    var ideal := Serial(rejects, disk, ops, s.order).0;
    assert HoldsItsLock(s, i);
    var t := if s.threads[i].pc.HaveLock? && s.threads[i].lock in s.held then s.held[s.threads[i].lock] else i;
    StepMoves(rejects, s, t, ideal);
  }

  lemma {:induction false} StepMoves(rejects: Lint, s: System, t: nat, ideal: map<string, string>)
    requires ContentOk(rejects, s, ideal)
    requires t < |s.threads| && !s.threads[t].pc.Done?
    requires s.threads[t].pc.HaveLock? ==> s.threads[t].lock !in s.held
    ensures Step(rejects, s, t) != s
  {
    assert ThreadOk(rejects, s.threads[t], s.disk, s.cache);
    assert Step(rejects, s, t).threads[t].pc != s.threads[t].pc;
  }
}
