/**
  `git_push_with_lease`: fetch, push with a lease, re-read the remote branch, compare, and at most one
  retry, while anyone else may move or delete the remote branch between any two steps.
*/
module PushProtocol {
  import opened Options

  type Sha = string
  type Token = Option<string>

  /** What others did to the remote branch since the last network step. */
  datatype Others = Quiet | Moved(to: Option<Sha>)

  /** How the network treats a step. A push that exits with 0 may still not have moved the branch. */
  datatype Fate = Works | ExitsUnmoved | AuthFails | Fails

  /** One step's surroundings; `headReadable` is whether the local HEAD can be read. */
  datatype Env = Env(others: Others, fate: Fate, headReadable: bool)

  /** The surroundings of every network step, and the token of every request to the provider. */
  datatype World = World(steps: nat -> Env, tokens: nat -> Token)

  datatype FetchResult = Fetched | NoSuchRef | FetchFailed

  /** `UpToDate` is a push that exits with 0 because the remote branch is at the local HEAD already. */
  datatype PushResult = Landed | Unmoved | UpToDate | Rejected | AuthFailed | Failed
  {
    predicate ExitsWithZero() { Landed? || Unmoved? || UpToDate? }
  }

  datatype Event =
    | Fetch(fetched: FetchResult, seen: Option<Sha>)
    /** A push with its token and lease, the branch as the remote then had it, and what came of it. */
    | Push(token: Token, lease: Option<Sha>, found: Option<Sha>, pushed: PushResult)
    /** The remote branch as re-read after a push, if it could be read. */
    | Reread(remote: Option<Sha>)
    | TokensCleared

  datatype Outcome = PushOk | LeaseRejected | PushAuthError | PushError | NotLanded

  /** The local HEAD, the remote-tracking ref and the remote branch, with the steps taken so far. */
  datatype Session = Session(head: Sha, tracking: Option<Sha>, remote: Option<Sha>, clock: nat, tokenCalls: nat,
                             log: seq<Event>)

  function Elsewhere(s: Session, env: Env): Session {
    (if env.others.Moved? then s.(remote := env.others.to) else s).(clock := s.clock + 1)
  }

  function Record(s: Session, e: Event): Session { s.(log := s.log + [e]) }

  function DoFetch(w: World, s: Session): (Session, FetchResult) {
    var env := w.steps(s.clock);
    var now := Elsewhere(s, env);
    if !env.fate.Works? then (Record(now, Fetch(FetchFailed, None)), FetchFailed)
    else if now.remote.None? then (Record(now, Fetch(NoSuchRef, None)), NoSuchRef)
    else (Record(now.(tracking := now.remote), Fetch(Fetched, now.remote)), Fetched)
  }

  /** With a tracking ref the push is leased on it; without one it is forced. The lease is not looked at when there is
      nothing to push. */
  function DoPush(w: World, s: Session, token: Token): (Session, PushResult) {
    var env := w.steps(s.clock);
    var now := Elsewhere(s, env);
    var result :=
      match env.fate
      case AuthFails => AuthFailed
      case Fails => Failed
      case _ =>
        if now.remote == Some(s.head) then UpToDate
        else if s.tracking.Some? && now.remote != s.tracking then Rejected
        else if env.fate.Works? then Landed
        else Unmoved;
    var after := Record(now, Push(token, s.tracking, now.remote, result));
    (if result.Landed? then after.(remote := Some(s.head)) else after, result)
  }

  function GetToken(w: World, s: Session): (Session, Token) {
    (s.(tokenCalls := s.tokenCalls + 1), w.tokens(s.tokenCalls))
  }

  /** `_push_and_verify`. */
  function VerifiedPush(w: World, s: Session, token: Token): (Session, Outcome) {
    var (pushed, result) := DoPush(w, s, token);
    match result
    case Rejected => (pushed, LeaseRejected)
    case AuthFailed => (pushed, PushAuthError)
    case Failed => (pushed, PushError)
    case _ => Verify(w, pushed)
  }

  function Verify(w: World, s: Session): (Session, Outcome) {
    var (fetched, result) := DoFetch(w, s);
    if !result.Fetched? || !w.steps(s.clock).headReadable then (Record(fetched, Reread(None)), NotLanded)
    else
      (Record(fetched, Reread(fetched.tracking)), if fetched.tracking == Some(s.head) then PushOk else NotLanded)
  }

  /** A push that does not land even when retried is reported as an error. */
  function FailNotLanded(o: Outcome): Outcome { if o.PushOk? then o else PushError }

  function GitPush(w: World, s: Session): (Session, Outcome) {
    var (s0, token) := GetToken(w, s);
    var (s1, fetched) := DoFetch(w, s0);
    if fetched.FetchFailed? then (s1, PushError)
    else AfterFetch(w, s1, token)
  }

  function AfterFetch(w: World, s: Session, token: Token): (Session, Outcome) {
    var (s2, outcome) := VerifiedPush(w, s, token);
    match outcome
    case NotLanded => var (s3, retry) := VerifiedPush(w, s2, token); (s3, FailNotLanded(retry))
    case PushAuthError => Reauthenticate(w, s2, token)
    case _ => (s2, outcome)
  }

  function Reauthenticate(w: World, s: Session, token: Token): (Session, Outcome) {
    var (s1, newToken) := GetToken(w, Record(s, TokensCleared));
    if newToken == token then (s1, PushAuthError)
    else
      var (s2, retry) := VerifiedPush(w, s1, newToken);
      (s2, if retry.NotLanded? then PushError else retry)
  }

  // ---- The tool as an object with effects ----

  class PushTool {
    const world: World
    const head: Sha
    var tracking: Option<Sha>
    var remote: Option<Sha>
    var clock: nat
    var tokenCalls: nat
    var log: seq<Event>

    constructor (world: World, head: Sha, tracking: Option<Sha>, remote: Option<Sha>)
      ensures this.world == world && View() == Session(head, tracking, remote, 0, 0, [])
    {
      this.world, this.head, this.tracking, this.remote := world, head, tracking, remote;
      clock, tokenCalls, log := 0, 0, [];
    }

    function View(): Session
      reads this
    {
      Session(head, tracking, remote, clock, tokenCalls, log)
    }

    method Fetch() returns (result: FetchResult)
      modifies this`tracking, this`remote, this`clock, this`log
      ensures (View(), result) == DoFetch(world, old(View()))
    {
      var env := world.steps(clock);
      clock := clock + 1;
      if env.others.Moved? {
        remote := env.others.to;
      }
      if !env.fate.Works? {
        result := FetchFailed;
        log := log + [Event.Fetch(result, None)];
      } else if remote.None? {
        result := NoSuchRef;
        log := log + [Event.Fetch(result, None)];
      } else {
        tracking := remote;
        result := Fetched;
        log := log + [Event.Fetch(result, remote)];
      }
    }

    method PushWithLease(token: Token) returns (result: PushResult)
      modifies this`remote, this`clock, this`log
      ensures (View(), result) == DoPush(world, old(View()), token)
    {
      var env := world.steps(clock);
      clock := clock + 1;
      if env.others.Moved? {
        remote := env.others.to;
      }
      var found := remote;
      if env.fate.AuthFails? {
        result := AuthFailed;
      } else if env.fate.Fails? {
        result := Failed;
      } else if found == Some(head) {
        result := UpToDate;
      } else if tracking.Some? && found != tracking {
        result := Rejected;
      } else if env.fate.Works? {
        result := Landed;
        remote := Some(head);
      } else {
        result := Unmoved;
      }
      log := log + [Push(token, tracking, found, result)];
    }

    method PushAndVerify(token: Token) returns (outcome: Outcome)
      modifies this`tracking, this`remote, this`clock, this`log
      ensures (View(), outcome) == VerifiedPush(world, old(View()), token)
    {
      var pushed := PushWithLease(token);
      if pushed.Rejected? {
        return LeaseRejected;
      }
      if pushed.AuthFailed? {
        return PushAuthError;
      }
      if pushed.Failed? {
        return PushError;
      }
      var readable := world.steps(clock).headReadable;
      var fetched := Fetch();
      if !fetched.Fetched? || !readable {
        log := log + [Reread(None)];
        return NotLanded;
      }
      log := log + [Reread(tracking)];
      outcome := if tracking == Some(head) then PushOk else NotLanded;
    }

    method NextToken() returns (token: Token)
      modifies this`tokenCalls
      ensures (View(), token) == GetToken(world, old(View()))
    {
      token := world.tokens(tokenCalls);
      tokenCalls := tokenCalls + 1;
    }

    method GitPushWithLease() returns (outcome: Outcome)
      modifies this
      ensures (View(), outcome) == GitPush(world, old(View()))
    {
      var token := NextToken();
      var fetched := Fetch();
      if fetched.FetchFailed? {
        return PushError;
      }
      outcome := PushAndVerify(token);
      if outcome.PushOk? {
        return;
      }
      if outcome.NotLanded? {
        var retry := PushAndVerify(token);
        return if retry.PushOk? then retry else PushError;
      }
      if outcome.PushAuthError? {
        log := log + [TokensCleared];
        var newToken := NextToken();
        if newToken != token {
          var retry := PushAndVerify(newToken);
          return if retry.NotLanded? then PushError else retry;
        }
      }
    }
  }

  // ---- What every run guarantees, whatever the others do ----

  /** The pushes among the events, in order. */
  function Pushes(log: seq<Event>): seq<Event> {
    if log == [] then []
    else Pushes(log[..|log| - 1]) + if log[|log| - 1].Push? then [log[|log| - 1]] else []
  }

  lemma {:induction false} PushesAppend(a: seq<Event>, b: seq<Event>)
    ensures Pushes(a + b) == Pushes(a) + Pushes(b)
  {
    if b == [] {
      assert a + b == a;
    } else {
      var n := |b| - 1;
      PushesAppend(a, b[..n]);
      assert (a + b)[..|a + b| - 1] == a + b[..n];
    }
  }

  lemma {:induction false} NoPushesInTwo(a: Event, b: Event)
    requires !a.Push? && !b.Push?
    ensures Pushes([a, b]) == []
  {
    assert [a, b][..1] == [a] && [a][..0] == [];
    assert Pushes([a]) == Pushes([]) + [];
    assert Pushes([a, b]) == Pushes([a]) + [];
  }

  /** The two events of a verification. */
  lemma {:induction false} VerifyLog(w: World, s: Session) returns (rest: seq<Event>)
    ensures var (after, outcome) := Verify(w, s);
      && after.head == s.head && after.tokenCalls == s.tokenCalls && after.log == s.log + rest
      && |rest| == 2 && rest[0].Fetch? && rest[1].Reread? && Pushes(rest) == []
      && (outcome == if rest[1].remote == Some(s.head) then PushOk else NotLanded)
      && (rest[1].remote.Some? ==> rest[0].seen == rest[1].remote && after.tracking == rest[1].remote)
  {
    var fetched := DoFetch(w, s).0;
    var after := Verify(w, s).0;
    rest := [fetched.log[|s.log|], after.log[|s.log| + 1]];
    NoPushesInTwo(rest[0], rest[1]);
  }

  /** The events of one push and its verification. */
  lemma {:induction false} PushAndVerifyLog(w: World, s: Session, token: Token) returns (push: Event, rest: seq<Event>)
    ensures var (after, outcome) := VerifiedPush(w, s, token);
      && after.head == s.head && after.tokenCalls == s.tokenCalls
      && push.Push? && push.token == token && push.lease == s.tracking
      && after.log == s.log + [push] + rest && Pushes(rest) == []
      && (push.pushed.Landed? ==> push.lease.None? || push.found == push.lease)
      && match push.pushed
         case Rejected => outcome.LeaseRejected? && rest == [] && after.tracking == s.tracking
         case AuthFailed => outcome.PushAuthError? && rest == [] && after.tracking == s.tracking
         case Failed => outcome.PushError? && rest == [] && after.tracking == s.tracking
         case _ =>
           && |rest| == 2 && rest[0].Fetch? && rest[1].Reread?
           && (outcome == if rest[1].remote == Some(s.head) then PushOk else NotLanded)
           && (rest[1].remote.Some? ==> rest[0].seen == rest[1].remote && after.tracking == rest[1].remote)
  {
    var (pushed, result) := DoPush(w, s, token);
    push := pushed.log[|s.log|];
    rest := [];
    if result.ExitsWithZero() {
      rest := VerifyLog(w, pushed);
    }
  }

  /** The outcome is not the internal one; success is reported only if the last thing the tool did was to
      re-read the remote branch and find the local HEAD there; it pushes at most twice, and a second time
      only after a push that exited with 0 without the branch being seen at the HEAD, or after an
      authentication failure with a different token. */
  ghost predicate Sound(head: Sha, log: seq<Event>, outcome: Outcome) {
    var pushes := Pushes(log);
    && !outcome.NotLanded?
    && (outcome.PushOk? ==> log != [] && log[|log| - 1] == Reread(Some(head)))
    && |pushes| <= 2
    && (|pushes| == 2 ==> pushes[0].Push? && pushes[1].Push? && SecondPushDue(head, log, pushes[0], pushes[1]))
  }

  predicate SecondPushDue(head: Sha, log: seq<Event>, first: Event, second: Event)
    requires first.Push? && second.Push?
  {
    || (first.pushed.ExitsWithZero() && second.token == first.token
        && |log| > 3 && log[3].Reread? && log[3].remote != Some(head))
    || (first.pushed.AuthFailed? && second.token != first.token)
  }

  lemma {:induction false} RetrySound(head: Sha, fetch: Event, p1: Event, r1: seq<Event>, p2: Event, r2: seq<Event>,
                                      outcome: Outcome)
    requires fetch.Fetch? && p1.Push? && p2.Push? && Pushes(r1) == [] && Pushes(r2) == []
    requires p1.pushed.ExitsWithZero() && p2.token == p1.token
    requires |r1| == 2 && r1[1].Reread? && r1[1].remote != Some(head)
    requires outcome == PushError || (outcome == PushOk && |r2| == 2 && r2[1] == Reread(Some(head)))
    ensures Sound(head, [fetch] + [p1] + r1 + [p2] + r2, outcome)
  {
    var log := [fetch] + [p1] + r1 + [p2] + r2;
    NoPushYet(fetch);
    OnePush([fetch], p1, r1);
    AnotherPush([fetch] + [p1] + r1, p2, r2);
    assert log[3] == r1[1];
  }

  lemma {:induction false} ReauthSound(head: Sha, fetch: Event, p1: Event, p2: Event, r2: seq<Event>, outcome: Outcome)
    requires fetch.Fetch? && p1.Push? && p2.Push? && Pushes(r2) == []
    requires p1.pushed.AuthFailed? && p2.token != p1.token && !outcome.NotLanded?
    requires outcome == PushOk ==> |r2| == 2 && r2[1] == Reread(Some(head))
    ensures Sound(head, [fetch] + [p1] + [] + [TokensCleared] + [p2] + r2, outcome)
  {
    NoPushYet(fetch);
    OnePush([fetch], p1, []);
    AnotherEvent([fetch] + [p1] + [], TokensCleared);
    AnotherPush([fetch] + [p1] + [] + [TokensCleared], p2, r2);
  }

  lemma {:induction false} NoPushYet(fetch: Event)
    requires fetch.Fetch?
    ensures Pushes([fetch]) == []
  {
    assert [fetch][..0] == [];
    assert Pushes([fetch]) == Pushes([fetch][..0]) + [];
  }

  lemma {:induction false} SingleSound(head: Sha, fetch: Event, p1: Event, r1: seq<Event>, outcome: Outcome)
    requires fetch.Fetch? && p1.Push? && Pushes(r1) == [] && !outcome.NotLanded?
    requires outcome == PushOk ==> |r1| == 2 && r1[1] == Reread(Some(head))
    ensures Sound(head, [fetch] + [p1] + r1, outcome)
    ensures r1 == [] ==> Sound(head, [fetch] + [p1] + r1 + [TokensCleared], PushAuthError)
  {
    NoPushYet(fetch);
    OnePush([fetch], p1, r1);
    AnotherEvent([fetch] + [p1] + r1, TokensCleared);
  }

  /** Every run from an empty log is sound, whatever the others and the network do. */
  lemma {:induction false} RunIsSound(w: World, s: Session)
    requires s.log == []
    ensures var (after, outcome) := GitPush(w, s);
      after.head == s.head && Sound(s.head, after.log, outcome)
  {
    var (s0, token) := GetToken(w, s);
    var fetch := FetchLog(w, s0);
    var (s1, fetched) := DoFetch(w, s0);
    if !fetched.FetchFailed? {
      AfterFetchIsSound(w, s1, token, fetch);
    }
  }

  /** The event of the first fetch; nothing but a fetch is sound if it ends in an error. */
  lemma {:induction false} FetchLog(w: World, s: Session) returns (fetch: Event)
    requires s.log == []
    ensures var (after, result) := DoFetch(w, s);
      after.head == s.head && after.log == [fetch] && fetch.Fetch? && Sound(s.head, [fetch], PushError)
  {
    var after := DoFetch(w, s).0;
    fetch := after.log[0];
    NoPushYet(fetch);
  }

  lemma {:induction false} AfterFetchIsSound(w: World, s: Session, token: Token, fetch: Event)
    requires s.log == [fetch] && fetch.Fetch?
    ensures var (after, outcome) := AfterFetch(w, s, token);
      after.head == s.head && Sound(s.head, after.log, outcome)
  {
    var (s2, outcome) := VerifiedPush(w, s, token);
    var p1, r1 := PushAndVerifyLog(w, s, token);
    if outcome.NotLanded? {
      RetryIsSound(w, s2, s.head, token, fetch, p1, r1);
    } else if outcome.PushAuthError? {
      ReauthenticationIsSound(w, s2, s.head, token, fetch, p1);
    } else {
      SingleSound(s.head, fetch, p1, r1, outcome);
    }
  }

  lemma {:induction false} RetryIsSound(w: World, s: Session, head: Sha, token: Token, fetch: Event, p1: Event,
                                        r1: seq<Event>)
    requires s.head == head && s.log == [fetch] + [p1] + r1 && fetch.Fetch? && Pushes(r1) == []
    requires p1.Push? && p1.pushed.ExitsWithZero() && p1.token == token
    requires |r1| == 2 && r1[1].Reread? && r1[1].remote != Some(head)
    ensures var (after, retry) := VerifiedPush(w, s, token);
      after.head == head && Sound(head, after.log, FailNotLanded(retry))
  {
    var p2, r2 := PushAndVerifyLog(w, s, token);
    RetrySound(head, fetch, p1, r1, p2, r2, FailNotLanded(VerifiedPush(w, s, token).1));
  }

  lemma {:induction false} ReauthenticationIsSound(w: World, s: Session, head: Sha, token: Token, fetch: Event,
                                                   p1: Event)
    requires s.head == head && s.log == [fetch] + [p1] + []
    requires fetch.Fetch? && p1.Push? && p1.pushed.AuthFailed? && p1.token == token
    ensures var (after, outcome) := Reauthenticate(w, s, token);
      after.head == head && Sound(head, after.log, outcome)
  {
    var (s3, newToken) := GetToken(w, Record(s, TokensCleared));
    SingleSound(head, fetch, p1, [], PushAuthError);
    if newToken != token {
      var p2, r2 := PushAndVerifyLog(w, s3, newToken);
      var retry := VerifiedPush(w, s3, newToken).1;
      ReauthSound(head, fetch, p1, p2, r2, if retry.NotLanded? then PushError else retry);
    }
  }

  lemma {:induction false} AnotherEvent(log: seq<Event>, e: Event)
    ensures Pushes(log + [e]) == Pushes(log) + if e.Push? then [e] else []
  {
    assert (log + [e])[..|log|] == log;
  }

  lemma {:induction false} AnotherPush(log: seq<Event>, push: Event, rest: seq<Event>)
    requires push.Push? && Pushes(rest) == []
    ensures Pushes(log + [push] + rest) == Pushes(log) + [push]
  {
    AnotherEvent(log, push);
    PushesAppend(log + [push], rest);
  }

  lemma {:induction false} OnePush(log: seq<Event>, push: Event, rest: seq<Event>)
    requires push.Push? && Pushes(rest) == [] && Pushes(log) == []
    ensures Pushes(log + [push] + rest) == [push]
  {
    AnotherPush(log, push, rest);
  }

  /** The commit a push replaced was not the one its lease named: it was overwritten unseen. */
  predicate OverwroteUnseen(push: Event) {
    push.Push? && push.pushed.Landed? && push.found.Some? && push.found != push.lease
  }

  /** A push that replaced a commit unseen went out without a lease. */
  predicate Honest(e: Event) { OverwroteUnseen(e) ==> e.lease.None? }

  ghost predicate AllHonest(log: seq<Event>) { forall i :: 0 <= i < |log| ==> Honest(log[i]) }

  lemma {:induction false} PushStaysHonest(w: World, s: Session, token: Token)
    requires AllHonest(s.log)
    ensures AllHonest(DoPush(w, s, token).0.log)
  {
    assert Honest(DoPush(w, s, token).0.log[|s.log|]);
  }

  lemma {:induction false} FetchStaysHonest(w: World, s: Session)
    requires AllHonest(s.log)
    ensures AllHonest(DoFetch(w, s).0.log)
  {
    assert DoFetch(w, s).0.log[|s.log|].Fetch?;
  }

  lemma {:induction false} VerifiedPushStaysHonest(w: World, s: Session, token: Token)
    requires AllHonest(s.log)
    ensures AllHonest(VerifiedPush(w, s, token).0.log)
  {
    PushStaysHonest(w, s, token);
    FetchStaysHonest(w, DoPush(w, s, token).0);
  }

  /** Over whole runs, retries included: whatever the others do, only a push made without a tracking ref
      replaces a commit it has not read. */
  lemma {:induction false} OnlyUnleasedPushesOverwriteUnseen(w: World, s: Session)
    requires s.log == []
    ensures AllHonest(GitPush(w, s).0.log)
  {
    var (s0, token) := GetToken(w, s);
    FetchStaysHonest(w, s0);
    var (s1, fetched) := DoFetch(w, s0);
    if !fetched.FetchFailed? {
      VerifiedPushStaysHonest(w, s1, token);
      var (s2, outcome) := VerifiedPush(w, s1, token);
      if outcome.NotLanded? {
        VerifiedPushStaysHonest(w, s2, token);
      } else if outcome.PushAuthError? {
        VerifiedPushStaysHonest(w, GetToken(w, Record(s2, TokensCleared)).0, w.tokens(s2.tokenCalls));
      }
    }
  }

  ghost predicate AllSeen(log: seq<Event>) { forall i :: 0 <= i < |log| ==> !OverwroteUnseen(log[i]) }

  lemma {:induction false} LeasedPushSees(w: World, s: Session, token: Token)
    requires AllSeen(s.log) && s.tracking.Some?
    ensures var after := DoPush(w, s, token).0; AllSeen(after.log) && after.tracking.Some?
  {
    assert !OverwroteUnseen(DoPush(w, s, token).0.log[|s.log|]);
  }

  lemma {:induction false} FetchSees(w: World, s: Session)
    requires AllSeen(s.log)
    ensures var after := DoFetch(w, s).0; AllSeen(after.log) && (s.tracking.Some? ==> after.tracking.Some?)
  {
    assert DoFetch(w, s).0.log[|s.log|].Fetch?;
  }

  lemma {:induction false} VerifiedPushSees(w: World, s: Session, token: Token)
    requires AllSeen(s.log) && s.tracking.Some?
    ensures var after := VerifiedPush(w, s, token).0; AllSeen(after.log) && after.tracking.Some?
  {
    LeasedPushSees(w, s, token);
    FetchSees(w, DoPush(w, s, token).0);
  }

  lemma {:induction false} TrackedRunSees(w: World, s: Session)
    requires AllSeen(s.log) && s.tracking.Some?
    ensures AllSeen(GitPush(w, s).0.log)
  {
    var (s0, token) := GetToken(w, s);
    FetchSees(w, s0);
    var (s1, fetched) := DoFetch(w, s0);
    if !fetched.FetchFailed? {
      VerifiedPushSees(w, s1, token);
      var (s2, outcome) := VerifiedPush(w, s1, token);
      if outcome.NotLanded? {
        VerifiedPushSees(w, s2, token);
      } else if outcome.PushAuthError? {
        VerifiedPushSees(w, GetToken(w, Record(s2, TokensCleared)).0, w.tokens(s2.tokenCalls));
      }
    }
  }

  /** The branch is missing when the tool fetches, and there with somebody's commit when it pushes. */
  function AppearingBranch(start: nat, foreign: Sha): World {
    World(n => if n == start then Env(Moved(None), Works, true)
               else if n == start + 1 then Env(Moved(Some(foreign)), Works, true)
               else Env(Quiet, Works, true),
          n => None)
  }

  lemma {:induction false} LogGrows(w: World, s: Session, token: Token)
    ensures s.log <= VerifiedPush(w, s, token).0.log
  {
  }

  /** Without a tracking ref the forced push replaces the commit of a branch that has just appeared. */
  lemma {:induction false} AppearingBranchIsOverwritten(s: Session, foreign: Sha)
    requires s.log == [] && s.tracking.None? && foreign != s.head
    ensures var (after, outcome) := GitPush(AppearingBranch(s.clock, foreign), s);
      outcome.PushOk? && |after.log| > 1 && after.log[1] == Push(None, None, Some(foreign), Landed)
  {
    var w := AppearingBranch(s.clock, foreign);
    var s1 := DoFetch(w, GetToken(w, s).0).0;
    assert s1 == s.(tokenCalls := s.tokenCalls + 1, clock := s.clock + 1, remote := None,
                    log := [Fetch(NoSuchRef, None)]);
    var s2 := DoPush(w, s1, None).0;
    assert s2.log == [Fetch(NoSuchRef, None), Push(None, None, Some(foreign), Landed)];
    LogGrows(w, s1, None);
    assert VerifiedPush(w, s1, None) == Verify(w, s2);
  }

  /** From any state, no push of the whole run, retries included, replaces a commit that was never read, whatever
      the others and the network do, if and only if there is a tracking ref to begin with. */
  lemma {:induction false} NothingOverwrittenUnseenExactly(s: Session)
    requires s.log == []
    ensures (forall w: World :: AllSeen(GitPush(w, s).0.log)) <==> s.tracking.Some?
  {
    if s.tracking.Some? {
      forall w: World
        ensures AllSeen(GitPush(w, s).0.log)
      {
        TrackedRunSees(w, s);
      }
    } else {
      var foreign := s.head + "'";
      AppearingBranchIsOverwritten(s, foreign);
      var log := GitPush(AppearingBranch(s.clock, foreign), s).0.log;
      assert OverwroteUnseen(log[1]);
      assert !AllSeen(log);
    }
  }

  /** The retry after a push that did not land is leased on what the verification just read, not on
      what the first fetch read; so it replaces a foreign commit exactly when it lands on one. */
  lemma {:induction false} RetryIsLeasedOnReread(w: World, s: Session, token: Token)
    requires VerifiedPush(w, s, token).1.NotLanded?
    ensures var s2 := VerifiedPush(w, s, token).0;
      var reread := s2.log[|s2.log| - 1].remote;
      var retry := DoPush(w, s2, token).0.log[|s2.log|];
      && retry.lease == s2.tracking
      && (reread.Some? ==>
            && retry.lease == reread && reread != Some(s.head)
            && (retry.pushed.Landed? ==> retry.found == reread))
  {
    var p1, r1 := PushAndVerifyLog(w, s, token);
  }

  /** The fetch reads `base`; the push exits with 0 without landing; then others push `foreign`. */
  function RacingWorld(start: nat, base: Sha, foreign: Sha): World {
    World(n => if n == start then Env(Moved(Some(base)), Works, true)
               else if n == start + 1 then Env(Quiet, ExitsUnmoved, true)
               else if n == start + 2 then Env(Moved(Some(foreign)), Works, true)
               else Env(Quiet, Works, true),
          n => None)
  }

  /** From every state, and for all commits, there is a run in which the retry replaces a commit that somebody
      pushed after the first fetch, and that reports success: a tracking ref does not protect from it. */
  lemma {:induction false} RetryCanReplaceForeignCommit(s: Session, base: Sha, foreign: Sha)
    requires s.log == [] && foreign != s.head
    ensures var (after, outcome) := GitPush(RacingWorld(s.clock, base, foreign), s);
      && outcome.PushOk?
      && |after.log| == 7 && after.log[0] == Fetch(Fetched, Some(base))
      && after.log[4] == Push(None, Some(foreign), Some(foreign), Landed)
  {
    var w := RacingWorld(s.clock, base, foreign);
    var (s1, fetched) := DoFetch(w, GetToken(w, s).0);
    assert s1.tracking == s1.remote == Some(base) && s1.log == [Fetch(Fetched, Some(base))] && s1.clock == s.clock + 1;
    var (s2, outcome) := VerifiedPush(w, s1, None);
    RaceIsLost(w, s1, foreign);
    var (s3, retry) := VerifiedPush(w, s2, None);
    RetryLands(w, s2, foreign);
  }

  lemma {:induction false} RaceIsLost(w: World, s: Session, foreign: Sha)
    requires s.tracking.Some? && s.remote == s.tracking && foreign != s.head
    requires w.steps(s.clock) == Env(Quiet, ExitsUnmoved, true)
    requires w.steps(s.clock + 1) == Env(Moved(Some(foreign)), Works, true)
    ensures var (after, outcome) := VerifiedPush(w, s, None);
      && outcome.NotLanded? && after.tracking == after.remote == Some(foreign)
      && after.head == s.head && after.clock == s.clock + 2 && after.tokenCalls == s.tokenCalls
      && |after.log| == |s.log| + 3 && s.log <= after.log
  {
    var s1 := DoPush(w, s, None).0;
    assert s1.clock == s.clock + 1 && s1.tracking == s.tracking && |s1.log| == |s.log| + 1;
    assert VerifiedPush(w, s, None) == Verify(w, s1);
  }

  lemma {:induction false} RetryLands(w: World, s: Session, foreign: Sha)
    requires s.tracking == s.remote == Some(foreign) && foreign != s.head
    requires w.steps(s.clock) == w.steps(s.clock + 1) == Env(Quiet, Works, true)
    ensures var (after, outcome) := VerifiedPush(w, s, None);
      && outcome.PushOk? && |after.log| == |s.log| + 3 && s.log <= after.log
      && after.log[|s.log|] == Push(None, Some(foreign), Some(foreign), Landed)
  {
    var s1 := DoPush(w, s, None).0;
    assert s1.clock == s.clock + 1 && s1.remote == Some(s.head);
    assert s1.log == s.log + [Push(None, Some(foreign), Some(foreign), Landed)];
    assert VerifiedPush(w, s, None) == Verify(w, s1);
  }
}
