/**
  The progress watchdog as a timed step system: the watching loop and the signalling tools interleave
  freely, and time passes at every program point.
*/
module Watchdog {
  /** `slack` is the time one statement may take, and how late a wait may end. */
  datatype Config = Config(timeout: int, poll: real, slack: real)

  /** The program points of the loop: about to read the clock; about to test the remaining time; waiting;
      about to test the flag, to clear it, and to set the new deadline. */
  datatype Phase =
    | Checking
    | Measured(remaining: real)
    | Waiting(wake: real)
    | Woken
    | SawSignal
    | Cleared
    | TimedOut
    | Returned

  /** `entered` is when the program point was reached. `signals` lists the times of all signals; `cleared` and
      `marked` count those before the last clear and the last deadline reset. `checkedAt` is the last test of
      the flag since that reset, or the reset if there was none, `checked` the number of signals before it, and
      `rounds` the number of tests since the reset. `since` is the last time at which a signal not yet seen
      may have begun to wait. */
  datatype State = State(
    now: real,
    deadline: real,
    flag: bool,
    phase: Phase,
    entered: real,
    start: real,
    reset: real,
    since: real,
    checkedAt: real,
    signals: seq<real>,
    cleared: nat,
    marked: nat,
    checked: nat,
    rounds: nat)

  datatype Action = Signal | Tick(d: real) | Finish | Advance

  function Max(a: real, b: real): real { if a < b then b else a }

  function Min(a: real, b: real): real { if a < b then a else b }

  function Poll(cfg: Config): real { Max(0.0, cfg.poll) }

  function Init(cfg: Config, now: real): State {
    State(now, now + cfg.timeout as real, false, Checking, now, now, now, now, now, [], 0, 0, 0, 0)
  }

  predicate Stopped(s: State) { s.phase.TimedOut? || s.phase.Returned? }

  /** When the program point has to be left. */
  function Latest(cfg: Config, s: State): real {
    (if s.phase.Waiting? then Max(s.entered, s.phase.wake) else s.entered) + cfg.slack
  }

  /** One step; an action that is not possible leaves the state as it is. */
  function Step(cfg: Config, s: State, a: Action): State {
    if Stopped(s) then s
    else
      match a
      case Signal => s.(flag := true, signals := s.signals + [s.now])
      case Tick(d) => if d >= 0.0 && s.now + d <= Latest(cfg, s) then s.(now := s.now + d) else s
      case Finish => if s.phase.Waiting? then s.(phase := Returned) else s
      case Advance => Loop(cfg, s)
  }

  function At(s: State, phase: Phase): State { s.(phase := phase, entered := s.now) }

  /** The next step of the watching loop. */
  function Loop(cfg: Config, s: State): State {
    match s.phase
    case Checking => At(s, Measured(s.deadline - s.now))
    case Measured(remaining) =>
      if remaining <= 0.0 then At(s, TimedOut) else At(s, Waiting(s.now + Max(0.0, Min(cfg.poll, remaining))))
    case Waiting(wake) => if s.now >= wake then At(s, Woken) else s
    case Woken =>
      if s.flag then At(s, SawSignal)
      else At(s, Checking).(since := s.now, checkedAt := s.now, checked := |s.signals|, rounds := s.rounds + 1)
    case SawSignal => At(s, Cleared).(flag := false, since := s.now, cleared := |s.signals|)
    case Cleared =>
      At(s, Checking).(deadline := s.now + cfg.timeout as real, reset := s.now, marked := |s.signals|,
                       checkedAt := s.now, checked := |s.signals|, rounds := 0)
    case _ => s
  }

  function Run(cfg: Config, s: State, actions: seq<Action>): State {
    if actions == [] then s
    else Step(cfg, Run(cfg, s, actions[..|actions| - 1]), actions[|actions| - 1])
  }

  /** The state after some run. */
  ghost predicate Reachable(cfg: Config, s: State) {
    exists now, actions :: s == Run(cfg, Init(cfg, now), actions)
  }

  lemma {:induction false} StepIsReachable(cfg: Config, s: State, a: Action)
    requires Reachable(cfg, s)
    ensures Reachable(cfg, Step(cfg, s, a))
  {
    var now, actions :| s == Run(cfg, Init(cfg, now), actions);
    assert (actions + [a])[..|actions|] == actions;
    assert Step(cfg, s, a) == Run(cfg, Init(cfg, now), actions + [a]);
  }

  function LastSignal(s: State): real {
    if s.signals == [] then s.start else s.signals[|s.signals| - 1]
  }

  // ---- What every reachable state keeps ----

  /** What is known of the signals: a lowered flag means none since the last clear; those since the last reset
      came after the last test of the flag. */
  ghost predicate SignalsOk(s: State) {
    && s.cleared <= |s.signals| && s.marked <= |s.signals| && s.checked <= |s.signals|
    && (!s.phase.Cleared? ==> s.cleared <= s.marked)
    && (!s.flag ==> |s.signals| == s.cleared)
    && (!s.phase.Cleared? && !s.phase.SawSignal? ==> s.checked == s.marked)
    && (forall k :: 0 <= k < |s.signals| ==> s.signals[k] <= s.now)
    && (forall k :: 0 <= k < s.marked ==> s.signals[k] <= s.reset)
    && (forall k :: s.checked <= k < |s.signals| ==> s.signals[k] >= s.checkedAt)
  }

  /** When the program point was reached, seen from the time since which a signal may have been waiting. */
  function Allowed(cfg: Config, phase: Phase): real {
    match phase
    case Cleared => 1.0 * cfg.slack
    case Checking => 2.0 * cfg.slack
    case Measured(_) => 3.0 * cfg.slack
    case Waiting(_) => 4.0 * cfg.slack + Poll(cfg)
    case Woken => 5.0 * cfg.slack + Poll(cfg)
    case _ => 6.0 * cfg.slack + Poll(cfg)
  }

  /** The last signal and the time that may have passed since it. */
  predicate SignalTimesOk(cfg: Config, s: State) {
    var last := LastSignal(s);
    && s.start <= last <= s.now && s.start <= s.since <= s.entered <= s.now
    && s.reset <= last + 7.0 * cfg.slack + Poll(cfg)
    && (!Stopped(s) ==> s.entered <= s.since + Allowed(cfg, s.phase) - cfg.slack)
    && (!Stopped(s) ==> s.now <= s.since + Allowed(cfg, s.phase))
    && (s.phase.Waiting? ==> Max(s.entered, s.phase.wake) <= s.since + 3.0 * cfg.slack + Poll(cfg))
    && (s.phase.Checking? ==> s.entered <= s.since + cfg.slack)
    && (s.flag ==> last >= s.since)
    && (s.phase.SawSignal? ==> s.flag)
    && (s.phase.Cleared? ==> s.entered == s.since && s.since <= last + 6.0 * cfg.slack + Poll(cfg))
    && (!Stopped(s) ==> s.now <= Latest(cfg, s))
  }

  /** The time that may have passed since the deadline. */
  predicate DeadlineOk(cfg: Config, s: State) {
    var due := Max(s.reset, s.deadline);
    && s.deadline == s.reset + cfg.timeout as real && s.reset <= s.now && s.entered <= s.now
    && (!Stopped(s) ==> s.now <= Latest(cfg, s))
    && match s.phase
       case Checking => s.now <= due + 4.0 * cfg.slack && s.entered <= due + 3.0 * cfg.slack
       case Measured(remaining) =>
         s.entered == s.deadline - remaining && s.entered <= due + 4.0 * cfg.slack && s.now <= due + 5.0 * cfg.slack
       case Waiting(wake) => s.entered <= s.deadline + cfg.slack && wake <= s.deadline + cfg.slack
       case Woken => s.entered <= s.deadline + 2.0 * cfg.slack
       case SawSignal => s.entered <= s.deadline + 3.0 * cfg.slack
       case Cleared => s.entered <= s.deadline + 4.0 * cfg.slack
       case _ => s.now <= due + 5.0 * cfg.slack
  }

  /** Test after test of a lowered flag: each round waits the whole poll interval, unless it ends after the
      deadline, and takes four statements more at most. */
  predicate RoundsOk(cfg: Config, s: State) {
    var round := Poll(cfg) + 4.0 * cfg.slack;
    && s.reset <= s.checkedAt <= s.entered <= s.now
    && s.deadline == s.reset + cfg.timeout as real
    && s.checkedAt <= s.reset + Times(s.rounds, round)
    && (s.checkedAt < s.deadline ==> s.checkedAt >= s.reset + Times(s.rounds, Poll(cfg)))
    && (!Stopped(s) ==> s.now <= Latest(cfg, s))
    && match s.phase
       case Checking => s.entered == s.checkedAt
       case Measured(remaining) => s.entered <= s.checkedAt + cfg.slack && remaining == s.deadline - s.entered
       case Waiting(wake) =>
         && s.entered <= s.checkedAt + 2.0 * cfg.slack && wake <= s.checkedAt + 2.0 * cfg.slack + Poll(cfg)
         && s.entered <= wake && (wake >= s.checkedAt + Poll(cfg) || wake >= s.deadline)
       case Woken =>
         && s.entered <= s.checkedAt + 3.0 * cfg.slack + Poll(cfg)
         && (s.entered >= s.checkedAt + Poll(cfg) || s.entered >= s.deadline)
       case TimedOut => s.deadline <= s.checkedAt + cfg.slack
       case _ => true
  }

  /** `x` added `n` times. */
  function Times(n: nat, x: real): real { if n == 0 then 0.0 else Times(n - 1, x) + x }

  lemma {:induction false} StepKeepsSignals(cfg: Config, s: State, a: Action)
    requires SignalsOk(s) && s.checkedAt <= s.now && s.reset <= s.now
    ensures SignalsOk(Step(cfg, s, a))
  {
  }

  lemma {:induction false} WaitKeepsSignalTimes(cfg: Config, s: State)
    requires SignalTimesOk(cfg, s) && cfg.slack >= 0.0 && (s.phase.Checking? || s.phase.Measured? || s.phase.Waiting?)
    ensures SignalTimesOk(cfg, Loop(cfg, s))
  {
  }

  lemma {:induction false} TestKeepsSignalTimes(cfg: Config, s: State)
    requires SignalTimesOk(cfg, s) && cfg.slack >= 0.0 && (s.phase.Woken? || s.phase.SawSignal? || s.phase.Cleared?)
    ensures SignalTimesOk(cfg, Loop(cfg, s))
  {
  }

  lemma {:induction false} StepKeepsSignalTimes(cfg: Config, s: State, a: Action)
    requires SignalTimesOk(cfg, s) && cfg.slack >= 0.0
    ensures SignalTimesOk(cfg, Step(cfg, s, a))
  {
    match a
    case Advance =>
      if s.phase.Checking? || s.phase.Measured? || s.phase.Waiting? {
        WaitKeepsSignalTimes(cfg, s);
      } else if !Stopped(s) {
        TestKeepsSignalTimes(cfg, s);
      }
    case Signal =>
    case Tick(_) =>
    case Finish =>
  }

  lemma {:induction false} WaitKeepsDeadline(cfg: Config, s: State)
    requires DeadlineOk(cfg, s) && cfg.slack >= 0.0 && (s.phase.Checking? || s.phase.Measured? || s.phase.Waiting?)
    ensures DeadlineOk(cfg, Loop(cfg, s))
  {
  }

  lemma {:induction false} TestKeepsDeadline(cfg: Config, s: State)
    requires DeadlineOk(cfg, s) && cfg.slack >= 0.0 && (s.phase.Woken? || s.phase.SawSignal? || s.phase.Cleared?)
    ensures DeadlineOk(cfg, Loop(cfg, s))
  {
  }

  lemma {:induction false} StepKeepsDeadline(cfg: Config, s: State, a: Action)
    requires DeadlineOk(cfg, s) && cfg.slack >= 0.0
    ensures DeadlineOk(cfg, Step(cfg, s, a))
  {
    match a
    case Advance =>
      if s.phase.Checking? || s.phase.Measured? || s.phase.Waiting? {
        WaitKeepsDeadline(cfg, s);
      } else if !Stopped(s) {
        TestKeepsDeadline(cfg, s);
      }
    case Signal =>
    case Tick(_) =>
    case Finish =>
  }

  /** One more round, between the shortest and the longest. */
  lemma {:induction false} AnotherRound(cfg: Config, s: State)
    requires RoundsOk(cfg, s) && cfg.slack >= 0.0 && s.phase.Woken?
    ensures s.now <= s.reset + Times(s.rounds + 1, Poll(cfg) + 4.0 * cfg.slack)
    ensures s.now < s.deadline ==> s.now >= s.reset + Times(s.rounds + 1, Poll(cfg))
  {
  }

  lemma {:induction false} TestKeepsRounds(cfg: Config, s: State)
    requires RoundsOk(cfg, s) && cfg.slack >= 0.0 && s.phase.Woken?
    ensures RoundsOk(cfg, Loop(cfg, s))
  {
    AnotherRound(cfg, s);
  }

  lemma {:induction false} MeasuredKeepsRounds(cfg: Config, s: State)
    requires RoundsOk(cfg, s) && cfg.slack >= 0.0 && s.phase.Measured?
    ensures RoundsOk(cfg, Loop(cfg, s))
  {
  }

  lemma {:induction false} LoopKeepsRounds(cfg: Config, s: State)
    requires RoundsOk(cfg, s) && cfg.slack >= 0.0 && !s.phase.Woken? && !s.phase.Measured?
    ensures RoundsOk(cfg, Loop(cfg, s))
  {
  }

  lemma {:induction false} StepKeepsRounds(cfg: Config, s: State, a: Action)
    requires RoundsOk(cfg, s) && cfg.slack >= 0.0
    ensures RoundsOk(cfg, Step(cfg, s, a))
  {
    match a
    case Advance =>
      match s.phase {
        case Woken => TestKeepsRounds(cfg, s);
        case Measured(_) => MeasuredKeepsRounds(cfg, s);
        case _ => LoopKeepsRounds(cfg, s);
      }
    case Signal =>
    case Tick(_) =>
    case Finish =>
  }

  ghost predicate Kept(cfg: Config, s: State) {
    SignalsOk(s) && SignalTimesOk(cfg, s) && DeadlineOk(cfg, s) && RoundsOk(cfg, s)
  }

  lemma {:induction false} RunKeeps(cfg: Config, now: real, actions: seq<Action>)
    requires cfg.slack >= 0.0
    ensures Kept(cfg, Run(cfg, Init(cfg, now), actions))
  {
    if actions != [] {
      var n := |actions| - 1;
      var s := Run(cfg, Init(cfg, now), actions[..n]);
      RunKeeps(cfg, now, actions[..n]);
      StepKeepsSignals(cfg, s, actions[n]);
      StepKeepsSignalTimes(cfg, s, actions[n]);
      StepKeepsDeadline(cfg, s, actions[n]);
      StepKeepsRounds(cfg, s, actions[n]);
    }
  }

  lemma {:induction false} ReachableKeeps(cfg: Config, s: State)
    requires cfg.slack >= 0.0 && Reachable(cfg, s)
    ensures Kept(cfg, s)
  {
    var now, actions :| s == Run(cfg, Init(cfg, now), actions);
    RunKeeps(cfg, now, actions);
  }

  // ---- What a timeout means, and when it comes ----

  /** A timeout is raised only when the deadline has passed, and then every signal since the last reset came
      after the last test of the flag, which was at most one statement before the deadline. So no signal came
      between the reset and that time, even if signals land between the test of the flag and its clearing. */
  lemma {:induction false} TimeoutMeansSilentWindow(cfg: Config, s: State)
    requires cfg.slack >= 0.0 && Reachable(cfg, s) && s.phase.TimedOut?
    ensures s.deadline == s.reset + cfg.timeout as real && s.now >= s.deadline
    ensures s.checkedAt >= s.deadline - cfg.slack
    ensures forall k :: 0 <= k < |s.signals| ==>
      if k < s.checked then s.signals[k] <= s.reset else s.signals[k] >= s.checkedAt
  {
    ReachableKeeps(cfg, s);
    var now, actions :| s == Run(cfg, Init(cfg, now), actions);
    TimedOutLate(cfg, now, actions);
  }

  lemma {:induction false} TimedOutLate(cfg: Config, now: real, actions: seq<Action>)
    requires cfg.slack >= 0.0
    ensures var s := Run(cfg, Init(cfg, now), actions);
      s.phase.TimedOut? ==> s.now >= s.deadline
  {
    if actions != [] {
      var n := |actions| - 1;
      TimedOutLate(cfg, now, actions[..n]);
      RunKeeps(cfg, now, actions[..n]);
    }
  }

  /** A run that has stopped signalling is over within the timeout and one poll interval of its last signal
      and the time of the twelve statements that may lie between: at no reachable moment is it later. */
  lemma {:induction false} SilentRunIsKilledInTime(cfg: Config, s: State)
    requires cfg.slack >= 0.0 && Reachable(cfg, s)
    ensures s.now <= LastSignal(s) + Max(0.0, cfg.timeout as real) + Poll(cfg) + 12.0 * cfg.slack
  {
    ReachableKeeps(cfg, s);
  }

  // ---- Exactly when a signal before the deadline can be lost ----

  /** The run timed out although a signal came after the last reset and before the deadline. */
  ghost predicate Lost(s: State) {
    s.phase.TimedOut? && exists k :: s.marked <= k < |s.signals| && s.signals[k] < s.deadline
  }

  /** Some number of whole rounds ends before the deadline, but less than one statement before it. */
  ghost predicate CanLose(cfg: Config) { exists n: nat :: RoundsCanLose(cfg, n) }

  predicate RoundsCanLose(cfg: Config, n: nat) {
    && Times(n, Poll(cfg)) < cfg.timeout as real
    && cfg.timeout as real <= Times(n, Poll(cfg) + 4.0 * cfg.slack) + cfg.slack
  }

  lemma {:induction false} LostMeansCanLose(cfg: Config, s: State)
    requires cfg.slack >= 0.0 && Reachable(cfg, s) && Lost(s)
    ensures CanLose(cfg)
  {
    ReachableKeeps(cfg, s);
    var k :| s.marked <= k < |s.signals| && s.signals[k] < s.deadline;
    assert s.checked == s.marked && s.signals[k] >= s.checkedAt;
    assert RoundsCanLose(cfg, s.rounds);
  }

  /** After `n` rounds without a signal, each of its statements taking `e`. */
  function Quiet(cfg: Config, n: nat, e: real): State {
    var t := Times(n, Poll(cfg) + 4.0 * e);
    Init(cfg, 0.0).(now := t, entered := t, since := t, checkedAt := t, rounds := n)
  }

  /** Letting time pass and then taking the loop's next step. */
  lemma {:induction false} NextAfter(cfg: Config, s: State, d: real) returns (next: State)
    requires Reachable(cfg, s) && d >= 0.0 && s.now + d <= Latest(cfg, s) && !Stopped(s)
    ensures next == Loop(cfg, s.(now := s.now + d)) && Reachable(cfg, next)
  {
    StepIsReachable(cfg, s, Tick(d));
    StepIsReachable(cfg, Step(cfg, s, Tick(d)), Advance);
    next := Step(cfg, Step(cfg, s, Tick(d)), Advance);
  }

  /** From a quiet state to the end of its next wait. */
  lemma {:induction false} QuietWait(cfg: Config, n: nat, e: real) returns (woken: State)
    requires 0.0 <= e <= cfg.slack && Times(n + 1, Poll(cfg) + 4.0 * e) < cfg.timeout as real
    requires Reachable(cfg, Quiet(cfg, n, e))
    ensures var t := Times(n + 1, Poll(cfg) + 4.0 * e) - e;
      Reachable(cfg, woken) && woken == At(Quiet(cfg, n, e).(now := t), Woken)
  {
    var measured := NextAfter(cfg, Quiet(cfg, n, e), e);
    var waiting := NextAfter(cfg, measured, e);
    assert waiting.phase == Waiting(waiting.now + Poll(cfg));
    woken := NextAfter(cfg, waiting, Poll(cfg) + e);
  }

  lemma {:induction false} OneQuietRound(cfg: Config, n: nat, e: real)
    requires 0.0 <= e <= cfg.slack && Times(n + 1, Poll(cfg) + 4.0 * e) < cfg.timeout as real
    requires Reachable(cfg, Quiet(cfg, n, e))
    ensures Reachable(cfg, Quiet(cfg, n + 1, e))
  {
    var woken := QuietWait(cfg, n, e);
    var next := NextAfter(cfg, woken, e);
    assert next == Quiet(cfg, n + 1, e);
  }

  lemma {:induction false} QuietRounds(cfg: Config, n: nat, e: real)
    requires 0.0 <= e <= cfg.slack && Times(n, Poll(cfg) + 4.0 * e) < cfg.timeout as real
    ensures Reachable(cfg, Quiet(cfg, n, e))
  {
    if n == 0 {
      assert Quiet(cfg, 0, e) == Run(cfg, Init(cfg, 0.0), []);
    } else {
      QuietRounds(cfg, n - 1, e);
      OneQuietRound(cfg, n - 1, e);
    }
  }

  /** A signal right after the last test, then one slow statement up to the deadline. */
  lemma {:induction false} LoseSignal(cfg: Config, n: nat, e: real)
    requires 0.0 <= e <= cfg.slack
    requires var t := Times(n, Poll(cfg) + 4.0 * e); t < cfg.timeout as real <= t + cfg.slack
    ensures exists s :: Reachable(cfg, s) && Lost(s)
  {
    QuietRounds(cfg, n, e);
    var s := Quiet(cfg, n, e);
    var signalled := Step(cfg, s, Signal);
    StepIsReachable(cfg, s, Signal);
    var measured := NextAfter(cfg, signalled, s.deadline - s.now);
    var over := NextAfter(cfg, measured, 0.0);
    assert over.phase.TimedOut? && over.signals == [s.now] && over.signals[0] < over.deadline;
    assert Lost(over);
  }

  lemma {:induction false} TimesIs(n: nat, x: real)
    ensures Times(n, x) == n as real * x
  {
    if n > 0 {
      TimesIs(n - 1, x);
      assert n as real * x == (n - 1) as real * x + x;
    }
  }

  /** The delay of one statement for which `n` rounds end at `t`. */
  lemma {:induction false} EvenDelay(n: nat, poll: real, slack: real, t: real) returns (e: real)
    requires slack >= 0.0 && Times(n, poll) <= t <= Times(n, poll + 4.0 * slack)
    ensures 0.0 <= e <= slack && Times(n, poll + 4.0 * e) == t
  {
    TimesIs(n, poll);
    TimesIs(n, poll + 4.0 * slack);
    if n == 0 {
      e := 0.0;
    } else {
      var m := n as real;
      e := (t - m * poll) / (4.0 * m);
      TimesIs(n, poll + 4.0 * e);
      DelayFits(m, poll, slack, t, e);
    }
  }

  lemma {:induction false} DelayFits(m: real, poll: real, slack: real, t: real, e: real)
    requires m >= 1.0 && e == (t - m * poll) / (4.0 * m) && m * poll <= t <= m * (poll + 4.0 * slack)
    ensures 0.0 <= e <= slack && m * (poll + 4.0 * e) == t
  {
    var rest := t - m * poll;
    assert e * (4.0 * m) == rest;
    assert m * (poll + 4.0 * e) == m * poll + e * (4.0 * m);
    assert m * (poll + 4.0 * slack) == m * poll + slack * (4.0 * m);
    NotMore(0.0, e, 4.0 * m);
    NotMore(e, slack, 4.0 * m);
  }

  lemma {:induction false} NotMore(a: real, b: real, m: real)
    requires m > 0.0 && a * m <= b * m
    ensures a <= b
  {
    assert a > b ==> (a - b) * m > 0.0;
  }

  /** A run can time out although a signal came after the last reset and before the deadline exactly when
      some number of rounds can end less than one statement before the deadline. */
  lemma {:induction false} SignalCanBeLostExactly(cfg: Config)
    requires cfg.slack >= 0.0
    ensures (exists s :: Reachable(cfg, s) && Lost(s)) <==> CanLose(cfg)
  {
    if s :| Reachable(cfg, s) && Lost(s) {
      LostMeansCanLose(cfg, s);
    }
    if CanLose(cfg) {
      var n: nat :| RoundsCanLose(cfg, n);
      TestJustBefore(cfg, n);
    }
  }

  lemma {:induction false} TestJustBefore(cfg: Config, n: nat)
    requires cfg.slack >= 0.0 && RoundsCanLose(cfg, n)
    ensures exists s :: Reachable(cfg, s) && Lost(s)
  {
    SlackIsNeeded(cfg, n);
    MoreDelay(n, Poll(cfg), Poll(cfg) + 4.0 * cfg.slack);
    var t := Max(Times(n, Poll(cfg)), cfg.timeout as real - cfg.slack);
    var e := EvenDelay(n, Poll(cfg), cfg.slack, t);
    LoseSignal(cfg, n, e);
  }

  lemma {:induction false} MoreDelay(n: nat, x: real, y: real)
    requires x <= y
    ensures Times(n, x) <= Times(n, y)
  {
    if n > 0 {
      MoreDelay(n - 1, x, y);
    }
  }

  lemma {:induction false} SlackIsNeeded(cfg: Config, n: nat)
    requires RoundsCanLose(cfg, n) && cfg.slack >= 0.0
    ensures cfg.slack > 0.0
  {
    assert cfg.slack == 0.0 ==> Poll(cfg) + 4.0 * cfg.slack == Poll(cfg);
  }

  /** Without delays, or with a poll interval of at least the timeout and faster statements, none is lost. */
  lemma {:induction false} NothingIsLost(cfg: Config)
    requires cfg.slack == 0.0 || (0.0 <= cfg.slack < cfg.timeout as real <= Poll(cfg))
    ensures !CanLose(cfg)
  {
    forall n: nat
      ensures !RoundsCanLose(cfg, n)
    {
      TimesIs(n, Poll(cfg));
      TimesIs(n, Poll(cfg) + 4.0 * cfg.slack);
      if n > 0 {
        NotLess(n, Poll(cfg));
      }
    }
  }

  lemma {:induction false} NotLess(n: nat, x: real)
    requires n >= 1 && x >= 0.0
    ensures n as real * x >= x
  {
    assert n as real * x == (n - 1) as real * x + x;
  }

  /** With a timeout of 5, a poll interval of 4 and statements that may take 1, a signal after the first
      test of the flag is lost. */
  lemma {:induction false} LostSignalExample()
    ensures CanLose(Config(5, 4.0, 1.0)) && !CanLose(Config(5, 5.0, 1.0))
  {
    var cfg := Config(5, 4.0, 1.0);
    assert Times(1, Poll(cfg)) == Times(0, Poll(cfg)) + 4.0;
    assert RoundsCanLose(cfg, 1);
    var slow := Config(5, 5.0, 1.0);
    forall n: nat
      ensures !RoundsCanLose(slow, n)
    {
      TimesIs(n, 5.0);
      TimesIs(n, 9.0);
    }
  }
}
