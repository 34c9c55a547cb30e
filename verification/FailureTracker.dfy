/** `PeriodicResolutionFailureTracker`: consecutive failures per file across discovery cycles. */
module FailureTracker {
  datatype Failure = Failure(path: string, reason: string)

  /** The paths that failed in one cycle. */
  function Paths(failures: seq<Failure>): set<string> {
    set f | f in failures :: f.path
  }

  /** How many cycles in a row, up to the last, the file has been failing. */
  function Streak(history: seq<set<string>>, path: string): nat {
    if history == [] || path !in history[|history| - 1] then 0
    else 1 + Streak(history[..|history| - 1], path)
  }

  /** The last failure of each path. */
  function Latest(failures: seq<Failure>): (m: map<string, Failure>)
    ensures m.Keys == Paths(failures)
    ensures forall p :: p in m ==> m[p] in failures && m[p].path == p
  {
    if failures == [] then map[]
    else
      var n := |failures| - 1;
      assert failures == failures[..n] + [failures[n]];
      Latest(failures[..n])[failures[n].path := failures[n]]
  }

  predicate NoRepeats(keys: seq<string>) {
    forall i, j :: 0 <= i < j < |keys| ==> keys[i] != keys[j]
  }

  /** The order of a `dict`: each path once, where it first occurs. */
  function Keys(failures: seq<Failure>): (keys: seq<string>)
    ensures NoRepeats(keys)
    ensures forall p :: p in keys <==> p in Paths(failures)
  {
    if failures == [] then []
    else
      var n := |failures| - 1;
      assert failures == failures[..n] + [failures[n]];
      var keys := Keys(failures[..n]);
      if failures[n].path in keys then keys else keys + [failures[n].path]
  }

  /** The keys in the set, in order. */
  function Select(keys: seq<string>, due: set<string>): (out: seq<string>)
    ensures forall p :: p in out <==> p in keys && p in due
  {
    if keys == [] then []
    else
      var n := |keys| - 1;
      assert keys == keys[..n] + [keys[n]];
      Select(keys[..n], due) + if keys[n] in due then [keys[n]] else []
  }

  function Pick(keys: seq<string>, latest: map<string, Failure>): (out: seq<Failure>)
    requires forall p :: p in keys ==> p in latest
    ensures |out| == |keys| && forall i :: 0 <= i < |out| ==> out[i] == latest[keys[i]]
  {
    seq(|keys|, i requires 0 <= i < |keys| => latest[keys[i]])
  }

  /** The files among `paths` whose streak is exactly the threshold. */
  function Crossing(history: seq<set<string>>, paths: set<string>, threshold: nat): set<string> {
    set p | p in paths && Streak(history, p) == threshold
  }

  /** The count after one more failure. */
  function Next(counts: map<string, nat>, p: string): nat {
    (if p in counts then counts[p] else 0) + 1
  }

  /** Counting the keys one by one: the counts, the reported files, and the keys reported on the way. */
  function Tally(threshold: nat, counts: map<string, nat>, reported: set<string>, keys: seq<string>)
    : (map<string, nat>, set<string>, seq<string>)
  {
    if keys == [] then (counts, reported, [])
    else
      var key := keys[|keys| - 1];
      var (c, r, out) := Tally(threshold, counts, reported, keys[..|keys| - 1]);
      if Next(c, key) >= threshold && key !in r then (c[key := Next(c, key)], r + {key}, out + [key])
      else (c[key := Next(c, key)], r, out)
  }

  /** Without repeats every key is counted once. */
  lemma {:induction false} TallyCounts(threshold: nat, counts: map<string, nat>, reported: set<string>,
                                       keys: seq<string>)
    requires NoRepeats(keys)
    ensures var c := Tally(threshold, counts, reported, keys).0;
      && (forall p :: p in c <==> p in counts || p in keys)
      && (forall p :: p in c ==> c[p] == if p in keys then Next(counts, p) else counts[p])
  {
    if keys != [] {
      var n := |keys| - 1;
      assert keys == keys[..n] + [keys[n]];
      TallyCounts(threshold, counts, reported, keys[..n]);
    }
  }

  /** Without repeats a key is reported when its own count calls for it. */
  lemma {:induction false} TallyReports(threshold: nat, counts: map<string, nat>, reported: set<string>,
                                        keys: seq<string>)
    requires NoRepeats(keys)
    ensures var (c, r, out) := Tally(threshold, counts, reported, keys);
      && (forall p :: p in r <==> p in reported || (p in keys && Next(counts, p) >= threshold))
      && out == Select(keys, Ready(threshold, counts, reported, keys))
  {
    if keys != [] {
      var n := |keys| - 1;
      var front, key := keys[..n], keys[n];
      assert keys == front + [key] && key !in front;
      TallyCounts(threshold, counts, reported, front);
      TallyReports(threshold, counts, reported, front);
      assert Next(Tally(threshold, counts, reported, front).0, key) == Next(counts, key);
      SelectSame(front, Ready(threshold, counts, reported, front), Ready(threshold, counts, reported, keys));
    }
  }

  /** The listed files whose next count reaches the threshold and that were not reported. */
  function Ready(threshold: nat, counts: map<string, nat>, reported: set<string>, keys: seq<string>): set<string> {
    set p | p in keys && Next(counts, p) >= threshold && p !in reported
  }

  lemma {:induction false} SelectSame(keys: seq<string>, a: set<string>, b: set<string>)
    requires forall p :: p in keys ==> (p in a <==> p in b)
    ensures Select(keys, a) == Select(keys, b)
  {
    if keys != [] {
      var n := |keys| - 1;
      assert keys == keys[..n] + [keys[n]];
      SelectSame(keys[..n], a, b);
    }
  }

  /** The class invariant, on values. */
  ghost predicate Tracks(threshold: nat, history: seq<set<string>>, counts: map<string, nat>, reported: set<string>) {
    && threshold >= 1
    && (forall p :: p in counts <==> Streak(history, p) > 0)
    && (forall p :: p in counts ==> counts[p] == Streak(history, p))
    && (forall p :: p in reported <==> Streak(history, p) >= threshold)
  }

  lemma StreakNext(history: seq<set<string>>, now: set<string>, p: string)
    ensures Streak(history + [now], p) == if p in now then 1 + Streak(history, p) else 0
  {
    assert (history + [now])[..|history|] == history;
  }

  /** Dropping what did not fail and tallying what did keeps the fields equal to the streaks, and reports
      exactly the streaks that have just reached the threshold. */
  lemma CycleTracks(threshold: nat, history: seq<set<string>>, counts: map<string, nat>, reported: set<string>,
                    keys: seq<string>)
    requires Tracks(threshold, history, counts, reported) && NoRepeats(keys)
    ensures var now := set p | p in keys;
      var (c, r, out) := Tally(threshold, map p | p in counts && p in now :: counts[p], reported * now, keys);
      Tracks(threshold, history + [now], c, r) && out == Select(keys, Crossing(history + [now], now, threshold))
  {
    var now := set p | p in keys;
    var counts0 := map p | p in counts && p in now :: counts[p];
    TallyCounts(threshold, counts0, reported * now, keys);
    TallyReports(threshold, counts0, reported * now, keys);
    forall p
      ensures Streak(history + [now], p) == if p in now then Next(counts0, p) else 0
    {
      StreakNext(history, now, p);
    }
    SelectSame(keys, Crossing(history + [now], now, threshold),
               Ready(threshold, counts0, reported * now, keys));
  }

  class Tracker {
    const threshold: nat
    var counts: map<string, nat>
    var reported: set<string>
    /** What every cycle so far reported as failing. */
    ghost var history: seq<set<string>>

    /** The fields are exactly the current streaks and the files whose streak reached the threshold. */
    ghost predicate Valid()
      reads this
    {
      Tracks(threshold, history, counts, reported)
    }

    constructor (threshold: int)
      ensures Valid() && history == [] && this.threshold == if threshold < 1 then 1 else threshold
    {
      this.threshold := if threshold < 1 then 1 else threshold;
      counts, reported, history := map[], {}, [];
    }

    /** One cycle: what comes back is, in order, the latest failure of every file whose streak has just
        reached the threshold. */
    method Observe(failures: seq<Failure>) returns (toReport: seq<Failure>)
      requires Valid()
      modifies this
      ensures Valid() && history == old(history) + [Paths(failures)]
      ensures toReport == Pick(Select(Keys(failures), Crossing(history, Paths(failures), threshold)), Latest(failures))
    {
      var keys, current := Keys(failures), Latest(failures);
      assert (set p | p in keys) == Paths(failures);
      CycleTracks(threshold, history, counts, reported, keys);
      SelfMoot(current.Keys);
      toReport := Count(keys, current);
      history := history + [Paths(failures)];
    }

    /** Counts this cycle's failures and collects the ones to report. */
    method Count(keys: seq<string>, current: map<string, Failure>) returns (toReport: seq<Failure>)
      requires NoRepeats(keys) && forall p :: p in keys ==> p in current
      modifies this`counts, this`reported
      ensures var (c, r, out) := Tally(threshold, old(counts), old(reported), keys);
        && counts == c && reported == r
        && (forall p :: p in out ==> p in current) && toReport == Pick(out, current)
    {
      ghost var out := [];
      toReport := [];
      for i := 0 to |keys|
        invariant (counts, reported, out) == Tally(threshold, old(counts), old(reported), keys[..i])
        invariant forall p :: p in out ==> p in current
        invariant toReport == Pick(out, current)
      {
        var key := keys[i];
        assert keys[..i + 1][..i] == keys[..i];
        assert key in keys;
        var count := (if key in counts then counts[key] else 0) + 1;
        counts := counts[key := count];
        if count >= threshold && key !in reported {
          reported := reported + {key};
          toReport := toReport + [current[key]];
          out := out + [key];
        }
      }
      assert keys[..|keys|] == keys;
    }

    /** Drops the files that did not fail this cycle from both fields. */
    method SelfMoot(current: set<string>)
      requires reported <= counts.Keys
      modifies this`counts, this`reported
      ensures counts == map p | p in old(counts) && p in current :: old(counts)[p]
      ensures reported == old(reported) * current
    {
      var left := counts.Keys;
      while left != {}
        invariant left <= old(counts).Keys
        invariant counts == map p | p in old(counts) && (p in left || p in current) :: old(counts)[p]
        invariant reported == set p | p in old(reported) && (p in left || p in current)
      {
        var key :| key in left;
        left := left - {key};
        if key !in current {
          counts := counts - {key};
          reported := reported - {key};
        }
      }
    }
  }

  /** A file is due for a report in the cycle its streak reaches the threshold. */
  predicate Due(history: seq<set<string>>, threshold: nat, path: string, cycle: nat)
    requires cycle < |history|
  {
    Streak(history[..cycle + 1], path) == threshold
  }

  /** The file failed in every cycle of `from..to`. */
  predicate FailsThroughout(history: seq<set<string>>, path: string, from: nat, to: nat)
    requires to <= |history|
  {
    forall i :: from <= i < to ==> path in history[i]
  }

  /** A streak of `n` is `n` failing cycles in a row with a break before them. */
  lemma {:induction false} StreakIs(history: seq<set<string>>, path: string, n: nat)
    requires n <= |history|
    ensures Streak(history, path) == n <==>
      FailsThroughout(history, path, |history| - n, |history|)
      && (n < |history| ==> path !in history[|history| - n - 1])
  {
    if history != [] {
      var shorter := history[..|history| - 1];
      if n > 0 {
        StreakIs(shorter, path, n - 1);
        if FailsThroughout(history, path, |history| - n, |history|) {
          assert FailsThroughout(shorter, path, |shorter| - (n - 1), |shorter|);
        }
        if path in history[|history| - 1] && FailsThroughout(shorter, path, |shorter| - (n - 1), |shorter|) {
          forall i | |history| - n <= i < |history|
            ensures path in history[i]
          {
            if i < |shorter| {
              assert shorter[i] == history[i];
            }
          }
        }
      }
    }
  }

  /** Failing cycles add up on the streak. */
  lemma {:induction false} StreakGrows(history: seq<set<string>>, path: string, a: nat, b: nat)
    requires a <= b <= |history| && FailsThroughout(history, path, a, b)
    ensures Streak(history[..b], path) == Streak(history[..a], path) + (b - a)
  {
    if a < b {
      StreakGrows(history, path, a, b - 1);
      assert history[..b][..b - 1] == history[..b - 1];
    }
  }

  /** Between two reports of a file there is a cycle in which it did not fail: it is reported once per
      streak, and again only after a break. */
  lemma ReportedOncePerStreak(history: seq<set<string>>, threshold: nat, path: string, first: nat, second: nat)
    requires threshold >= 1 && first < second < |history|
    requires Due(history, threshold, path, first) && Due(history, threshold, path, second)
    ensures exists i :: first < i < second && path !in history[i]
  {
    if forall i :: first < i < second ==> path in history[i] {
      assert history[..second + 1][second] == history[second];
      StreakGrows(history, path, first + 1, second + 1);
      assert false;
    }
  }

  /** A run of failures of any length at least the threshold is reported in exactly one cycle, the one
      that completes `threshold` failures. */
  lemma LongStreakIsReported(history: seq<set<string>>, threshold: nat, path: string, from: nat, to: nat)
    requires threshold >= 1 && from + threshold <= to <= |history|
    requires FailsThroughout(history, path, from, to) && (from > 0 ==> path !in history[from - 1])
    ensures forall cycle :: from <= cycle < to ==>
      (Due(history, threshold, path, cycle) <==> cycle == from + threshold - 1)
  {
    forall cycle | from <= cycle < to
      ensures Due(history, threshold, path, cycle) <==> cycle == from + threshold - 1
    {
      StreakIs(history[..cycle + 1], path, cycle + 1 - from);
    }
  }
}
