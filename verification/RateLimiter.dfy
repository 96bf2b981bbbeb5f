/** The sliding-window rate limiter, whose occasional sweep of stale entries must never show in its decisions. */
module RateLimiter {
  import opened Prelude

  type Time = int

  datatype Admission = Admission(key: string, at: Time)

  datatype Decision = Admitted | Refused(retryAfterSeconds: int)

  /** The filter the limiter applies to a key's timestamps. */
  function Recent(times: seq<Time>, cutoff: Time): seq<Time> {
    if times == [] then []
    else if times[0] > cutoff then [times[0]] + Recent(times[1..], cutoff)
    else Recent(times[1..], cutoff)
  }

  function TimesOf(history: seq<Admission>, key: string): seq<Time> {
    if history == [] then []
    else
      var last := history[|history| - 1];
      TimesOf(history[..|history| - 1], key) + if last.key == key then [last.at] else []
  }

  /** How many admissions of a key fall in the window (after, upTo]. */
  function CountIn(history: seq<Admission>, key: string, after: Time, upTo: Time): nat {
    if history == [] then 0
    else
      var last := history[|history| - 1];
      CountIn(history[..|history| - 1], key, after, upTo)
      + if last.key == key && after < last.at <= upTo then 1 else 0
  }

  /** The decision of a limiter that keeps every admission forever. */
  predicate MayAdmit(history: seq<Admission>, key: string, now: Time, limit: nat, windowMs: nat) {
    CountIn(history, key, now - windowMs, now) < limit
  }

  /** A history up to `clock`, at times that never go back, in which the unswept limiter agreed to every admission. */
  ghost predicate Decided(history: seq<Admission>, clock: Time, limit: nat, windowMs: nat) {
    history == [] ||
    var front, last := history[..|history| - 1], history[|history| - 1];
    last.at <= clock && MayAdmit(front, last.key, last.at, limit, windowMs) && Decided(front, last.at, limit, windowMs)
  }

  function RetryAfterSeconds(recent: seq<Time>, now: Time, windowMs: nat): int {
    var waitMs := if recent != [] && recent[0] != 0 then recent[0] + windowMs - now else windowMs;
    Max(1, CeilSeconds(waitMs))
  }

  function CeilSeconds(ms: int): int {
    (ms + 999) / 1000
  }

  function Kept(requests: map<string, seq<Time>>, key: string): seq<Time> {
    if key in requests then requests[key] else []
  }

  /** The stored timestamps answer every question about the window as the full history would. */
  ghost predicate Represents(requests: map<string, seq<Time>>, history: seq<Admission>, from: Time) {
    forall key :: RepresentsKey(requests, history, from, key)
  }

  ghost predicate RepresentsKey(requests: map<string, seq<Time>>, history: seq<Admission>, from: Time, key: string) {
    Recent(Kept(requests, key), from) == Recent(TimesOf(history, key), from)
  }

  class InMemoryRateLimiter {
    const limit: nat
    const windowMs: nat
    var requests: map<string, seq<Time>>
    var lastSweepAt: Time
    /** Every admission ever made, and the latest time a check was made at. */
    ghost var history: seq<Admission>
    ghost var clock: Time

    ghost predicate Valid()
      reads this
    {
      && 0 <= clock
      && Decided(history, clock, limit, windowMs)
      && Represents(requests, history, clock - windowMs)
    }

    constructor (limit: nat, windowMs: nat)
      ensures Valid() && this.limit == limit && this.windowMs == windowMs && history == [] && clock == 0
    {
      this.limit, this.windowMs := limit, windowMs;
      requests, lastSweepAt := map[], 0;
      history, clock := [], 0;
    }

    method Check(key: string, now: Time) returns (decision: Decision)
      requires Valid() && clock <= now
      modifies this
      ensures Valid() && clock == now
      ensures decision.Admitted? <==> MayAdmit(old(history), key, now, limit, windowMs)
      ensures history == if decision.Admitted? then old(history) + [Admission(key, now)] else old(history)
      ensures decision.Refused? ==>
                decision.retryAfterSeconds == RetryAfterSeconds(Recent(TimesOf(old(history), key), now - windowMs), now, windowMs)
    {
      LaterWindow(requests, history, clock - windowMs, now - windowMs);
      clock := now;
      Sweep(now);
      var recent := Recent(Kept(requests, key), now - windowMs);
      Counted(requests, history, key, now, limit, windowMs);
      if |recent| >= limit {
        requests := requests[key := recent];
        decision := Refused(RetryAfterSeconds(recent, now, windowMs));
      } else {
        Admits(requests, history, Admission(key, now), old(clock), limit, windowMs);
        requests := requests[key := recent + [now]];
        history := history + [Admission(key, now)];
        decision := Admitted;
      }
    }

    /** Forgets what has left the window; every later decision is as if it had not. */
    method Sweep(now: Time)
      requires Represents(requests, history, now - windowMs)
      modifies this`requests, this`lastSweepAt
      ensures Represents(requests, history, now - windowMs)
    {
      if now - lastSweepAt < windowMs {
        return;
      }
      var keys := requests.Keys;
      while keys != {}
        invariant Represents(requests, history, now - windowMs)
        invariant keys <= requests.Keys
      {
        var key :| key in keys;
        keys := keys - {key};
        var recent := Recent(requests[key], now - windowMs);
        FilterRepresents(requests, history, now - windowMs, key);
        if recent == [] {
          requests := requests - {key};
        } else {
          requests := requests[key := recent];
        }
      }
      lastSweepAt := now;
    }
  }

  lemma LaterWindow(requests: map<string, seq<Time>>, history: seq<Admission>, from: Time, later: Time)
    requires Represents(requests, history, from) && from <= later
    ensures Represents(requests, history, later)
  {
    forall key ensures RepresentsKey(requests, history, later, key) {
      assert RepresentsKey(requests, history, from, key);
      RecentTwice(Kept(requests, key), from, later);
      RecentTwice(TimesOf(history, key), from, later);
    }
  }

  /** Storing the filtered list, or nothing when it is empty, still represents the history. */
  lemma FilterRepresents(requests: map<string, seq<Time>>, history: seq<Admission>, from: Time, key: string)
    requires Represents(requests, history, from)
    ensures var recent := Recent(Kept(requests, key), from);
            && recent == Recent(TimesOf(history, key), from)
            && Represents(requests[key := recent], history, from)
            && (recent == [] ==> Represents(requests - {key}, history, from))
  {
    var recent := Recent(Kept(requests, key), from);
    assert RepresentsKey(requests, history, from, key);
    RecentTwice(Kept(requests, key), from, from);
    var filtered, dropped := requests[key := recent], requests - {key};
    forall k ensures RepresentsKey(filtered, history, from, k) {
      assert RepresentsKey(requests, history, from, k);
      assert Kept(filtered, k) == if k == key then recent else Kept(requests, k);
    }
    if recent == [] {
      forall k ensures RepresentsKey(dropped, history, from, k) {
        assert RepresentsKey(requests, history, from, k);
        assert Kept(dropped, k) == if k == key then [] else Kept(requests, k);
      }
    }
  }

  /** An admission appended to the filtered list represents the longer history. */
  lemma AdmitRepresents(requests: map<string, seq<Time>>, history: seq<Admission>, from: Time, e: Admission)
    requires Represents(requests, history, from)
    ensures Represents(requests[e.key := Recent(Kept(requests, e.key), from) + [e.at]], history + [e], from)
  {
    var recent := Recent(Kept(requests, e.key), from);
    RecentTwice(Kept(requests, e.key), from, from);
    RecentAppend(recent, e.at, from);
    RecentAppend(TimesOf(history, e.key), e.at, from);
    var admitted, longer := requests[e.key := recent + [e.at]], history + [e];
    forall k ensures RepresentsKey(admitted, longer, from, k) {
      assert RepresentsKey(requests, history, from, k);
      TimesOfAppend(history, e, k);
    }
  }

  /** What is left in the window after filtering decides as the whole history does. */
  lemma Counted(requests: map<string, seq<Time>>, history: seq<Admission>, key: string, now: Time, limit: nat, windowMs: nat)
    requires Represents(requests, history, now - windowMs) && Decided(history, now, limit, windowMs)
    ensures var recent := Recent(Kept(requests, key), now - windowMs);
            && recent == Recent(TimesOf(history, key), now - windowMs)
            && (|recent| < limit <==> MayAdmit(history, key, now, limit, windowMs))
            && Represents(requests[key := recent], history, now - windowMs)
  {
    FilterRepresents(requests, history, now - windowMs, key);
    RecentCounts(history, key, now - windowMs, now, limit, windowMs);
  }

  lemma Admits(requests: map<string, seq<Time>>, history: seq<Admission>, e: Admission, clock: Time, limit: nat, windowMs: nat)
    requires Represents(requests, history, e.at - windowMs)
    requires Decided(history, clock, limit, windowMs) && clock <= e.at && MayAdmit(history, e.key, e.at, limit, windowMs)
    ensures Represents(requests[e.key := Recent(Kept(requests, e.key), e.at - windowMs) + [e.at]], history + [e], e.at - windowMs)
    ensures Decided(history + [e], e.at, limit, windowMs)
  {
    AdmitRepresents(requests, history, e.at - windowMs, e);
    DecidedAppend(history, e, clock, limit, windowMs);
  }

  lemma DecidedAppend(history: seq<Admission>, e: Admission, clock: Time, limit: nat, windowMs: nat)
    requires Decided(history, clock, limit, windowMs) && clock <= e.at && MayAdmit(history, e.key, e.at, limit, windowMs)
    ensures Decided(history + [e], e.at, limit, windowMs)
  {
    assert (history + [e])[..|history|] == history;
  }

  // ----- the filter -----

  lemma {:induction false} RecentAppend(times: seq<Time>, at: Time, cutoff: Time)
    ensures Recent(times + [at], cutoff) == Recent(times, cutoff) + if at > cutoff then [at] else []
  {
    if times != [] {
      assert (times + [at])[1..] == times[1..] + [at];
      RecentAppend(times[1..], at, cutoff);
    }
  }

  /** Filtering first at an earlier cutoff does not change a later filter. */
  lemma {:induction false} RecentTwice(times: seq<Time>, earlier: Time, cutoff: Time)
    requires earlier <= cutoff
    ensures Recent(Recent(times, earlier), cutoff) == Recent(times, cutoff)
  {
    if times != [] {
      RecentTwice(times[1..], earlier, cutoff);
      if times[0] > earlier {
        assert Recent(times, earlier)[1..] == Recent(times[1..], earlier);
      }
    }
  }

  lemma TimesOfAppend(history: seq<Admission>, e: Admission, key: string)
    ensures TimesOf(history + [e], key) == if e.key == key then TimesOf(history, key) + [e.at] else TimesOf(history, key)
  {
    assert (history + [e])[..|history|] == history;
  }

  lemma {:induction false} RecentCounts(
    history: seq<Admission>, key: string, after: Time, now: Time, limit: nat, windowMs: nat)
    requires Decided(history, now, limit, windowMs)
    ensures |Recent(TimesOf(history, key), after)| == CountIn(history, key, after, now)
  {
    if history != [] {
      var front, last := history[..|history| - 1], history[|history| - 1];
      RecentCounts(front, key, after, now, limit, windowMs);
      RecentAppend(TimesOf(front, key), last.at, after);
      if last.key != key {
        assert TimesOf(history, key) == TimesOf(front, key);
      }
    }
  }

  // ----- the window -----

  lemma {:induction false} CountInWidens(
    history: seq<Admission>, key: string, after: Time, upTo: Time, from: Time, to: Time, limit: nat, windowMs: nat)
    requires Decided(history, to, limit, windowMs) && from <= after
    ensures CountIn(history, key, after, upTo) <= CountIn(history, key, from, to)
  {
    if history != [] {
      CountInWidens(history[..|history| - 1], key, after, upTo, from, to, limit, windowMs);
    }
  }

  /** No key is ever admitted more often than the limit in any window of the configured length. */
  lemma {:induction false} WindowIsBounded(
    history: seq<Admission>, clock: Time, key: string, t: Time, limit: nat, windowMs: nat)
    requires Decided(history, clock, limit, windowMs)
    ensures CountIn(history, key, t - windowMs, t) <= limit
  {
    if history != [] {
      var front, last := history[..|history| - 1], history[|history| - 1];
      WindowIsBounded(front, last.at, key, t, limit, windowMs);
      if last.key == key && t - windowMs < last.at <= t {
        CountInWidens(front, key, t - windowMs, t, last.at - windowMs, last.at, limit, windowMs);
      }
    }
  }

  // ----- the retry hint -----

  lemma FirstRecentLeaves(history: seq<Admission>, key: string, after: Time, later: Time)
    requires after <= later
    requires var recent := Recent(TimesOf(history, key), after); recent != [] && recent[0] <= later
    ensures |Recent(TimesOf(history, key), later)| < |Recent(TimesOf(history, key), after)|
  {
    var recent := Recent(TimesOf(history, key), after);
    RecentTwice(TimesOf(history, key), after, later);
    RecentShrinks(recent[1..], later);
  }

  lemma {:induction false} RecentShrinks(times: seq<Time>, cutoff: Time)
    ensures |Recent(times, cutoff)| <= |times|
  {
    if times != [] {
      RecentShrinks(times[1..], cutoff);
    }
  }

  lemma {:induction false} RecentIsRecent(times: seq<Time>, cutoff: Time)
    ensures forall i :: 0 <= i < |Recent(times, cutoff)| ==> Recent(times, cutoff)[i] > cutoff
  {
    if times != [] {
      RecentIsRecent(times[1..], cutoff);
    }
  }

  /**
   The retry hint is honoured: whoever waits that many seconds is admitted, provided nothing else of the key was
   admitted meanwhile, exactly when the limit admits anything at all.
   */
  lemma RetryHintIsHonoured(history: seq<Admission>, key: string, now: Time, t: Time, limit: nat, windowMs: nat)
    requires Decided(history, now, limit, windowMs) && 0 <= now
    requires !MayAdmit(history, key, now, limit, windowMs)
    requires now + 1000 * RetryAfterSeconds(Recent(TimesOf(history, key), now - windowMs), now, windowMs) <= t
    ensures MayAdmit(history, key, t, limit, windowMs) <==> limit > 0
  {
    if limit > 0 {
      RecentCounts(history, key, now - windowMs, now, limit, windowMs);
      WindowIsBounded(history, now, key, now, limit, windowMs);
      HintCoversTheWait(TimesOf(history, key), now, windowMs);
      AdmittedOnceTheFirstLeaves(history, key, now, t, limit, windowMs);
    }
  }

  lemma AdmittedOnceTheFirstLeaves(history: seq<Admission>, key: string, now: Time, t: Time, limit: nat, windowMs: nat)
    requires Decided(history, now, limit, windowMs) && now <= t
    requires |Recent(TimesOf(history, key), now - windowMs)| <= limit
    requires var recent := Recent(TimesOf(history, key), now - windowMs); recent != [] && recent[0] <= t - windowMs
    ensures MayAdmit(history, key, t, limit, windowMs)
  {
    FirstRecentLeaves(history, key, now - windowMs, t - windowMs);
    RecentCounts(history, key, t - windowMs, t, limit, windowMs);
  }

  lemma HintCoversTheWait(times: seq<Time>, now: Time, windowMs: nat)
    requires Recent(times, now - windowMs) != [] && 0 <= now
    ensures var recent := Recent(times, now - windowMs);
            0 < RetryAfterSeconds(recent, now, windowMs)
            && recent[0] + windowMs <= now + 1000 * RetryAfterSeconds(recent, now, windowMs)
  {
    RecentIsRecent(times, now - windowMs);
  }

  // ----- the hint is no longer than needed -----

  ghost predicate Ascending(times: seq<Time>) {
    forall i, j :: 0 <= i < j < |times| ==> times[i] <= times[j]
  }

  lemma {:induction false} TimesAscend(history: seq<Admission>, key: string, clock: Time, limit: nat, windowMs: nat)
    requires Decided(history, clock, limit, windowMs)
    ensures Ascending(TimesOf(history, key)) && forall t :: t in TimesOf(history, key) ==> t <= clock
  {
    if history != [] {
      var front, at := TimesOf(history[..|history| - 1], key), history[|history| - 1].at;
      TimesAscend(history[..|history| - 1], key, at, limit, windowMs);
      forall i | 0 <= i < |front| ensures front[i] <= at {
        assert front[i] in front;
      }
    }
  }

  lemma {:induction false} RecentAscends(times: seq<Time>, cutoff: Time)
    requires Ascending(times)
    ensures Ascending(Recent(times, cutoff)) && forall t :: t in Recent(times, cutoff) ==> t in times
  {
    if times != [] {
      RecentAscends(times[1..], cutoff);
      forall t | t in Recent(times[1..], cutoff) ensures times[0] <= t {
        assert t in times[1..];
      }
    }
  }

  lemma {:induction false} RecentOfRecent(times: seq<Time>, cutoff: Time)
    requires forall t :: t in times ==> t > cutoff
    ensures Recent(times, cutoff) == times
  {
    if times != [] {
      assert times[0] in times && times == [times[0]] + times[1..];
      assert forall t :: t in times[1..] ==> t in times;
      RecentOfRecent(times[1..], cutoff);
    }
  }

  lemma NothingLeaves(history: seq<Admission>, key: string, now: Time, t: Time, limit: nat, windowMs: nat)
    requires Decided(history, now, limit, windowMs) && now <= t
    requires var recent := Recent(TimesOf(history, key), now - windowMs); recent != [] && t - windowMs < recent[0]
    ensures Recent(TimesOf(history, key), t - windowMs) == Recent(TimesOf(history, key), now - windowMs)
  {
    var times := TimesOf(history, key);
    var recent := Recent(times, now - windowMs);
    TimesAscend(history, key, now, limit, windowMs);
    RecentAscends(times, now - windowMs);
    RecentTwice(times, now - windowMs, t - windowMs);
    RecentOfRecent(recent, t - windowMs);
  }

  /**
   The hint is exact to the second: whoever comes back a second earlier is still refused. The exception is a
   first admission stamped with time zero, which the limiter takes for none and answers with the whole window.
   */
  lemma RetryHintIsTight(history: seq<Admission>, key: string, now: Time, t: Time, limit: nat, windowMs: nat)
    requires Decided(history, now, limit, windowMs) && !MayAdmit(history, key, now, limit, windowMs)
    requires var recent := Recent(TimesOf(history, key), now - windowMs); recent != [] && recent[0] != 0
    requires now <= t <= now + 1000 * (RetryAfterSeconds(Recent(TimesOf(history, key), now - windowMs), now, windowMs) - 1)
    ensures !MayAdmit(history, key, t, limit, windowMs)
  {
    RecentIsRecent(TimesOf(history, key), now - windowMs);
    NothingLeaves(history, key, now, t, limit, windowMs);
    RecentCounts(history, key, now - windowMs, now, limit, windowMs);
    RecentCounts(history, key, t - windowMs, t, limit, windowMs);
  }

  /** Without a first admission to count from, the hint is the whole window rounded up to seconds. */
  lemma HintWithoutAFirst(times: seq<Time>, now: Time, windowMs: nat)
    requires Recent(times, now - windowMs) == [] || Recent(times, now - windowMs)[0] == 0
    ensures var hint := RetryAfterSeconds(Recent(times, now - windowMs), now, windowMs);
            hint >= 1 && 1000 * hint >= windowMs && (hint > 1 ==> 1000 * (hint - 1) < windowMs)
  {}
}
