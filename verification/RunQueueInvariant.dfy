/** What every action of the run queue keeps, whoever performs it and however stale its claim is. */
module RunQueueInvariant {
  import opened Prelude
  import opened RunQueue

  // ----- the event log as an independent account of a run -----

  datatype Progress = Absent | At(status: Status) | Illegal

  /** The legal edges of a run's life, one event at a time. */
  function Next(p: Progress, kind: EventType): Progress {
    match kind
    case PreflightRejected => p
    case Started => if p == At(Queued) then At(Running) else Illegal
    case Requeued => if p == At(Running) then At(Queued) else Illegal
    case RetryScheduled => if p == At(Running) then At(Queued) else Illegal
    case Entered(status) =>
      if status.Queued? then (if p.Absent? then At(Queued) else Illegal)
      else if status.Terminal() && p == At(Running) then At(status)
      else Illegal
  }

  function Replay(events: seq<Event>, id: RunId): Progress {
    if events == [] then Absent
    else
      var before, last := Replay(events[..|events| - 1], id), events[|events| - 1];
      if last.runId == id then Next(before, last.kind) else before
  }

  /** Whether an event ends an attempt: a requeue, a scheduled retry or a terminal status. */
  predicate EndsAttempt(kind: EventType) {
    kind.Requeued? || kind.RetryScheduled? || (kind.Entered? && kind.status.Terminal())
  }

  function AttemptsEnded(events: seq<Event>, id: RunId): nat {
    if events == [] then 0
    else
      var last := events[|events| - 1];
      AttemptsEnded(events[..|events| - 1], id) + if last.runId == id && EndsAttempt(last.kind) then 1 else 0
  }

  function ClaimCount(claims: seq<ClaimedRun>, id: RunId): nat {
    if claims == [] then 0
    else ClaimCount(claims[..|claims| - 1], id) + if claims[|claims| - 1].id == id then 1 else 0
  }

  function RunningNow(run: Run): nat {
    if run.status.Running? then 1 else 0
  }

  // ----- the invariant -----

  /** The log replays to the table; of a run that is gone no status event is left. */
  ghost predicate Logged(s: System) {
    && (forall id :: id in s.runs ==>
          Replay(s.events, id) == At(s.runs[id].status) && AttemptsEnded(s.events, id) == s.runs[id].attemptCount)
    && (forall id :: id !in s.runs ==> Replay(s.events, id) == Absent && AttemptsEnded(s.events, id) == 0)
  }

  /** Every claim is one attempt, finished or under way, and the budget of attempts is never overdrawn. */
  ghost predicate Budgeted(s: System) {
    forall id :: id in s.runs ==>
      && ClaimCount(s.claims, id) == s.runs[id].attemptCount + RunningNow(s.runs[id])
      && s.runs[id].attemptCount <= s.runs[id].maxAttempts
      && (Active(s.runs[id]) ==> s.runs[id].attemptCount < s.runs[id].maxAttempts)
  }

  /** Tokens are never reissued, and a row carries a token exactly while it runs under the claim of that token. */
  ghost predicate Tokened(s: System) {
    && (forall i, j :: 0 <= i < j < |s.claims| ==> s.claims[i].token != s.claims[j].token)
    && (forall id :: id in s.runs ==>
          (s.runs[id].status.Running? <==> s.runs[id].claimToken.Some?) && (s.runs[id].status.Running? ==> Backed(s, id)))
  }

  ghost predicate Backed(s: System, id: RunId)
    requires id in s.runs && s.runs[id].claimToken.Some?
  {
    && s.runs[id].leaseExpiresAt.Some?
    && ClaimOf(id, s.runs[id], s.runs[id].claimToken.value) in s.claims
  }

  /** An event id names one stored run; a coalesce key names at most one active run of its task. */
  ghost predicate Deduplicated(s: System) {
    && (forall a, b :: a in s.runs && b in s.runs && SameEvent(s.runs[a], s.runs[b]) ==> a == b)
    && (forall a, b :: a in s.runs && b in s.runs && SameWork(s.runs[a], s.runs[b]) ==> a == b)
  }

  ghost predicate SameEvent(a: Run, b: Run) {
    a.sourceEventId.Some? && a.sourceEventId == b.sourceEventId
  }

  ghost predicate SameWork(a: Run, b: Run) {
    Active(a) && Active(b) && a.coalesceKey.Some? && a.coalesceKey == b.coalesceKey && a.taskId == b.taskId
  }

  ghost predicate IssuedNoLater(claims: seq<ClaimedRun>, a: string, b: string) {
    exists i, j :: 0 <= i <= j < |claims| && claims[i].token == a && claims[j].token == b
  }

  /** The runs of the same target that are running now and were claimed no later than run `id`. */
  ghost function RunningAhead(s: System, id: RunId): set<RunId>
    requires id in s.runs && s.runs[id].claimToken.Some?
  {
    set r | r in RunningOnTarget(s.runs, s.runs[id].targetId) && s.runs[r].claimToken.Some?
            && IssuedNoLater(s.claims, s.runs[r].claimToken.value, s.runs[id].claimToken.value)
  }

  /** Each running row respects its own limit against the rows that were running when it was claimed. */
  ghost predicate WithinLimits(s: System) {
    forall id :: id in s.runs && s.runs[id].status.Running? && s.runs[id].claimToken.Some?
                 && s.runs[id].targetId.Some? && s.runs[id].targetMax.Some? ==>
      |RunningAhead(s, id)| <= s.runs[id].targetMax.value
  }

  /** The n-th claim of a run carries attempt count n - 1, below the budget that all claims of the run share. */
  ghost predicate Numbered(s: System) {
    && (forall i :: 0 <= i < |s.claims| ==> NumberedAt(s.claims, i))
    && (forall i, j :: 0 <= i < j < |s.claims| && s.claims[i].id == s.claims[j].id ==>
          s.claims[i].maxAttempts == s.claims[j].maxAttempts)
    && (forall c :: c in s.claims && c.id in s.runs ==> c.maxAttempts == s.runs[c.id].maxAttempts)
  }

  ghost predicate NumberedAt(claims: seq<ClaimedRun>, i: nat)
    requires i < |claims|
  {
    claims[i].attemptCount == ClaimCount(claims[..i], claims[i].id) < claims[i].maxAttempts
  }

  ghost predicate Invariant(s: System) {
    Logged(s) && Budgeted(s) && Tokened(s) && Numbered(s) && Deduplicated(s) && WithinLimits(s)
  }

  // ----- appending to the histories -----

  lemma AppendEvent(events: seq<Event>, e: Event, id: RunId)
    ensures Replay(events + [e], id) == if e.runId == id then Next(Replay(events, id), e.kind) else Replay(events, id)
    ensures AttemptsEnded(events + [e], id) ==
            AttemptsEnded(events, id) + if e.runId == id && EndsAttempt(e.kind) then 1 else 0
  {
    assert (events + [e])[..|events|] == events;
  }

  lemma AppendClaim(claims: seq<ClaimedRun>, c: ClaimedRun, id: RunId)
    ensures ClaimCount(claims + [c], id) == ClaimCount(claims, id) + if c.id == id then 1 else 0
  {
    assert (claims + [c])[..|claims|] == claims;
  }

  lemma {:induction false} Untouched(events: seq<Event>, id: RunId)
    requires forall e :: e in events ==> e.runId != id
    ensures Replay(events, id) == Absent && AttemptsEnded(events, id) == 0
  {
    if events != [] {
      Untouched(events[..|events| - 1], id);
      assert events[|events| - 1] in events;
    }
  }

  lemma {:induction false} Unclaimed(claims: seq<ClaimedRun>, id: RunId)
    requires forall c :: c in claims ==> c.id != id
    ensures ClaimCount(claims, id) == 0
  {
    if claims != [] {
      Unclaimed(claims[..|claims| - 1], id);
      assert claims[|claims| - 1] in claims;
    }
  }

  /** Deleting the events of some runs leaves the account of every other run as it was. */
  lemma {:induction false} KeepEventsReplay(events: seq<Event>, deleted: set<RunId>, id: RunId)
    ensures Replay(KeepEvents(events, deleted), id) == if id in deleted then Absent else Replay(events, id)
    ensures AttemptsEnded(KeepEvents(events, deleted), id) == if id in deleted then 0 else AttemptsEnded(events, id)
  {
    if events != [] {
      KeepEventsReplay(events[..|events| - 1], deleted, id);
      AppendEvent(KeepEvents(events[..|events| - 1], deleted), events[|events| - 1], id);
    }
  }

  // ----- the log -----

  lemma WriteKeepsLogged(s: System, id: RunId, run: Run, kind: EventType, now: Time)
    requires Logged(s)
    requires Next(Replay(s.events, id), kind) == At(run.status)
    requires run.attemptCount == AttemptsEnded(s.events, id) + if EndsAttempt(kind) then 1 else 0
    ensures Logged(Write(s, id, run, kind, now))
  {
    forall r {
      AppendEvent(s.events, Event(id, kind, now), r);
    }
  }

  lemma RequeueOneKeepsLogged(s: System, id: RunId, now: Time)
    requires Logged(s)
    ensures Logged(RequeueOne(s, id, now))
  {
    if id in s.runs && Expired(s.runs[id], now) {
      var lapsed := LeaseLapsed(s.runs[id], now);
      WriteKeepsLogged(s, id, lapsed, if lapsed.status.Queued? then Requeued else Entered(DeadLettered), now);
    }
  }

  lemma CreationKeepsLogged(s: System, id: RunId, input: EnqueueInput, now: Time)
    requires Logged(s) && FreshRunId(s, id)
    ensures Logged(Write(s, id, NewRun(input, now), Entered(Queued), now))
  {
    Untouched(s.events, id);
    WriteKeepsLogged(s, id, NewRun(input, now), Entered(Queued), now);
  }

  lemma ClaimKeepsLogged(s: System, a: Action)
    requires Logged(s) && Enabled(s, a) && a.Claim?
    ensures Logged(Apply(s, a))
  {
    var written := Write(s, a.runId, Apply(s, a).runs[a.runId], Started, a.now);
    WriteKeepsLogged(s, a.runId, written.runs[a.runId], Started, a.now);
    assert written.runs == Apply(s, a).runs && written.events == Apply(s, a).events;
  }

  lemma RecordKeepsLogged(s: System, a: Action)
    requires Logged(s) && Tokened(s) && Enabled(s, a) && Reportable(a) && a.Record?
    ensures Logged(Apply(s, a))
  {
    var claim := a.claim;
    if Holds(s.runs, claim) {
      HeldClaim(s, claim);
      var run := Settled(s.runs[claim.id], claim, a.result, a.retryAt, a.now);
      WriteKeepsLogged(s, claim.id, run, SettleEvent(claim, a.result), a.now);
    }
  }

  lemma CleanupKeepsLogged(s: System, a: Action)
    requires Logged(s) && a.Cleanup?
    ensures Logged(Apply(s, a))
  {
    forall r {
      KeepEventsReplay(s.events, s.runs.Keys - Retained(s.runs, a.before), r);
    }
  }

  lemma StepKeepsLogged(s: System, a: Action)
    requires Logged(s) && Tokened(s) && Enabled(s, a) && Reportable(a)
    ensures Logged(Apply(s, a))
  {
    match a
    case Enqueue(input, freshId, reuse, now) =>
      CreationKeepsLogged(s, freshId, input, now);
    case Retry(runId, source, capabilities, freshId, now) =>
      CreationKeepsLogged(s, freshId, RetryInput(s.runs[runId], source, capabilities), now);
    case Requeue(order, now) =>
      RequeueAllKeepsLogged(s, order, now);
    case Claim(runId, workerId, leaseMs, filter, token, now) =>
      ClaimKeepsLogged(s, a);
    case Renew(claim, leaseMs, now) =>
    case Record(claim, result, retryAt, now) =>
      RecordKeepsLogged(s, a);
    case RejectPreflight(claim, now) =>
      forall r {
        AppendEvent(s.events, Event(claim.id, PreflightRejected, now), r);
      }
    case Cleanup(before) =>
      CleanupKeepsLogged(s, a);
  }

  lemma {:induction false} RequeueAllKeepsLogged(s: System, order: seq<RunId>, now: Time)
    requires Logged(s)
    ensures Logged(RequeueAll(s, order, now))
  {
    if order != [] {
      RequeueAllKeepsLogged(s, order[..|order| - 1], now);
      RequeueOneKeepsLogged(RequeueAll(s, order[..|order| - 1], now), order[|order| - 1], now);
    }
  }

  // ----- tokens -----

  /** A claim that still passes the ownership guard describes the row it guards: nothing it read has changed. */
  lemma HeldClaim(s: System, claim: ClaimedRun)
    requires Tokened(s) && claim in s.claims && Holds(s.runs, claim)
    ensures claim == ClaimOf(claim.id, s.runs[claim.id], claim.token)
    ensures claim.attemptCount == s.runs[claim.id].attemptCount && claim.maxAttempts == s.runs[claim.id].maxAttempts
  {
    assert Backed(s, claim.id);
  }

  lemma StepKeepsTokened(s: System, a: Action)
    requires Tokened(s) && Enabled(s, a) && Reportable(a)
    ensures Tokened(Apply(s, a))
  {
    if a.Requeue? {
      RequeueAllKeepsTokened(s, a.order, a.now);
    } else {
      forall id | id in s.runs && s.runs[id].status.Running? ensures Backed(s, id) {}
    }
  }

  lemma {:induction false} RequeueAllKeepsTokened(s: System, order: seq<RunId>, now: Time)
    requires Tokened(s)
    ensures Tokened(RequeueAll(s, order, now)) && RequeueAll(s, order, now).claims == s.claims
  {
    if order != [] {
      RequeueAllKeepsTokened(s, order[..|order| - 1], now);
      var t := RequeueAll(s, order[..|order| - 1], now);
      forall id | id in t.runs && t.runs[id].status.Running? ensures Backed(t, id) {}
    }
  }

  // ----- the attempt budget -----

  lemma RecordKeepsBudgeted(s: System, a: Action)
    requires Budgeted(s) && Tokened(s) && Enabled(s, a) && Reportable(a) && a.Record?
    ensures Budgeted(Apply(s, a))
  {
    if Holds(s.runs, a.claim) {
      HeldClaim(s, a.claim);
      var run := Settled(s.runs[a.claim.id], a.claim, a.result, a.retryAt, a.now);
      assert run.attemptCount == s.runs[a.claim.id].attemptCount + 1 && !run.status.Running?;
      assert Apply(s, a).runs == s.runs[a.claim.id := run];
    }
  }

  lemma ClaimKeepsBudgeted(s: System, a: Action)
    requires Budgeted(s) && Enabled(s, a) && a.Claim?
    ensures Budgeted(Apply(s, a))
  {
    var t := Apply(s, a);
    forall r | r in t.runs ensures ClaimCount(t.claims, r) == t.runs[r].attemptCount + RunningNow(t.runs[r]) {
      AppendClaim(s.claims, t.claims[|s.claims|], r);
    }
  }

  lemma StepKeepsBudgeted(s: System, a: Action)
    requires Budgeted(s) && Tokened(s) && Enabled(s, a) && Reportable(a)
    ensures Budgeted(Apply(s, a))
  {
    if a.Claim? {
      ClaimKeepsBudgeted(s, a);
    } else if a.Record? {
      RecordKeepsBudgeted(s, a);
    } else if a.Requeue? {
      RequeueAllKeepsBudgeted(s, a.order, a.now);
    } else if a.Enqueue? || a.Retry? {
      Unclaimed(s.claims, a.freshId);
    }
  }

  lemma {:induction false} RequeueAllKeepsBudgeted(s: System, order: seq<RunId>, now: Time)
    requires Budgeted(s)
    ensures Budgeted(RequeueAll(s, order, now)) && RequeueAll(s, order, now).claims == s.claims
  {
    if order != [] {
      RequeueAllKeepsBudgeted(s, order[..|order| - 1], now);
    }
  }

  lemma ClaimKeepsNumbered(s: System, a: Action)
    requires Numbered(s) && Budgeted(s) && Enabled(s, a) && a.Claim?
    ensures Numbered(Apply(s, a))
  {
    var t := Apply(s, a);
    var n := |s.claims|;
    assert t.claims[..n] == s.claims;
    forall i | 0 <= i < |t.claims| ensures NumberedAt(t.claims, i) {
      if i < n {
        assert NumberedAt(s.claims, i) && t.claims[..i] == s.claims[..i];
      }
    }
  }

  /** Rows keep their attempt budget and the claim history stands. */
  lemma SameBudgets(s: System, t: System)
    requires Numbered(s) && t.claims == s.claims
    requires forall c :: c in s.claims && c.id in t.runs ==> c.id in s.runs && t.runs[c.id].maxAttempts == s.runs[c.id].maxAttempts
    ensures Numbered(t)
  {}

  lemma StepKeepsNumbered(s: System, a: Action)
    requires Numbered(s) && Budgeted(s) && Enabled(s, a)
    ensures Numbered(Apply(s, a))
  {
    if a.Claim? {
      ClaimKeepsNumbered(s, a);
    } else if a.Requeue? {
      RequeueAllKeepsNumbered(s, a.order, a.now);
    } else {
      SameBudgets(s, Apply(s, a));
    }
  }

  lemma {:induction false} RequeueAllKeepsNumbered(s: System, order: seq<RunId>, now: Time)
    requires Numbered(s)
    ensures Numbered(RequeueAll(s, order, now))
  {
    if order != [] {
      RequeueAllKeepsNumbered(s, order[..|order| - 1], now);
      SameBudgets(RequeueAll(s, order[..|order| - 1], now), RequeueAll(s, order, now));
    }
  }

  // ----- deduplication -----

  ghost predicate KeepsKeys(before: Run, after: Run) {
    && after.taskId == before.taskId
    && after.coalesceKey == before.coalesceKey
    && after.sourceEventId == before.sourceEventId
    && (Active(after) ==> Active(before))
  }

  lemma KeysAreKept(s: System, a: Action)
    requires Enabled(s, a) && !a.Enqueue? && !a.Retry? && !a.Requeue?
    ensures var t := Apply(s, a); forall id :: id in t.runs ==> id in s.runs && KeepsKeys(s.runs[id], t.runs[id])
  {}

  /** Rows keep their identity keys for life, and no action reactivates one. */
  lemma SameKeys(s: System, t: System)
    requires Deduplicated(s)
    requires forall id :: id in t.runs ==> id in s.runs && KeepsKeys(s.runs[id], t.runs[id])
    ensures Deduplicated(t)
  {
    forall a, b | a in t.runs && b in t.runs && SameEvent(t.runs[a], t.runs[b]) ensures a == b {
      assert SameEvent(s.runs[a], s.runs[b]);
    }
    forall a, b | a in t.runs && b in t.runs && SameWork(t.runs[a], t.runs[b]) ensures a == b {
      assert SameWork(s.runs[a], s.runs[b]);
    }
  }

  lemma CreationKeepsDeduplicated(s: System, id: RunId, input: EnqueueInput, now: Time)
    requires Deduplicated(s) && id !in s.runs && Duplicates(s.runs, input) == {}
    ensures Deduplicated(Write(s, id, NewRun(input, now), Entered(Queued), now))
  {
    var run := NewRun(input, now);
    forall r | r in s.runs
      ensures !SameEvent(run, s.runs[r]) && !SameEvent(s.runs[r], run)
      ensures !SameWork(run, s.runs[r]) && !SameWork(s.runs[r], run)
    {
      assert r !in Duplicates(s.runs, input);
      assert forall x :: x in s.runs && SameEvent(run, s.runs[x]) ==> x in Duplicates(s.runs, input);
    }
  }

  lemma StepKeepsDeduplicated(s: System, a: Action)
    requires Deduplicated(s) && Enabled(s, a)
    ensures Deduplicated(Apply(s, a))
  {
    if a.Requeue? {
      RequeueAllKeepsDeduplicated(s, a.order, a.now);
    } else if a.Enqueue? {
      if a.reuse.None? {
        CreationKeepsDeduplicated(s, a.freshId, a.input, a.now);
      }
    } else if a.Retry? {
      CreationKeepsDeduplicated(s, a.freshId, RetryInput(s.runs[a.runId], a.source, a.capabilities), a.now);
    } else {
      KeysAreKept(s, a);
      SameKeys(s, Apply(s, a));
    }
  }

  lemma {:induction false} RequeueAllKeepsDeduplicated(s: System, order: seq<RunId>, now: Time)
    requires Deduplicated(s)
    ensures Deduplicated(RequeueAll(s, order, now))
  {
    if order != [] {
      RequeueAllKeepsDeduplicated(s, order[..|order| - 1], now);
      SameKeys(RequeueAll(s, order[..|order| - 1], now), RequeueAll(s, order, now));
    }
  }

  // ----- per-target concurrency -----

  /** A row that runs in `t` runs in `s` under the same claim, target and limit. */
  ghost predicate RanBefore(s: System, t: System, id: RunId)
    requires id in t.runs
  {
    && id in s.runs && s.runs[id].status.Running?
    && t.runs[id].claimToken == s.runs[id].claimToken
    && t.runs[id].targetId == s.runs[id].targetId
    && t.runs[id].targetMax == s.runs[id].targetMax
  }

  ghost predicate OnlyStops(s: System, t: System) {
    && t.claims == s.claims
    && forall id :: id in t.runs && t.runs[id].status.Running? ==> RanBefore(s, t, id)
  }

  /** Without a new runner no row gets another one ahead of it. */
  lemma FewerRunning(s: System, t: System)
    requires WithinLimits(s) && OnlyStops(s, t)
    ensures WithinLimits(t)
  {
    forall id | id in t.runs && t.runs[id].status.Running? && t.runs[id].claimToken.Some?
                && t.runs[id].targetId.Some? && t.runs[id].targetMax.Some?
      ensures |RunningAhead(t, id)| <= t.runs[id].targetMax.value
    {
      SubsetSize(RunningAhead(t, id), RunningAhead(s, id));
    }
  }

  lemma StepKeepsWithinLimits(s: System, a: Action)
    requires WithinLimits(s) && Tokened(s) && Enabled(s, a) && Reportable(a)
    ensures WithinLimits(Apply(s, a))
  {
    if a.Claim? {
      ClaimKeepsWithinLimits(s, a);
    } else {
      OthersOnlyStop(s, a);
      FewerRunning(s, Apply(s, a));
    }
  }

  lemma OthersOnlyStop(s: System, a: Action)
    requires Tokened(s) && Enabled(s, a) && Reportable(a) && !a.Claim?
    ensures OnlyStops(s, Apply(s, a))
  {
    if a.Requeue? {
      RequeueAllOnlyStops(s, a.order, a.now);
    }
  }

  lemma {:induction false} RequeueAllOnlyStops(s: System, order: seq<RunId>, now: Time)
    ensures var t := RequeueAll(s, order, now);
            && t.claims == s.claims && t.runs.Keys == s.runs.Keys
            && forall id :: id in t.runs && t.runs[id].status.Running? ==> t.runs[id] == s.runs[id]
  {
    if order != [] {
      RequeueAllOnlyStops(s, order[..|order| - 1], now);
    }
  }

  lemma ClaimKeepsWithinLimits(s: System, a: Action)
    requires WithinLimits(s) && Tokened(s) && Enabled(s, a) && a.Claim?
    ensures WithinLimits(Apply(s, a))
  {
    var t := Apply(s, a);
    forall id | id in t.runs && t.runs[id].status.Running? && t.runs[id].targetId.Some? && t.runs[id].targetMax.Some?
      ensures |RunningAhead(t, id)| <= t.runs[id].targetMax.value
    {
      if id == a.runId {
        var before := RunningOnTarget(s.runs, s.runs[id].targetId);
        assert RunningAhead(t, id) <= before + {id};
        SubsetSize(RunningAhead(t, id), before + {id});
      } else {
        assert Backed(s, id);
        forall r | r in RunningAhead(t, id) ensures r in RunningAhead(s, id) {
          OlderThanNewest(s.claims, t.claims[|s.claims|], t.runs[r].claimToken.value, t.runs[id].claimToken.value);
          if r != a.runId {
            assert Backed(s, r);
          }
        }
        SubsetSize(RunningAhead(t, id), RunningAhead(s, id));
      }
    }
  }

  /** A token issued before the newest one does not come after it. */
  lemma OlderThanNewest(claims: seq<ClaimedRun>, newest: ClaimedRun, a: string, b: string)
    requires forall c :: c in claims ==> c.token != newest.token
    requires b != newest.token && IssuedNoLater(claims + [newest], a, b)
    ensures a != newest.token && IssuedNoLater(claims, a, b)
  {
    var all := claims + [newest];
    var i, j :| 0 <= i <= j < |all| && all[i].token == a && all[j].token == b;
    assert j < |claims| && all[i] == claims[i] && all[j] == claims[j];
    assert claims[i] in claims;
  }

  // ----- all together -----

  lemma StepKeepsInvariant(s: System, a: Action, t: System)
    requires Invariant(s) && Step(s, a, t)
    ensures Invariant(t)
  {
    StepKeepsLogged(s, a);
    StepKeepsTokened(s, a);
    StepKeepsBudgeted(s, a);
    StepKeepsNumbered(s, a);
    StepKeepsDeduplicated(s, a);
    StepKeepsWithinLimits(s, a);
  }
}
