/** Theorems about whole executions of the run queue: any number of workers, any interleaving, any clocks. */
module RunQueueRuns {
  import opened Prelude
  import opened RunQueue
  import opened RunQueueInvariant

  lemma {:induction false} ReachableInvariant(states: seq<System>, actions: seq<Action>, i: nat)
    requires Execution(states, actions) && i < |states|
    ensures Invariant(states[i])
  {
    if i > 0 {
      ReachableInvariant(states, actions, i - 1);
      StepKeepsInvariant(states[i - 1], actions[i - 1], states[i]);
    }
  }

  /**
   The account of a stored run: its events replay over legal edges to its status, its attempt count is the number of
   attempts the log ended, every claim is one attempt ended or under way, and work remains only inside the budget.
   */
  lemma AccountOfARun(states: seq<System>, actions: seq<Action>, i: nat, id: RunId)
    requires Execution(states, actions) && i < |states| && id in states[i].runs
    ensures var run := states[i].runs[id];
            && Replay(states[i].events, id) == At(run.status)
            && AttemptsEnded(states[i].events, id) == run.attemptCount
            && ClaimCount(states[i].claims, id) == run.attemptCount + RunningNow(run)
            && run.attemptCount <= run.maxAttempts
            && (Active(run) ==> run.attemptCount < run.maxAttempts)
  {
    ReachableInvariant(states, actions, i);
  }

  // ----- fencing -----

  lemma {:induction false} ClaimsAreKept(states: seq<System>, actions: seq<Action>, i: nat, j: nat, claim: ClaimedRun)
    requires Execution(states, actions) && i <= j < |states| && claim in states[i].claims
    ensures claim in states[j].claims
    decreases j - i
  {
    if i < j {
      ClaimsAreKept(states, actions, i, j - 1, claim);
      if actions[j - 1].Requeue? {
        RequeueAllOnlyStops(states[j - 1], actions[j - 1].order, actions[j - 1].now);
      }
    }
  }

  /** One step never gives a lost claim its run back: new tokens are fresh and rows only ever drop the old ones. */
  lemma LostInOneStep(s: System, a: Action, t: System, claim: ClaimedRun)
    requires Step(s, a, t) && claim in s.claims && !Holds(s.runs, claim)
    ensures !Holds(t.runs, claim)
  {
    if a.Requeue? {
      RequeueAllOnlyStops(s, a.order, a.now);
    }
  }

  /** A write under a claim that does not hold its run is turned away whole. */
  lemma TurnedAway(s: System, a: Action, t: System)
    requires Step(s, a, t) && (a.Record? || a.Renew?) && !Holds(s.runs, a.claim)
    ensures t == s
  {}

  /** Recording a result gives the claim up. */
  lemma SettlingLosesTheRun(s: System, a: Action, t: System)
    requires Tokened(s) && Step(s, a, t) && a.Record?
    ensures a.claim in t.claims && !Holds(t.runs, a.claim)
  {
    if Holds(s.runs, a.claim) {
      HeldClaim(s, a.claim);
    }
  }

  lemma TokensIdentifyClaims(s: System, a: ClaimedRun, b: ClaimedRun)
    requires Tokened(s) && a in s.claims && b in s.claims && a.token == b.token
    ensures a == b
  {}

  /**
   Once a claim has lost its run, by settling it or by a requeue, a reclaim or a deletion, it never
   holds it again, and every later write under it leaves rows, events and claims exactly as they were.
   */
  lemma {:induction false} FencedForever(states: seq<System>, actions: seq<Action>, i: nat, j: nat, claim: ClaimedRun)
    requires Execution(states, actions) && i <= j < |states|
    requires claim in states[i].claims && !Holds(states[i].runs, claim)
    ensures !Holds(states[j].runs, claim)
    ensures j < |actions| && (actions[j].Record? || actions[j].Renew?) && actions[j].claim == claim ==>
              states[j + 1] == states[j]
    decreases j - i
  {
    if i < j {
      FencedForever(states, actions, i, j - 1, claim);
      ClaimsAreKept(states, actions, i, j - 1, claim);
      LostInOneStep(states[j - 1], actions[j - 1], states[j], claim);
    }
    if j < |actions| && (actions[j].Record? || actions[j].Renew?) && actions[j].claim == claim {
      TurnedAway(states[j], actions[j], states[j + 1]);
    }
  }

  /** Step `i` is a result recorded under `token` that was not turned away. */
  ghost predicate SettlesUnder(states: seq<System>, actions: seq<Action>, i: nat, token: string)
    requires |states| == |actions| + 1 && i < |actions|
  {
    actions[i].Record? && actions[i].claim.token == token && Holds(states[i].runs, actions[i].claim)
  }

  /** After a token has settled its run, no later result under it is accepted. */
  lemma SettledTokensAreSpent(states: seq<System>, actions: seq<Action>, i: nat, j: nat)
    requires Execution(states, actions) && i < j < |actions|
    requires actions[i].Record? && actions[j].Record? && actions[i].claim.token == actions[j].claim.token
    ensures !Holds(states[j].runs, actions[j].claim)
  {
    var claim := actions[i].claim;
    assert Step(states[i], actions[i], states[i + 1]);
    ReachableInvariant(states, actions, i);
    SettlingLosesTheRun(states[i], actions[i], states[i + 1]);
    FencedForever(states, actions, i + 1, j, claim);
    ClaimsAreKept(states, actions, i + 1, j, claim);
    ReachableInvariant(states, actions, j);
    assert Step(states[j], actions[j], states[j + 1]);
    TokensIdentifyClaims(states[j], claim, actions[j].claim);
  }

  /** Every claim token settles its run at most once. */
  lemma SettlesOnce(states: seq<System>, actions: seq<Action>, i: nat, j: nat, token: string)
    requires Execution(states, actions) && i < |actions| && j < |actions|
    requires SettlesUnder(states, actions, i, token) && SettlesUnder(states, actions, j, token)
    ensures i == j
  {
    if i < j {
      SettledTokensAreSpent(states, actions, i, j);
    } else if j < i {
      SettledTokensAreSpent(states, actions, j, i);
    }
  }

  // ----- the attempt budget -----

  /** How many more times a run may change status: twice per attempt left, once less while one is under way. */
  function Budget(run: Run): int {
    if run.status.Terminal() then 0 else 2 * (run.maxAttempts - run.attemptCount) - RunningNow(run)
  }

  ghost predicate Moves(s: System, t: System, id: RunId) {
    id in s.runs && id in t.runs && s.runs[id].status != t.runs[id].status
  }

  lemma {:induction false} RequeueAllExact(s: System, order: seq<RunId>, now: Time, id: RunId)
    requires Distinct(order) && id in s.runs
    ensures var t := RequeueAll(s, order, now);
            && id in t.runs
            && t.runs[id] == if id in order && Expired(s.runs[id], now) then LeaseLapsed(s.runs[id], now) else s.runs[id]
  {
    if order != [] {
      var front, last := order[..|order| - 1], order[|order| - 1];
      assert order == front + [last] && last !in front;
      RequeueAllExact(s, front, now, id);
    }
  }

  /** After the expiry sweep no lease that had lapsed is still running, and no other row was touched. */
  lemma SweepIsComplete(s: System, order: seq<RunId>, now: Time)
    requires ExpiryOrder(s.runs, order, now)
    ensures var t := RequeueAll(s, order, now);
            && t.runs.Keys == s.runs.Keys
            && ExpiredRuns(t.runs, now) == {}
            && forall id :: id in s.runs && !Expired(s.runs[id], now) ==> t.runs[id] == s.runs[id]
  {
    RequeueAllOnlyStops(s, order, now);
    var t := RequeueAll(s, order, now);
    forall id | id in s.runs
      ensures !Expired(t.runs[id], now)
      ensures !Expired(s.runs[id], now) ==> t.runs[id] == s.runs[id]
    {
      RequeueAllExact(s, order, now, id);
      assert id in order <==> id in ExpiredRuns(s.runs, now);
    }
  }

  lemma BudgetIsNatural(s: System, id: RunId)
    requires Budgeted(s) && id in s.runs
    ensures 0 <= Budget(s.runs[id]) <= 2 * s.runs[id].maxAttempts
  {}

  lemma BudgetDecreases(s: System, a: Action, t: System, id: RunId)
    requires Budgeted(s) && Tokened(s) && Step(s, a, t) && id in s.runs && id in t.runs
    ensures t.runs[id].maxAttempts == s.runs[id].maxAttempts
    ensures Budget(t.runs[id]) <= Budget(s.runs[id])
    ensures Moves(s, t, id) ==> Budget(t.runs[id]) < Budget(s.runs[id])
  {
    if a.Requeue? {
      RequeueAllExact(s, a.order, a.now, id);
    } else if a.Record? && Holds(s.runs, a.claim) {
      HeldClaim(s, a.claim);
    }
  }

  ghost function MoveCount(states: seq<System>, id: RunId, i: nat, j: nat): nat
    requires i <= j < |states|
    decreases j - i
  {
    if i == j then 0
    else MoveCount(states, id, i, j - 1) + if Moves(states[j - 1], states[j], id) then 1 else 0
  }

  lemma BudgetStep(states: seq<System>, actions: seq<Action>, i: nat, id: RunId)
    requires Execution(states, actions) && i < |actions| && id in states[i].runs && id in states[i + 1].runs
    ensures states[i + 1].runs[id].maxAttempts == states[i].runs[id].maxAttempts
    ensures 0 <= Budget(states[i + 1].runs[id])
    ensures Budget(states[i + 1].runs[id]) + (if Moves(states[i], states[i + 1], id) then 1 else 0) <= Budget(states[i].runs[id])
  {
    ReachableInvariant(states, actions, i);
    ReachableInvariant(states, actions, i + 1);
    BudgetIsNatural(states[i + 1], id);
    BudgetDecreases(states[i], actions[i], states[i + 1], id);
  }

  lemma {:induction false} MovesSpendBudget(states: seq<System>, actions: seq<Action>, id: RunId, i: nat, j: nat)
    requires Execution(states, actions) && i <= j < |states|
    requires forall k :: i <= k <= j ==> id in states[k].runs
    ensures MoveCount(states, id, i, j) + Budget(states[j].runs[id]) <= Budget(states[i].runs[id])
    ensures states[j].runs[id].maxAttempts == states[i].runs[id].maxAttempts
    decreases j - i
  {
    if i < j {
      MovesSpendBudget(states, actions, id, i, j - 1);
      BudgetStep(states, actions, j - 1, id);
    }
  }

  /** A run that stays stored changes status at most twice per attempt of its budget: no run is retried forever. */
  lemma MovesAreBounded(states: seq<System>, actions: seq<Action>, id: RunId, i: nat, j: nat)
    requires Execution(states, actions) && i <= j < |states|
    requires forall k :: i <= k <= j ==> id in states[k].runs
    ensures MoveCount(states, id, i, j) <= 2 * states[i].runs[id].maxAttempts
  {
    MovesSpendBudget(states, actions, id, i, j);
    ReachableInvariant(states, actions, i);
    ReachableInvariant(states, actions, j);
    BudgetIsNatural(states[i], id);
    BudgetIsNatural(states[j], id);
  }

  lemma {:induction false} CountUpToLast(claims: seq<ClaimedRun>, i: nat)
    requires i < |claims| && forall j :: i < j < |claims| ==> claims[j].id != claims[i].id
    ensures ClaimCount(claims, claims[i].id) == ClaimCount(claims[..i], claims[i].id) + 1
    decreases |claims|
  {
    var n := |claims| - 1;
    if i == n {
      assert claims[..n] == claims[..i];
    } else {
      CountUpToLast(claims[..n], i);
      assert claims[..n][..i] == claims[..i];
    }
  }

  lemma {:induction false} LastClaim(claims: seq<ClaimedRun>, id: RunId) returns (i: nat)
    requires exists c :: c in claims && c.id == id
    ensures i < |claims| && claims[i].id == id && forall j :: i < j < |claims| ==> claims[j].id != id
  {
    i := |claims| - 1;
    if claims[i].id != id {
      var c :| c in claims && c.id == id;
      assert claims == claims[..i] + [claims[i]];
      assert c in claims[..i];
      i := LastClaim(claims[..i], id);
    }
  }

  /** No run is ever handed out more often than its attempt budget, not even after it was deleted. */
  lemma ClaimsAreBounded(states: seq<System>, actions: seq<Action>, i: nat, claim: ClaimedRun)
    requires Execution(states, actions) && i < |states| && claim in states[i].claims
    ensures ClaimCount(states[i].claims, claim.id) <= claim.maxAttempts
  {
    ReachableInvariant(states, actions, i);
    var claims := states[i].claims;
    var last := LastClaim(claims, claim.id);
    CountUpToLast(claims, last);
    assert NumberedAt(claims, last);
    var k :| 0 <= k < |claims| && claims[k] == claim;
    assert k == last || k < last;
  }

  // ----- retry delays -----

  lemma QueuedRowsStand(s: System, a: Action, t: System, id: RunId)
    requires Step(s, a, t) && id in s.runs && id in t.runs
    requires s.runs[id].status.Queued? && t.runs[id].status.Queued?
    ensures t.runs[id] == s.runs[id]
  {
    if a.Requeue? {
      RequeueAllExact(s, a.order, a.now, id);
    }
  }

  /** A scheduled retry is not claimed before its time has come, however many claims and sweeps pass over it. */
  lemma {:induction false} RetryWaits(states: seq<System>, actions: seq<Action>, i: nat, j: nat, id: RunId)
    requires Execution(states, actions) && i < j < |actions|
    requires actions[i].Record? && actions[i].claim.id == id && Holds(states[i].runs, actions[i].claim)
    requires SettleEvent(actions[i].claim, actions[i].result) == RetryScheduled
    requires forall k :: i < k <= j ==> id in states[k].runs && states[k].runs[id].status.Queued?
    ensures states[j].runs[id].nextRetryAt == Some(actions[i].retryAt)
    ensures actions[j].Claim? && actions[j].runId == id ==> actions[i].retryAt <= actions[j].now
    decreases j - i
  {
    assert Step(states[j], actions[j], states[j + 1]);
    if j == i + 1 {
      assert Step(states[i], actions[i], states[j]);
    } else {
      RetryWaits(states, actions, i, j - 1, id);
      QueuedRowsStand(states[j - 1], actions[j - 1], states[j], id);
    }
  }

  // ----- concurrency -----

  lemma ClaimPosition(s: System, id: RunId) returns (i: nat)
    requires Tokened(s) && id in s.runs && s.runs[id].status.Running?
    ensures s.runs[id].claimToken.Some? && i < |s.claims| && s.claims[i].token == s.runs[id].claimToken.value
  {
    assert Backed(s, id);
    i :| 0 <= i < |s.claims| && s.claims[i] == ClaimOf(id, s.runs[id], s.runs[id].claimToken.value);
  }

  lemma {:induction false} LatestOf(s: System, some: set<RunId>) returns (latest: RunId)
    requires Tokened(s) && some != {}
    requires forall r :: r in some ==> r in s.runs && s.runs[r].status.Running?
    ensures latest in some
    ensures forall r :: r in some ==>
              IssuedNoLater(s.claims, s.runs[r].claimToken.value, s.runs[latest].claimToken.value)
    decreases |some|
  {
    var one :| one in some;
    var i := ClaimPosition(s, one);
    if some == {one} {
      return one;
    }
    var rival := LatestOf(s, some - {one});
    var j := ClaimPosition(s, rival);
    latest := if i <= j then rival else one;
    forall r | r in some
      ensures IssuedNoLater(s.claims, s.runs[r].claimToken.value, s.runs[latest].claimToken.value)
    {
      if r != one {
        var k := ClaimPosition(s, r);
        assert r in some - {one};
      }
    }
  }

  /** Under one common limit at most that many runs of a target are ever running. */
  lemma ConcurrencyLimit(states: seq<System>, actions: seq<Action>, i: nat, target: string, limit: Positive)
    requires Execution(states, actions) && i < |states|
    requires forall r :: r in RunningOnTarget(states[i].runs, Some(target)) ==> states[i].runs[r].targetMax == Some(limit)
    ensures |RunningOnTarget(states[i].runs, Some(target))| <= limit
  {
    ReachableInvariant(states, actions, i);
    var s := states[i];
    var running := RunningOnTarget(s.runs, Some(target));
    if running != {} {
      var latest := LatestOf(s, running);
      assert RunningAhead(s, latest) == running;
    }
  }

  // ----- the log and deduplication -----

  lemma {:induction false} AbsentMeansPreflightOnly(events: seq<Event>, id: RunId)
    requires Replay(events, id) == Absent
    ensures forall e :: e in events && e.runId == id ==> e.kind.PreflightRejected?
  {
    if events != [] {
      AbsentMeansPreflightOnly(events[..|events| - 1], id);
      assert events == events[..|events| - 1] + [events[|events| - 1]];
    }
  }

  ghost predicate Orphan(s: System, e: Event) {
    e in s.events && e.runId !in s.runs
  }

  /** The only events without a stored run are preflight rejections reported by a worker after the deletion. */
  lemma OrphanEvents(states: seq<System>, actions: seq<Action>, i: nat, e: Event)
    requires Execution(states, actions) && i < |states|
    requires Orphan(states[i], e)
    ensures e.kind == PreflightRejected
  {
    ReachableInvariant(states, actions, i);
    AbsentMeansPreflightOnly(states[i].events, e.runId);
  }

  /** A preflight report adds such an event exactly when retention has already deleted the run of its claim. */
  lemma PreflightOrphansIffDeleted(s: System, a: Action, t: System)
    requires Step(s, a, t) && a.RejectPreflight?
    ensures Orphan(t, t.events[|s.events|]) <==> a.claim.id !in s.runs
  {
    assert t.events[|s.events|] == Event(a.claim.id, PreflightRejected, a.now);
  }

  const OldRun := NewRun(EnqueueInput("task", "{}", "api", None, None, [], Some(1), None, None, None), 0)
  const OldClaim := ClaimedRun("r", "task", None, "{}", 0, 1, None, "t")
  const OldRunning := OldRun.(status := Running, workerId := Some("w"), claimToken := Some("t"), startedAt := Some(0),
                              leaseExpiresAt := Some(10))
  const OldEvents := [Event("r", Entered(Queued), 0), Event("r", Started, 0), Event("r", Entered(DeadLettered), 10)]
  const OldStates := [
    Initial,
    System(map["r" := OldRun], OldEvents[..1], []),
    System(map["r" := OldRunning], OldEvents[..2], [OldClaim]),
    System(map["r" := LeaseLapsed(OldRunning, 10)], OldEvents, [OldClaim]),
    System(map[], [], [OldClaim]),
    System(map[], [Event("r", PreflightRejected, 12)], [OldClaim])]
  const OldActions := [
    Enqueue(EnqueueInput("task", "{}", "api", None, None, [], Some(1), None, None, None), "r", None, 0),
    Claim("r", "w", 10, TaskFilter(None, None), "t", 0),
    Requeue(["r"], 10),
    Cleanup(11),
    RejectPreflight(OldClaim, 12)]

  lemma OldRunIsClaimed()
    ensures Step(OldStates[0], OldActions[0], OldStates[1]) && Step(OldStates[1], OldActions[1], OldStates[2])
  {
    var s1 := OldStates[1];
    assert OldEvents[..1] == [] + [OldEvents[0]];
    assert OldEvents[..2] == OldEvents[..1] + [OldEvents[1]];
    assert forall r :: Claimable(s1.runs, r, TaskFilter(None, None), 0) ==> r == "r";
  }

  lemma OldRunIsDeadLettered()
    ensures Step(OldStates[2], OldActions[2], OldStates[3])
  {
    var s2 := OldStates[2];
    assert ExpiredRuns(s2.runs, 10) == {"r"};
    assert ["r"][..0] == [];
    assert RequeueAll(s2, [], 10) == s2;
    assert OldEvents == OldEvents[..2] + [OldEvents[2]];
  }

  lemma OldRunIsDeleted()
    ensures Step(OldStates[3], OldActions[3], OldStates[4]) && Step(OldStates[4], OldActions[4], OldStates[5])
  {
    var s3 := OldStates[3];
    assert Retained(s3.runs, 11) == {};
    assert s3.runs.Keys - {} == {"r"};
    NothingKept(OldEvents, {"r"});
    assert Apply(s3, OldActions[3]).runs == map[];
  }

  lemma {:induction false} NothingKept(events: seq<Event>, deleted: set<RunId>)
    requires forall e :: e in events ==> e.runId in deleted
    ensures KeepEvents(events, deleted) == []
  {
    if events != [] {
      NothingKept(events[..|events| - 1], deleted);
    }
  }

  /** And it happens: a lease lapses for good, retention deletes the run, then its first worker reports a preflight. */
  lemma OrphanEventsExist()
    ensures Execution(OldStates, OldActions) && Orphan(OldStates[5], Event("r", PreflightRejected, 12))
  {
    OldRunIsClaimed();
    OldRunIsDeadLettered();
    OldRunIsDeleted();
  }

  lemma EventIdIsUnique(s: System, input: EnqueueInput, id: RunId)
    requires Deduplicated(s) && id in s.runs
    requires input.sourceEventId.Some? && s.runs[id].sourceEventId == input.sourceEventId
    ensures Duplicates(s.runs, input) == {id}
  {
    var byEvent := set r | r in s.runs && input.sourceEventId.Some? && s.runs[r].sourceEventId == input.sourceEventId;
    assert id in byEvent;
    forall r | r in byEvent ensures r == id {
      assert SameEvent(s.runs[r], s.runs[id]);
    }
    assert byEvent == {id};
  }

  lemma CoalescedIsUnique(s: System, input: EnqueueInput, id: RunId)
    requires Deduplicated(s) && id in s.runs && Active(s.runs[id]) && s.runs[id].taskId == input.taskId
    requires input.sourceEventId.None?
    requires StoredKey(input.coalesceKey).Some? && s.runs[id].coalesceKey == StoredKey(input.coalesceKey)
    ensures Duplicates(s.runs, input) == {id}
  {
    assert id in Duplicates(s.runs, input);
    forall r | r in Duplicates(s.runs, input) ensures r == id {
      assert SameWork(s.runs[r], s.runs[id]);
    }
  }

  lemma OnlyDuplicateIsReturned(s: System, a: Action, t: System, id: RunId)
    requires Step(s, a, t) && a.Enqueue? && Duplicates(s.runs, a.input) == {id}
    ensures a.reuse == Some(id) && t == s
  {
    assert id in Duplicates(s.runs, a.input);
  }

  /** While a run with an event id is stored, every enqueue of that event id returns it and changes nothing. */
  lemma EventIdReturnsItsRun(states: seq<System>, actions: seq<Action>, i: nat, id: RunId)
    requires Execution(states, actions) && i < |actions| && actions[i].Enqueue?
    requires id in states[i].runs && actions[i].input.sourceEventId.Some?
    requires states[i].runs[id].sourceEventId == actions[i].input.sourceEventId
    ensures actions[i].reuse == Some(id) && states[i + 1] == states[i]
  {
    ReachableInvariant(states, actions, i);
    EventIdIsUnique(states[i], actions[i].input, id);
    OnlyDuplicateIsReturned(states[i], actions[i], states[i + 1], id);
  }

  /** While a coalesced run is active, an enqueue with no event id and the same task and key returns it. */
  lemma CoalesceReturnsTheActiveRun(states: seq<System>, actions: seq<Action>, i: nat, id: RunId)
    requires Execution(states, actions) && i < |actions| && actions[i].Enqueue?
    requires id in states[i].runs && Active(states[i].runs[id])
    requires actions[i].input.sourceEventId.None? && StoredKey(actions[i].input.coalesceKey).Some?
    requires states[i].runs[id].taskId == actions[i].input.taskId
    requires states[i].runs[id].coalesceKey == StoredKey(actions[i].input.coalesceKey)
    ensures actions[i].reuse == Some(id) && states[i + 1] == states[i]
  {
    ReachableInvariant(states, actions, i);
    CoalescedIsUnique(states[i], actions[i].input, id);
    OnlyDuplicateIsReturned(states[i], actions[i], states[i + 1], id);
  }

  /**
   The result type lets an execution report `queued` or `running`. Recording such a result would
   break the account of the run; the store stays sound exactly when the reported status is terminal.
   */
  lemma OnlyTerminalResultsAreSound(s: System, claim: ClaimedRun, result: TaskResult, retryAt: Time, now: Time)
    requires Invariant(s) && claim in s.claims && Holds(s.runs, claim)
    ensures Invariant(Apply(s, Record(claim, result, retryAt, now))) <==> result.status.Terminal()
  {
    var a := Record(claim, result, retryAt, now);
    if result.status.Terminal() {
      StepKeepsInvariant(s, a, Apply(s, a));
    } else {
      AppendEvent(s.events, Event(claim.id, SettleEvent(claim, result), now), claim.id);
      assert Replay(Apply(s, a).events, claim.id) == Illegal;
    }
  }
}
