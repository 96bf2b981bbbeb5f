/** What single steps of the run queue do to a row, field by field, and how long their effects last. */
module RunQueueMeaning {
  import opened Prelude
  import opened RunQueue
  import opened RunQueueInvariant
  import opened RunQueueRuns

  // ----- claiming -----

  /** Whether a worker that knows some tasks and is capable of some of them may take a task: unknown tasks are anyone's. */
  ghost predicate MayTake(filter: TaskFilter, taskId: string) {
    match filter
    case TaskFilter(None, _) => true
    case TaskFilter(Some(eligible), None) => taskId in eligible
    case TaskFilter(Some(eligible), Some(known)) => known == {} || taskId in eligible || taskId !in known
  }

  /** A queued run that is due, that the worker may take, and whose target has a free slot. */
  ghost predicate Ready(s: System, id: RunId, filter: TaskFilter, now: Time) {
    && id in s.runs
    && var run := s.runs[id];
       && run.status == Queued
       && (run.nextRetryAt == None || run.nextRetryAt.value <= now)
       && MayTake(filter, run.taskId)
       && (run.targetId == None || run.targetMax == None
           || |set r | r in s.runs && s.runs[r].status == Running && s.runs[r].targetId == run.targetId| < run.targetMax.value)
  }

  lemma ReadyIsClaimable(s: System, id: RunId, filter: TaskFilter, now: Time)
    ensures Ready(s, id, filter, now) <==> Claimable(s.runs, id, filter, now)
  {
    if id in s.runs {
      assert RunningOnTarget(s.runs, s.runs[id].targetId)
          == set r | r in s.runs && s.runs[r].status == Running && s.runs[r].targetId == s.runs[id].targetId;
    }
  }

  /**
   A claim takes the run that is ready and has waited longest, starts it now, and holds it for exactly the
   lease asked for; what the run is and what it may use stays as it was.
   */
  lemma ClaimTakesTheOldest(s: System, a: Action, t: System)
    requires Step(s, a, t) && a.Claim?
    ensures Ready(s, a.runId, a.filter, a.now)
    ensures forall r :: Ready(s, r, a.filter, a.now) ==>
              || s.runs[a.runId].queuedAt < s.runs[r].queuedAt
              || (s.runs[a.runId].queuedAt == s.runs[r].queuedAt && s.runs[a.runId].createdAt <= s.runs[r].createdAt)
    ensures a.runId in t.runs
    ensures var was, row := s.runs[a.runId], t.runs[a.runId];
            && row.status == Running && row.claimToken == Some(a.token) && row.workerId == Some(a.workerId)
            && row.startedAt == Some(a.now) && row.leaseExpiresAt == Some(a.now + a.leaseMs) && row.nextRetryAt == None
            && row.taskId == was.taskId && row.payload == was.payload && row.targetId == was.targetId
            && row.targetMax == was.targetMax && row.policy == was.policy
            && row.attemptCount == was.attemptCount && row.maxAttempts == was.maxAttempts
    ensures forall r :: r in s.runs && r != a.runId ==> r in t.runs && t.runs[r] == s.runs[r]
  {
    ReadyIsClaimable(s, a.runId, a.filter, a.now);
    forall r | Ready(s, r, a.filter, a.now) ensures ClaimedBefore(s.runs[a.runId], s.runs[r]) {
      ReadyIsClaimable(s, r, a.filter, a.now);
    }
  }

  // ----- enqueueing -----

  /** An enqueue that returns a run returns the oldest one of the same event, or else the oldest active one of the same work. */
  lemma EnqueueReusesOnly(s: System, a: Action, t: System)
    requires Step(s, a, t) && a.Enqueue? && a.reuse.Some?
    ensures a.reuse.value in s.runs && t == s
    ensures var run := s.runs[a.reuse.value];
            || (a.input.sourceEventId.Some? && run.sourceEventId == a.input.sourceEventId)
            || (&& (a.input.sourceEventId.Some? ==> forall r :: r in s.runs ==> s.runs[r].sourceEventId != a.input.sourceEventId)
                && a.input.coalesceKey.Some? && a.input.coalesceKey.value != ""
                && run.coalesceKey.Some? && run.coalesceKey.value == a.input.coalesceKey.value
                && run.taskId == a.input.taskId && (run.status == Queued || run.status == Running))
  {
    var byEvent := set r | r in s.runs && a.input.sourceEventId.Some? && s.runs[r].sourceEventId == a.input.sourceEventId;
    if byEvent == {} {
      forall r | r in s.runs && a.input.sourceEventId.Some? ensures s.runs[r].sourceEventId != a.input.sourceEventId {
        assert r !in byEvent;
      }
    }
  }

  /** A new run starts queued, with no attempt made, under exactly the constraints asked for. */
  lemma EnqueueCreates(s: System, a: Action, t: System)
    requires Step(s, a, t) && a.Enqueue? && a.reuse.None?
    ensures a.freshId !in s.runs && a.freshId in t.runs
    ensures var run := t.runs[a.freshId];
            && run.status == Queued && run.attemptCount == 0 && run.queuedAt == run.createdAt == a.now
            && run.taskId == a.input.taskId && run.payload == a.input.payload && run.sourceEventId == a.input.sourceEventId
            && run.targetId == a.input.targetId && run.targetMax == a.input.targetMax && run.policy == a.input.policy
            && run.maxAttempts == (if a.input.maxAttempts.Some? then a.input.maxAttempts.value else 3)
            && run.nextRetryAt == None && run.claimToken == None && run.leaseExpiresAt == None
    ensures forall r :: r in s.runs ==> r in t.runs && t.runs[r] == s.runs[r]
  {}

  // ----- leases -----

  /** Nothing the system does at this step can end a lease that runs until `until`: no later sweep, no own result. */
  ghost predicate Spares(a: Action, claim: ClaimedRun, until: Time) {
    && (a.Requeue? ==> a.now < until)
    && (a.Record? ==> a.claim != claim)
    && (a.Renew? && a.claim == claim ==> until <= a.now + a.leaseMs)
  }

  ghost predicate HeldUntil(s: System, claim: ClaimedRun, until: Time) {
    && claim in s.claims
    && Holds(s.runs, claim)
    && s.runs[claim.id].leaseExpiresAt.Some?
    && until <= s.runs[claim.id].leaseExpiresAt.value
  }

  lemma OneStepSpares(s: System, a: Action, t: System, claim: ClaimedRun, until: Time)
    requires Tokened(s) && Step(s, a, t) && HeldUntil(s, claim, until) && Spares(a, claim, until)
    ensures HeldUntil(t, claim, until)
  {
    if a.Requeue? {
      RequeueAllExact(s, a.order, a.now, claim.id);
      RequeueAllOnlyStops(s, a.order, a.now);
    } else if a.Record? || a.Renew? {
      if a.claim != claim {
        assert a.claim.token != claim.token by {
          if a.claim.token == claim.token {
            TokensIdentifyClaims(s, a.claim, claim);
          }
        }
      }
    }
  }

  lemma SparedAt(states: seq<System>, actions: seq<Action>, k: nat, claim: ClaimedRun, until: Time)
    requires Execution(states, actions) && k < |actions|
    requires HeldUntil(states[k], claim, until) && Spares(actions[k], claim, until)
    ensures HeldUntil(states[k + 1], claim, until)
  {
    var s, a, t := states[k], actions[k], states[k + 1];
    assert Step(s, a, t);
    assert Tokened(s) by {
      ReachableInvariant(states, actions, k);
    }
    OneStepSpares(s, a, t, claim, until);
  }

  lemma ClaimHolds(s: System, a: Action, t: System, claim: ClaimedRun)
    requires Step(s, a, t) && a.Claim? && t.claims == s.claims + [claim]
    ensures HeldUntil(t, claim, a.now + a.leaseMs)
  {
    assert t.claims[|s.claims|] == claim;
  }

  /**
   A lease protects its holder: until it ends or is used up, no sweep, no other worker and no retention takes the run
   away, whatever else happens in between.
   */
  lemma {:induction false} LeaseProtects(states: seq<System>, actions: seq<Action>, i: nat, j: nat, claim: ClaimedRun)
    requires Execution(states, actions) && i < j < |states|
    requires actions[i].Claim? && states[i + 1].claims == states[i].claims + [claim]
    requires forall k :: i < k < j ==> Spares(actions[k], claim, actions[i].now + actions[i].leaseMs)
    ensures HeldUntil(states[j], claim, actions[i].now + actions[i].leaseMs)
    decreases j - i
  {
    if j == i + 1 {
      assert Step(states[i], actions[i], states[j]);
      ClaimHolds(states[i], actions[i], states[j], claim);
    } else {
      LeaseProtects(states, actions, i, j - 1, claim);
      SparedAt(states, actions, j - 1, claim, actions[i].now + actions[i].leaseMs);
    }
  }

  /** A lapsed lease costs one attempt: the run goes back to the queue exactly while attempts are left. */
  lemma LapsedGoesBack(s: System, order: seq<RunId>, now: Time, id: RunId)
    requires ExpiryOrder(s.runs, order, now) && id in s.runs && Expired(s.runs[id], now)
    ensures var was := s.runs[id];
            var t := RequeueAll(s, order, now);
            && id in t.runs
            && var row := t.runs[id];
               && row.attemptCount == was.attemptCount + 1
               && row.claimToken == None && row.leaseExpiresAt == None && row.workerId == None && row.nextRetryAt == None
               && row.lastErrorCode == Some("lease_expired")
               && row.taskId == was.taskId && row.payload == was.payload && row.maxAttempts == was.maxAttempts
               && row.targetId == was.targetId && row.targetMax == was.targetMax
               && (if was.attemptCount + 1 < was.maxAttempts
                   then row.status == Queued && row.queuedAt == now && row.startedAt == None && row.finishedAt == None
                   else row.status == DeadLettered && row.finishedAt == Some(now))
  {
    assert id in ExpiredRuns(s.runs, now);
    RequeueAllExact(s, order, now, id);
  }

  // ----- results -----

  /**
   A recorded result costs one attempt and gives the claim up. A retryable failure goes back to the queue for its
   retry time exactly while attempts are left, and is dead-lettered otherwise; anything else keeps its own status.
   */
  lemma ResultIsRecorded(s: System, a: Action, t: System)
    requires Step(s, a, t) && a.Record? && Holds(s.runs, a.claim)
    ensures a.claim.id in t.runs
    ensures var row, attempts := t.runs[a.claim.id], a.claim.attemptCount + 1;
            && row.attemptCount == attempts && row.claimToken == None && row.leaseExpiresAt == None
            && row.lastErrorCode == a.result.errorCode
            && (if a.result.status != Failed || !a.result.retryable then
                  row.status == a.result.status && row.finishedAt == Some(a.now) && row.result == Some(a.result) && row.nextRetryAt == None
                else if attempts < a.claim.maxAttempts then
                  row.status == Queued && row.nextRetryAt == Some(a.retryAt) && row.queuedAt == a.now && row.finishedAt == None
                  && row.result == Some(a.result)
                else
                  row.status == DeadLettered && row.finishedAt == Some(a.now) && row.nextRetryAt == None
                  && row.result == Some(a.result.(status := DeadLettered, retryable := false)))
    ensures forall r :: r in s.runs && r != a.claim.id ==> r in t.runs && t.runs[r] == s.runs[r]
  {}

  /** A finished row, as it is stored. */
  ghost predicate FinishedAs(s: System, id: RunId, row: Run, at: Time) {
    id in s.runs && s.runs[id] == row && row.status.Terminal() && row.finishedAt == Some(at)
  }

  /** Retention, if that is what happens, asks for runs finished no later than `at`. */
  ghost predicate Retains(a: Action, at: Time) {
    a.Cleanup? ==> a.before <= at
  }

  lemma TerminalStands(states: seq<System>, actions: seq<Action>, k: nat, id: RunId, row: Run, at: Time)
    requires Execution(states, actions) && k < |actions|
    requires FinishedAs(states[k], id, row, at) && Retains(actions[k], at)
    ensures FinishedAs(states[k + 1], id, row, at)
  {
    var s, a, t := states[k], actions[k], states[k + 1];
    assert Step(s, a, t);
    assert Tokened(s) by {
      ReachableInvariant(states, actions, k);
    }
    if a.Requeue? {
      RequeueAllExact(s, a.order, a.now, id);
    }
  }

  /** A finished run is never changed again, and stays stored until retention asks for runs finished after it. */
  lemma {:induction false} FinishedRunsStand(states: seq<System>, actions: seq<Action>, i: nat, j: nat, id: RunId, row: Run, at: Time)
    requires Execution(states, actions) && i <= j < |states| && FinishedAs(states[i], id, row, at)
    requires forall k :: i <= k < j ==> Retains(actions[k], at)
    ensures FinishedAs(states[j], id, row, at)
    decreases j - i
  {
    if i < j {
      FinishedRunsStand(states, actions, i, j - 1, id, row, at);
      TerminalStands(states, actions, j - 1, id, row, at);
    }
  }

  /** Retention deletes exactly the finished runs from before its bound. */
  lemma CleanupDeletesOnlyOld(s: System, a: Action, t: System, id: RunId)
    requires Step(s, a, t) && a.Cleanup? && id in s.runs
    ensures id !in t.runs <==>
              && s.runs[id].status in {Succeeded, Failed, DeadLettered, Skipped}
              && s.runs[id].finishedAt.Some? && s.runs[id].finishedAt.value < a.before
    ensures id in t.runs ==> t.runs[id] == s.runs[id]
  {}
}
