/** The run store and the worker's side of the protocol, as the imperative code has them. */
module RunStore {
  import opened Prelude
  import opened RunQueue
  import opened RunQueueInvariant
  import opened RunQueueRuns

  datatype RetryError = NotFound | NotRetryable(status: Status)

  /** Raised when a worker writes under a claim that is no longer current. */
  datatype LeaseLost = LeaseLost(runId: RunId)

  /** Task ids as the claim query receives them: without repetition and without empty ids. */
  function TaskIds(ids: seq<string>): set<string> {
    set id | id in ids && id != ""
  }

  function ClaimFilter(eligible: Option<seq<string>>, known: Option<seq<string>>): TaskFilter {
    TaskFilter(if eligible.Some? then Some(TaskIds(eligible.value)) else None,
               if known.Some? then Some(TaskIds(known.value)) else None)
  }

  const ClaimTries := 10

  class Store {
    var runs: map<RunId, Run>
    var events: seq<Event>
    ghost var claims: seq<ClaimedRun>

    ghost function State(): System
      reads this
    {
      System(runs, events, claims)
    }

    constructor ()
      ensures State() == Initial
    {
      runs, events, claims := map[], [], [];
    }

    method InsertEvent(id: RunId, kind: EventType, now: Time)
      modifies this`events
      ensures events == old(events) + [Event(id, kind, now)]
    {
      events := events + [Event(id, kind, now)];
    }

    method EnqueueRun(input: EnqueueInput, uuid: RunId, now: Time) returns (id: RunId, created: bool)
      requires FreshRunId(State(), uuid)
      modifies this
      ensures var a := Enqueue(input, uuid, if created then None else Some(id), now);
              Enabled(old(State()), a) && State() == Apply(old(State()), a)
      ensures created ==> id == uuid
    {
      var duplicates := Duplicates(runs, input);
      if duplicates != {} {
        OldestExists(runs, duplicates);
        var oldest :| oldest in duplicates && forall d :: d in duplicates ==> runs[oldest].createdAt <= runs[d].createdAt;
        return oldest, false;
      }
      runs := runs[uuid := NewRun(input, now)];
      InsertEvent(uuid, Entered(Queued), now);
      return uuid, true;
    }

    method RetryRun(runId: RunId, source: string, capabilities: Option<seq<string>>, uuid: RunId, now: Time)
      returns (r: Result<RunId, RetryError>)
      requires FreshRunId(State(), uuid)
      modifies this
      ensures r.Ok? ==>
                var a := Retry(runId, source, capabilities, uuid, now);
                && r.value == uuid
                && Enabled(old(State()), a) && State() == Apply(old(State()), a)
                && runs[uuid].targetId == runs[runId].targetId
                && runs[uuid].targetMax == runs[runId].targetMax
                && runs[uuid].maxAttempts == runs[runId].maxAttempts
                && runs[uuid].policy == runs[runId].policy
      ensures r.Err? ==> State() == old(State())
      ensures r == Err(NotFound) <==> runId !in old(runs)
      ensures r.Err? && r.error.NotRetryable? <==> runId in old(runs) && !old(runs)[runId].status.Terminal()
    {
      if runId !in runs {
        return Err(NotFound);
      }
      if !runs[runId].status.Terminal() {
        return Err(NotRetryable(runs[runId].status));
      }
      var input := RetryInput(runs[runId], source, capabilities);
      assert Duplicates(runs, input) == {};
      var id, created := EnqueueRun(input, uuid, now);
      return Ok(id);
    }

    /** The rows of the expiry query in the order of their leases. */
    method SelectExpired(now: Time) returns (rows: seq<RunId>)
      ensures ExpiryOrder(runs, rows, now)
    {
      rows := [];
      var rest := ExpiredRuns(runs, now);
      while rest != {}
        invariant rest <= ExpiredRuns(runs, now)
        invariant Distinct(rows)
        invariant forall r :: r in ExpiredRuns(runs, now) <==> r in rows || r in rest
        invariant forall i :: 0 <= i < |rows| ==> rows[i] in runs
        invariant forall r :: r in rows ==> r !in rest
        invariant forall i, j :: 0 <= i < j < |rows| ==> LeaseNoLater(runs[rows[i]], runs[rows[j]], now)
        invariant forall i, q :: 0 <= i < |rows| && q in rest ==> LeaseNoLater(runs[rows[i]], runs[q], now)
        decreases rest
      {
        SoonestExists(runs, rest, now);
        var next :| next in rest && forall r :: r in rest ==> LeaseNoLater(runs[next], runs[r], now);
        rows := rows + [next];
        rest := rest - {next};
      }
    }

    method RequeueExpiredRuns(checkedAt: Time, now: Time) returns (requeued: nat, ghost order: seq<RunId>)
      modifies this
      ensures ExpiredRuns(old(runs), checkedAt) == {} ==> requeued == 0 && State() == old(State())
      ensures ExpiredRuns(old(runs), checkedAt) != {} ==>
                && Enabled(old(State()), Requeue(order, now))
                && State() == Apply(old(State()), Requeue(order, now))
                && requeued == |ExpiredRuns(old(runs), now)|
    {
      order := [];
      if ExpiredRuns(runs, checkedAt) == {} {
        return 0, [];
      }
      var rows := SelectExpired(now);
      order := rows;
      requeued := 0;
      ghost var before := State();
      for k := 0 to |rows|
        invariant State() == RequeueAll(before, rows[..k], now)
        invariant requeued == k
      {
        var id := rows[k];
        assert id in rows && id !in rows[..k];
        assert rows[..k + 1][..k] == rows[..k];
        RequeueAllExact(before, rows[..k], now, id);
        if id !in runs || !Expired(runs[id], now) {
          continue;
        }
        runs := runs[id := LeaseLapsed(runs[id], now)];
        requeued := requeued + 1;
        InsertEvent(id, if runs[id].status.Queued? then Requeued else Entered(DeadLettered), now);
      }
      assert rows[..|rows|] == rows;
      DistinctSize(rows, ExpiredRuns(before.runs, now));
    }

    method RenewRunLease(runId: RunId, token: string, leaseMs: nat, now: Time) returns (renewed: bool)
      modifies this`runs
      ensures renewed <==> HeldUnder(old(runs), runId, token)
      ensures runs == if renewed then old(runs)[runId := old(runs)[runId].(leaseExpiresAt := Some(now + leaseMs))] else old(runs)
    {
      if !HeldUnder(runs, runId, token) {
        return false;
      }
      runs := runs[runId := runs[runId].(leaseExpiresAt := Some(now + leaseMs))];
      return true;
    }

    /** Claims the next run this worker may take, or none; the token stands for the random id drawn for the claim. */
    method ClaimNextQueuedRun(workerId: string, leaseMs: nat, eligible: Option<seq<string>>, known: Option<seq<string>>,
                              token: string, now: Time)
      returns (claimed: Option<ClaimedRun>)
      requires FreshToken(State(), token)
      modifies this
      ensures claimed.None? ==> State() == old(State())
      ensures claimed.None? ==> forall r :: !Claimable(old(runs), r, ClaimFilter(eligible, known), now)
      ensures claimed.Some? ==>
                var a := Claim(claimed.value.id, workerId, leaseMs, ClaimFilter(eligible, known), token, now);
                && Enabled(old(State()), a) && State() == Apply(old(State()), a)
                && claims == old(claims) + [claimed.value]
    {
      var filter := ClaimFilter(eligible, known);
      if filter.Hopeless() {
        return None;
      }
      for attempt := 0 to ClaimTries
        invariant attempt == 0 && State() == old(State())
      {
        var candidates := set r | r in runs && Claimable(runs, r, filter, now);
        if candidates == {} {
          assert forall r :: Claimable(runs, r, filter, now) ==> r in candidates;
          return None;
        }
        FirstInLineExists(runs, candidates);
        var id :| id in candidates && forall r :: r in candidates ==> ClaimedBefore(runs[id], runs[r]);
        if !runs[id].status.Queued? {
          continue;
        }
        runs := runs[id := runs[id].(status := Running, workerId := Some(workerId), claimToken := Some(token),
                                     startedAt := Some(now), leaseExpiresAt := Some(now + leaseMs), nextRetryAt := None)];
        InsertEvent(id, Started, now);
        var claim := ClaimOf(id, runs[id], token);
        claims := claims + [claim];
        return Some(claim);
      }
      return None;
    }

    method FinishRun(runId: RunId, result: TaskResult, attemptCount: Option<nat>, token: string, now: Time)
      returns (r: Result<Run, LeaseLost>)
      modifies this
      ensures r.Ok? <==> HeldUnder(old(runs), runId, token)
      ensures r.Err? ==> State() == old(State())
      ensures r.Ok? ==>
                var attempts := attemptCount.GetOr(old(runs)[runId].attemptCount);
                && runId in runs && r.value == runs[runId]
                && State() == Write(old(State()), runId, Finished(old(runs)[runId], result, attempts, now),
                                    Entered(result.status), now)
    {
      if !HeldUnder(runs, runId, token) {
        return Err(LeaseLost(runId));
      }
      runs := runs[runId := Finished(runs[runId], result, attemptCount.GetOr(runs[runId].attemptCount), now)];
      InsertEvent(runId, Entered(result.status), now);
      return Ok(runs[runId]);
    }

    method ScheduleRetry(runId: RunId, result: TaskResult, attemptCount: nat, retryAt: Time, token: string, now: Time)
      returns (r: Result<Run, LeaseLost>)
      modifies this
      ensures r.Ok? <==> HeldUnder(old(runs), runId, token)
      ensures r.Err? ==> State() == old(State())
      ensures r.Ok? ==>
                && runId in runs && r.value == runs[runId]
                && State() == Write(old(State()), runId, Retrying(old(runs)[runId], result, attemptCount, retryAt, now),
                                    RetryScheduled, now)
    {
      if !HeldUnder(runs, runId, token) {
        return Err(LeaseLost(runId));
      }
      runs := runs[runId := Retrying(runs[runId], result, attemptCount, retryAt, now)];
      InsertEvent(runId, RetryScheduled, now);
      return Ok(runs[runId]);
    }

    method DeadLetterRun(runId: RunId, result: TaskResult, attemptCount: nat, token: string, now: Time)
      returns (r: Result<Run, LeaseLost>)
      modifies this
      ensures r.Ok? <==> HeldUnder(old(runs), runId, token)
      ensures r.Err? ==> State() == old(State())
      ensures r.Ok? ==>
                && runId in runs && r.value == runs[runId]
                && State() == Write(old(State()), runId, DeadLetter(old(runs)[runId], result, attemptCount, now),
                                    Entered(DeadLettered), now)
    {
      if !HeldUnder(runs, runId, token) {
        return Err(LeaseLost(runId));
      }
      runs := runs[runId := DeadLetter(runs[runId], result, attemptCount, now)];
      InsertEvent(runId, Entered(DeadLettered), now);
      return Ok(runs[runId]);
    }

    method CleanupRetention(finishedBefore: Option<Time>) returns (deletedRuns: nat, deletedEvents: nat)
      modifies this
      ensures finishedBefore.None? ==> State() == old(State()) && deletedRuns == 0 && deletedEvents == 0
      ensures finishedBefore.Some? ==>
                && State() == Apply(old(State()), Cleanup(finishedBefore.value))
                && deletedRuns == |old(runs)| - |runs| && deletedEvents == |old(events)| - |events|
    {
      deletedRuns, deletedEvents := 0, 0;
      if finishedBefore.Some? {
        var kept := Retained(runs, finishedBefore.value);
        var deleted := runs.Keys - kept;
        KeepEventsShrinks(events, deleted);
        var keptEvents := KeepEvents(events, deleted);
        deletedEvents := |events| - |keptEvents|;
        events := keptEvents;
        var keptRuns := map r | r in kept :: runs[r];
        assert keptRuns.Keys == kept;
        SubsetSize(kept, runs.Keys);
        deletedRuns := |runs| - |keptRuns|;
        runs := keptRuns;
      }
    }
  }

  // ----- the worker -----

  function PowerOfTwo(n: nat): nat {
    if n == 0 then 1 else 2 * PowerOfTwo(n - 1)
  }

  const MaxRetryDelayMs := 300_000

  function ComputeRetryDelayMs(attemptCount: nat, baseDelayMs: nat): nat {
    Min(baseDelayMs * PowerOfTwo(Max(0, attemptCount - 1)), MaxRetryDelayMs)
  }

  /** Backoff never shortens: each further attempt waits twice as long until the five-minute cap, then stays there. */
  lemma {:induction false} BackoffGrows(attemptCount: nat, baseDelayMs: nat)
    requires 0 < attemptCount
    ensures var d, e := ComputeRetryDelayMs(attemptCount, baseDelayMs), ComputeRetryDelayMs(attemptCount + 1, baseDelayMs);
            e == Min(2 * d, MaxRetryDelayMs) && d <= e && (attemptCount == 1 ==> d == Min(baseDelayMs, 300_000))
  {
    assert baseDelayMs * PowerOfTwo(attemptCount) == 2 * (baseDelayMs * PowerOfTwo(attemptCount - 1));
  }

  /** A sequence of delays that starts at a base and doubles from one attempt to the next. */
  ghost predicate Doubles(delays: nat -> nat, baseDelayMs: nat) {
    delays(0) == baseDelayMs && forall n: nat :: delays(n + 1) == 2 * delays(n)
  }

  lemma {:induction false} DoublesIsPower(delays: nat -> nat, baseDelayMs: nat, n: nat)
    requires Doubles(delays, baseDelayMs)
    ensures delays(n) == baseDelayMs * PowerOfTwo(n)
  {
    if n > 0 {
      DoublesIsPower(delays, baseDelayMs, n - 1);
      assert delays(n - 1 + 1) == 2 * delays(n - 1);
    }
  }

  lemma DelaysExist(baseDelayMs: nat)
    ensures Doubles((n: nat) => baseDelayMs * PowerOfTwo(n), baseDelayMs)
  {
    var delays := (n: nat) => baseDelayMs * PowerOfTwo(n);
    forall n: nat ensures delays(n + 1) == 2 * delays(n) {
      assert PowerOfTwo(n + 1) == 2 * PowerOfTwo(n);
    }
  }

  /** Attempt n waits for the base delay doubled n - 1 times, five minutes at most; the first waits for the base itself. */
  lemma RetryDelays(delays: nat -> nat, baseDelayMs: nat, attempt: Positive)
    requires Doubles(delays, baseDelayMs)
    ensures ComputeRetryDelayMs(attempt, baseDelayMs) == Min(delays(attempt - 1), 300_000)
    ensures attempt == 1 ==> ComputeRetryDelayMs(attempt, baseDelayMs) == Min(baseDelayMs, 300_000)
  {
    DoublesIsPower(delays, baseDelayMs, attempt - 1);
  }

  /** Records an execution's result under its claim; `lost` tells that the claim was no longer current. */
  method RecordRunResult(store: Store, claimed: ClaimedRun, result: TaskResult, retryBaseDelayMs: nat, clock: Time, now: Time)
    returns (lost: bool)
    modifies store
    ensures store.State() ==
            Apply(old(store.State()),
                  Record(claimed, result, clock + ComputeRetryDelayMs(claimed.attemptCount + 1, retryBaseDelayMs), now))
    ensures lost <==> !Holds(old(store.runs), claimed)
    ensures !lost && result.status.Failed? && result.retryable && claimed.attemptCount + 1 < claimed.maxAttempts ==>
              && claimed.id in store.runs
              && store.runs[claimed.id].status == Queued
              && (claimed.attemptCount == 0 ==>
                    store.runs[claimed.id].nextRetryAt == Some(clock + Min(retryBaseDelayMs, 300_000)))
              && forall delays: nat -> nat :: Doubles(delays, retryBaseDelayMs) ==>
                   store.runs[claimed.id].nextRetryAt == Some(clock + Min(delays(claimed.attemptCount), 300_000))
  {
    var attemptCount := claimed.attemptCount + 1;
    var r: Result<Run, LeaseLost>;
    if result.status.Failed? && result.retryable {
      if attemptCount >= claimed.maxAttempts {
        r := store.DeadLetterRun(claimed.id, result, attemptCount, claimed.token, now);
      } else {
        var retryAt := clock + ComputeRetryDelayMs(attemptCount, retryBaseDelayMs);
        r := store.ScheduleRetry(claimed.id, result, attemptCount, retryAt, claimed.token, now);
        forall delays: nat -> nat | Doubles(delays, retryBaseDelayMs)
          ensures ComputeRetryDelayMs(attemptCount, retryBaseDelayMs) == Min(delays(claimed.attemptCount), 300_000)
        {
          RetryDelays(delays, retryBaseDelayMs, attemptCount);
        }
        assert claimed.attemptCount == 0 ==> retryBaseDelayMs * PowerOfTwo(0) == retryBaseDelayMs;
      }
    } else {
      r := store.FinishRun(claimed.id, result, Some(attemptCount), claimed.token, now);
    }
    lost := r.Err?;
  }

  // ----- rows that a query's ordering selects always exist -----

  lemma OldestExists(runs: map<RunId, Run>, some: set<RunId>)
    requires some != {} && some <= runs.Keys
    ensures exists x :: x in some && forall y :: y in some ==> runs[x].createdAt <= runs[y].createdAt
  {
    var createdAt := (id: RunId) => if id in runs then runs[id].createdAt else 0;
    LeastExists(some, createdAt);
    var first :| first in some && forall y :: y in some ==> createdAt(first) <= createdAt(y);
    forall y | y in some ensures runs[first].createdAt <= runs[y].createdAt {
      assert createdAt(first) <= createdAt(y);
    }
  }

  lemma SoonestExists(runs: map<RunId, Run>, some: set<RunId>, now: Time)
    requires some != {} && some <= runs.Keys
    ensures exists x :: x in some && forall y :: y in some ==> LeaseNoLater(runs[x], runs[y], now)
  {
    var lease := (id: RunId) => if id in runs then runs[id].leaseExpiresAt.GetOr(now) else 0;
    LeastExists(some, lease);
    var first :| first in some && forall y :: y in some ==> lease(first) <= lease(y);
    forall y | y in some ensures LeaseNoLater(runs[first], runs[y], now) {
      assert lease(first) <= lease(y);
    }
  }

  lemma FirstInLineExists(runs: map<RunId, Run>, some: set<RunId>)
    requires some != {} && some <= runs.Keys
    ensures exists x :: x in some && forall y :: y in some ==> ClaimedBefore(runs[x], runs[y])
  {
    var queuedAt := (id: RunId) => if id in runs then runs[id].queuedAt else 0;
    LeastExists(some, queuedAt);
    var oldest :| oldest in some && forall y :: y in some ==> queuedAt(oldest) <= queuedAt(y);
    var ties := set r | r in some && runs[r].queuedAt == runs[oldest].queuedAt;
    assert oldest in ties;
    var createdAt := (id: RunId) => if id in runs then runs[id].createdAt else 0;
    LeastExists(ties, createdAt);
    var first :| first in ties && forall y :: y in ties ==> createdAt(first) <= createdAt(y);
    forall y | y in some ensures ClaimedBefore(runs[first], runs[y]) {
      assert queuedAt(oldest) <= queuedAt(y);
      assert y in ties ==> createdAt(first) <= createdAt(y);
    }
  }

  lemma {:induction false} DistinctSize<T>(s: seq<T>, elements: set<T>)
    requires Distinct(s) && forall x :: x in s <==> x in elements
    ensures |s| == |elements|
  {
    if s != [] {
      var last := s[|s| - 1];
      assert s == s[..|s| - 1] + [last];
      DistinctSize(s[..|s| - 1], elements - {last});
    } else {
      assert elements == {};
    }
  }

  lemma {:induction false} KeepEventsShrinks(events: seq<Event>, deleted: set<RunId>)
    ensures |KeepEvents(events, deleted)| <= |events|
  {
    if events != [] {
      KeepEventsShrinks(events[..|events| - 1], deleted);
    }
  }
}
