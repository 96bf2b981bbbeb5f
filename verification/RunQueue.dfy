/**
 The leased run queue as a transition system.

 Each SQLite transaction of the run store is one action on a `System`: the table of
 runs, the event log in insertion order, and the history of every claim ever handed to a
 worker. A claim in the history may be held by a worker that is slow, stale or already
 replaced; nothing forbids it from acting later.
 */
module RunQueue {
  import opened Prelude

  type RunId = string
  type Time = int

  datatype Status = Queued | Running | Succeeded | Failed | DeadLettered | Skipped {
    predicate Terminal() {
      Succeeded? || Failed? || DeadLettered? || Skipped?
    }
  }

  /** What a task execution reports. The type admits every status, as the source's schema does. */
  datatype TaskResult = TaskResult(
    status: Status,
    retryable: bool,
    errorCode: Option<string>,
    summary: Option<string>,
    stderr: Option<string>)

  datatype Run = Run(
    taskId: string,
    source: string,
    sourceEventId: Option<NonEmptyString>,
    coalesceKey: Option<NonEmptyString>,
    targetId: Option<string>,
    payload: string,
    capabilities: seq<string>,
    policy: Option<string>,
    maxAttempts: Positive,
    targetMax: Option<Positive>,
    createdAt: Time,
    status: Status,
    attemptCount: nat,
    queuedAt: Time,
    nextRetryAt: Option<Time>,
    startedAt: Option<Time>,
    finishedAt: Option<Time>,
    leaseExpiresAt: Option<Time>,
    workerId: Option<string>,
    claimToken: Option<string>,
    result: Option<TaskResult>,
    summary: Option<string>,
    errorText: Option<string>,
    lastErrorCode: Option<string>)

  /** The `type` column of an event. Settling a run logs the status it settled to. */
  datatype EventType =
    | Entered(status: Status)
    | Started
    | Requeued
    | RetryScheduled
    | PreflightRejected

  datatype Event = Event(runId: RunId, kind: EventType, at: Time)

  datatype ClaimedRun = ClaimedRun(
    id: RunId,
    taskId: string,
    targetId: Option<string>,
    payload: string,
    attemptCount: nat,
    maxAttempts: Positive,
    policy: Option<string>,
    token: string)

  datatype EnqueueInput = EnqueueInput(
    taskId: string,
    payload: string,
    source: string,
    sourceEventId: Option<NonEmptyString>,
    coalesceKey: Option<string>,
    capabilities: seq<string>,
    maxAttempts: Option<Positive>,
    targetMax: Option<Positive>,
    targetId: Option<string>,
    policy: Option<string>)

  datatype System = System(runs: map<RunId, Run>, events: seq<Event>, claims: seq<ClaimedRun>)

  const Initial := System(map[], [], [])

  const DefaultMaxAttempts: Positive := 3

  const LeaseExpiredText := "Run lease expired too many times and was moved to the dead-letter queue."

  // ----- enqueueing -----

  /** The stored coalesce key: an empty string counts as no key. */
  function StoredKey(key: Option<string>): Option<NonEmptyString> {
    if key.Some? && key.value != "" then Some(key.value) else None
  }

  predicate Active(run: Run) {
    run.status.Queued? || run.status.Running?
  }

  /** The runs an enqueue returns instead of creating one: first by event id, then by coalesce key. */
  function Duplicates(runs: map<RunId, Run>, input: EnqueueInput): set<RunId> {
    var byEvent := set r | r in runs && input.sourceEventId.Some? && runs[r].sourceEventId == input.sourceEventId;
    var key := StoredKey(input.coalesceKey);
    if byEvent != {} then byEvent
    else set r | r in runs && key.Some? && runs[r].taskId == input.taskId && runs[r].coalesceKey == key && Active(runs[r])
  }

  function NewRun(input: EnqueueInput, now: Time): Run {
    Run(input.taskId, input.source, input.sourceEventId, StoredKey(input.coalesceKey), input.targetId, input.payload,
        input.capabilities, input.policy, input.maxAttempts.GetOr(DefaultMaxAttempts), input.targetMax, now,
        Queued, 0, now, None, None, None, None, None, None, None, None, None, None)
  }

  /** What `retryRun` enqueues: the old run's task, input and target constraints, but neither of its dedup keys. */
  function RetryInput(run: Run, source: string, capabilities: Option<seq<string>>): EnqueueInput {
    EnqueueInput(run.taskId, run.payload, source, None, None, capabilities.GetOr(run.capabilities),
                 Some(run.maxAttempts), run.targetMax, run.targetId, run.policy)
  }

  // ----- claiming -----

  datatype TaskFilter = TaskFilter(eligible: Option<set<string>>, known: Option<set<string>>) {
    /** Whether a claim returns without looking at the table. */
    predicate Hopeless() {
      eligible == Some({}) && known.None?
    }

    predicate Admits(taskId: string) {
      eligible.None?
      || (known.None? && taskId in eligible.value)
      || (known.Some? && (known.value == {} || taskId in eligible.value || taskId !in known.value))
    }
  }

  function RunningOnTarget(runs: map<RunId, Run>, target: Option<string>): set<RunId> {
    set r | r in runs && runs[r].status.Running? && runs[r].targetId == target
  }

  predicate Claimable(runs: map<RunId, Run>, id: RunId, filter: TaskFilter, now: Time) {
    && id in runs
    && runs[id].status.Queued?
    && (runs[id].nextRetryAt.Some? ==> runs[id].nextRetryAt.value <= now)
    && filter.Admits(runs[id].taskId)
    && (runs[id].targetId.Some? && runs[id].targetMax.Some? ==>
          |RunningOnTarget(runs, runs[id].targetId)| < runs[id].targetMax.value)
  }

  /** The claim order: oldest time in the queue first, then oldest creation. */
  predicate ClaimedBefore(a: Run, b: Run) {
    a.queuedAt < b.queuedAt || (a.queuedAt == b.queuedAt && a.createdAt <= b.createdAt)
  }

  function ClaimOf(id: RunId, run: Run, token: string): ClaimedRun {
    ClaimedRun(id, run.taskId, run.targetId, run.payload, run.attemptCount, run.maxAttempts, run.policy, token)
  }

  ghost predicate FreshToken(s: System, token: string) {
    forall c :: c in s.claims ==> c.token != token
  }

  ghost predicate FreshRunId(s: System, id: RunId) {
    && id !in s.runs
    && (forall e :: e in s.events ==> e.runId != id)
    && (forall c :: c in s.claims ==> c.id != id)
  }

  // ----- holding and settling a claim -----

  /** The ownership guard of every write a worker makes: the row still runs under this claim's token. */
  predicate HeldUnder(runs: map<RunId, Run>, id: RunId, token: string) {
    id in runs && runs[id].status.Running? && runs[id].claimToken == Some(token)
  }

  predicate Holds(runs: map<RunId, Run>, claim: ClaimedRun) {
    HeldUnder(runs, claim.id, claim.token)
  }

  predicate Expired(run: Run, now: Time) {
    run.status.Running? && run.leaseExpiresAt.Some? && run.leaseExpiresAt.value <= now
  }

  function Finished(run: Run, result: TaskResult, attemptCount: nat, now: Time): Run {
    var errorText := if result.status.Failed? || result.status.DeadLettered? then TextOf(result) else None;
    run.(status := result.status, result := Some(result), summary := result.summary, errorText := errorText,
         attemptCount := attemptCount, nextRetryAt := None, lastErrorCode := result.errorCode,
         finishedAt := Some(now), leaseExpiresAt := None, claimToken := None)
  }

  function Retrying(run: Run, result: TaskResult, attemptCount: nat, retryAt: Time, now: Time): Run {
    run.(status := Queued, result := Some(result), summary := Some(result.summary.GetOr("Retry scheduled.")),
         errorText := TextOf(result), attemptCount := attemptCount, nextRetryAt := Some(retryAt),
         lastErrorCode := result.errorCode, queuedAt := now, startedAt := None, finishedAt := None,
         leaseExpiresAt := None, workerId := None, claimToken := None)
  }

  function DeadLetter(run: Run, result: TaskResult, attemptCount: nat, now: Time): Run {
    run.(status := DeadLettered, result := Some(result.(status := DeadLettered, retryable := false)),
         summary := Some(result.summary.GetOr("Run moved to the dead-letter queue.")), errorText := TextOf(result),
         attemptCount := attemptCount, nextRetryAt := None, lastErrorCode := result.errorCode,
         finishedAt := Some(now), leaseExpiresAt := None, claimToken := None)
  }

  function TextOf(result: TaskResult): Option<string> {
    if result.stderr.Some? then result.stderr else result.summary
  }

  /** The row a lapsed lease leaves behind: back in the queue, or dead-lettered on the last attempt. */
  function LeaseLapsed(run: Run, now: Time): Run {
    var attempts := run.attemptCount + 1;
    if attempts >= run.maxAttempts then
      run.(status := DeadLettered, summary := Some(LeaseExpiredText), errorText := Some(LeaseExpiredText),
           attemptCount := attempts, nextRetryAt := None, lastErrorCode := Some("lease_expired"),
           finishedAt := Some(now), leaseExpiresAt := None, workerId := None, claimToken := None)
    else
      run.(status := Queued, queuedAt := now, startedAt := None, finishedAt := None, leaseExpiresAt := None,
           nextRetryAt := None, lastErrorCode := Some("lease_expired"), workerId := None, claimToken := None,
           attemptCount := attempts)
  }

  function ExpiredRuns(runs: map<RunId, Run>, now: Time): set<RunId> {
    set r | r in runs && Expired(runs[r], now)
  }

  predicate LeaseNoLater(a: Run, b: Run, now: Time) {
    a.leaseExpiresAt.GetOr(now) <= b.leaseExpiresAt.GetOr(now)
  }

  /** The rows of the expiry query: all expired runs, once each, in the order of their lease expiry. */
  ghost predicate ExpiryOrder(runs: map<RunId, Run>, order: seq<RunId>, now: Time) {
    && Distinct(order)
    && (forall r :: r in order <==> r in ExpiredRuns(runs, now))
    && (forall i, j :: 0 <= i < j < |order| && order[i] in runs && order[j] in runs ==>
          LeaseNoLater(runs[order[i]], runs[order[j]], now))
  }

  /** The worker's verdict on a finished execution, written with its own attempt count. */
  function Settled(run: Run, claim: ClaimedRun, result: TaskResult, retryAt: Time, now: Time): Run {
    var attempts := claim.attemptCount + 1;
    if result.status.Failed? && result.retryable then
      if attempts >= claim.maxAttempts then DeadLetter(run, result, attempts, now)
      else Retrying(run, result, attempts, retryAt, now)
    else
      Finished(run, result, attempts, now)
  }

  function SettleEvent(claim: ClaimedRun, result: TaskResult): EventType {
    if result.status.Failed? && result.retryable then
      if claim.attemptCount + 1 >= claim.maxAttempts then Entered(DeadLettered) else RetryScheduled
    else
      Entered(result.status)
  }

  // ----- retention -----

  function Retained(runs: map<RunId, Run>, before: Time): set<RunId> {
    set r | r in runs && !(runs[r].status.Terminal() && runs[r].finishedAt.Some? && runs[r].finishedAt.value < before)
  }

  /** The events whose run is not among the deleted ones; events of unknown runs stay. */
  function KeepEvents(events: seq<Event>, deleted: set<RunId>): seq<Event> {
    if events == [] then []
    else
      var rest := KeepEvents(events[..|events| - 1], deleted);
      var last := events[|events| - 1];
      if last.runId in deleted then rest else rest + [last]
  }

  // ----- the transition system -----

  datatype Action =
    | Enqueue(input: EnqueueInput, freshId: RunId, reuse: Option<RunId>, now: Time)
    | Retry(runId: RunId, source: string, capabilities: Option<seq<string>>, freshId: RunId, now: Time)
    | Requeue(order: seq<RunId>, now: Time)
    | Claim(runId: RunId, workerId: string, leaseMs: nat, filter: TaskFilter, token: string, now: Time)
    | Renew(claim: ClaimedRun, leaseMs: nat, now: Time)
    | Record(claim: ClaimedRun, result: TaskResult, retryAt: Time, now: Time)
    | RejectPreflight(claim: ClaimedRun, now: Time)
    | Cleanup(before: Time)

  /** When an action may happen, including which row a query returns. Claims in the history are never excluded. */
  ghost predicate Enabled(s: System, a: Action) {
    match a
    case Enqueue(input, freshId, reuse, now) =>
      && FreshRunId(s, freshId)
      && var duplicates := Duplicates(s.runs, input);
         if duplicates == {} then reuse == None
         else
           && reuse.Some?
           && reuse.value in duplicates
           && (forall d :: d in duplicates ==> s.runs[reuse.value].createdAt <= s.runs[d].createdAt)
    case Retry(runId, source, capabilities, freshId, now) =>
      FreshRunId(s, freshId) && runId in s.runs && s.runs[runId].status.Terminal()
    case Requeue(order, now) =>
      ExpiryOrder(s.runs, order, now)
    case Claim(runId, workerId, leaseMs, filter, token, now) =>
      && FreshToken(s, token)
      && Claimable(s.runs, runId, filter, now)
      && (forall r :: Claimable(s.runs, r, filter, now) ==> ClaimedBefore(s.runs[runId], s.runs[r]))
    case Renew(claim, leaseMs, now) => claim in s.claims
    case Record(claim, result, retryAt, now) => claim in s.claims
    case RejectPreflight(claim, now) => claim in s.claims
    case Cleanup(before) => true
  }

  function Write(s: System, id: RunId, run: Run, kind: EventType, now: Time): System {
    s.(runs := s.runs[id := run], events := s.events + [Event(id, kind, now)])
  }

  function RequeueOne(s: System, id: RunId, now: Time): System {
    if id in s.runs && Expired(s.runs[id], now) then
      var lapsed := LeaseLapsed(s.runs[id], now);
      Write(s, id, lapsed, if lapsed.status.Queued? then Requeued else Entered(DeadLettered), now)
    else s
  }

  function RequeueAll(s: System, order: seq<RunId>, now: Time): System {
    if order == [] then s
    else RequeueOne(RequeueAll(s, order[..|order| - 1], now), order[|order| - 1], now)
  }

  function Apply(s: System, a: Action): System {
    match a
    case Enqueue(input, freshId, reuse, now) =>
      if reuse.Some? then s else Write(s, freshId, NewRun(input, now), Entered(Queued), now)
    case Retry(runId, source, capabilities, freshId, now) =>
      if runId in s.runs then
        Write(s, freshId, NewRun(RetryInput(s.runs[runId], source, capabilities), now), Entered(Queued), now)
      else s
    case Requeue(order, now) => RequeueAll(s, order, now)
    case Claim(runId, workerId, leaseMs, filter, token, now) =>
      if runId in s.runs then
        var run := s.runs[runId].(status := Running, workerId := Some(workerId), claimToken := Some(token),
                                  startedAt := Some(now), leaseExpiresAt := Some(now + leaseMs), nextRetryAt := None);
        Write(s, runId, run, Started, now).(claims := s.claims + [ClaimOf(runId, run, token)])
      else s
    case Renew(claim, leaseMs, now) =>
      if Holds(s.runs, claim)
      then s.(runs := s.runs[claim.id := s.runs[claim.id].(leaseExpiresAt := Some(now + leaseMs))])
      else s
    case Record(claim, result, retryAt, now) =>
      if Holds(s.runs, claim)
      then Write(s, claim.id, Settled(s.runs[claim.id], claim, result, retryAt, now), SettleEvent(claim, result), now)
      else s
    case RejectPreflight(claim, now) =>
      s.(events := s.events + [Event(claim.id, PreflightRejected, now)])
    case Cleanup(before) =>
      var kept := Retained(s.runs, before);
      s.(runs := map r | r in kept :: s.runs[r], events := KeepEvents(s.events, s.runs.Keys - kept))
  }

  /** Executors and the worker itself only report these; the schema would also admit queued and running. */
  predicate Reportable(a: Action) {
    a.Record? ==> a.result.status.Terminal()
  }

  ghost predicate Step(s: System, a: Action, s': System) {
    Enabled(s, a) && Reportable(a) && s' == Apply(s, a)
  }

  /** A run of the whole system: any number of workers, any interleaving, clocks unconstrained. */
  ghost predicate Execution(states: seq<System>, actions: seq<Action>) {
    && |states| == |actions| + 1
    && states[0] == Initial
    && (forall i :: 0 <= i < |actions| ==> Step(states[i], actions[i], states[i + 1]))
  }
}
