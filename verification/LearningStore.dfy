/** The recommendation store: what each transaction reads, checks and writes. */
module LearningStore {
  import opened Prelude
  import opened Ordering
  import opened Recommendations
  import Evidence
  import Scoring
  import ScoringResult
  import Sampler
  import Registrations

  const KeepDays := 90
  const RetentionDays := 120

  /** The first day whose snapshots are kept. */
  function KeepDay(now: nat): int {
    now / Day * Day - KeepDays * Day
  }

  // ----- measurements -----

  datatype Application = BySampler | Constrained | Fallback

  datatype Assignment = Assignment(
    assignmentId: Id,
    decisionId: DecisionId,
    subjectId: Id,
    ruleRevision: Positive,
    mappingVersion: Positive,
    entityRef: Option<Id>,
    contextId: Id,
    measurementProfileId: Id,
    startsAt: nat,
    endsAt: nat,
    experiment: Experiment,
    application: Application,
    appliedProbability: Option<real>)

  ghost predicate ValidAssignment(a: Assignment) {
    && 0 < a.endsAt - a.startsAt <= Day
    && (a.appliedProbability.Some? ==> 0.0 < a.appliedProbability.value <= 1.0)
    && (a.application == BySampler ==> a.appliedProbability.Some?)
  }

  datatype Manifest = Manifest(
    manifestId: Id,
    producerId: Id,
    appId: Id,
    appRevision: Positive,
    generatedAt: nat,
    assignments: seq<Assignment>)

  ghost predicate ValidManifest(m: Manifest) {
    && (forall a :: a in m.assignments ==> ValidAssignment(a))
    && (forall i, j :: 0 <= i < j < |m.assignments| ==> m.assignments[i].assignmentId != m.assignments[j].assignmentId)
  }

  datatype Observed = Observed(assignmentId: Id, exposures: Count, clicks: Count, dispatches: Count)

  datatype Aggregate = Aggregate(
    producerId: Id,
    appId: Id,
    measurementProfileId: Id,
    periodStart: nat,
    periodEnd: nat,
    revision: Positive,
    generatedAt: nat,
    rows: seq<Observed>)

  ghost predicate ValidAggregate(a: Aggregate) {
    && a.periodStart % Day == 0
    && a.periodEnd == a.periodStart + Day
    && a.generatedAt >= a.periodEnd
    && (forall r :: r in a.rows ==> r.dispatches <= r.clicks <= r.exposures)
    && (forall i, j :: 0 <= i < j < |a.rows| ==> a.rows[i].assignmentId != a.rows[j].assignmentId)
  }

  /** The forms that are digested and stored: lists in the order of their assignment ids. */
  function CanonicalManifest(m: Manifest): Manifest {
    m.(assignments := Sort(m.assignments, (a: Assignment) => a.assignmentId))
  }

  function Canonical(a: Aggregate): Aggregate {
    a.(rows := Sort(a.rows, (r: Observed) => r.assignmentId))
  }

  // ----- tables -----

  datatype StoredModel = StoredModel(config: Config, model: Model, createdAt: nat)

  datatype StoredDecision = StoredDecision(request: Request, result: Recommendation, config: Config, createdAt: nat)

  datatype ManifestKey = ManifestKey(appId: Id, manifestId: Id)

  datatype StoredManifest = StoredManifest(manifest: Manifest, createdAt: nat)

  datatype AssignmentKey = AssignmentKey(appId: Id, assignmentId: Id)

  datatype StoredAssignment = StoredAssignment(assignment: Assignment, producerId: Id, createdAt: nat)

  datatype SnapshotKey = SnapshotKey(appId: Id, profileId: Id, day: nat)

  datatype StoredSnapshot = StoredSnapshot(producerId: Id, snapshot: Aggregate, createdAt: nat)

  datatype State = State(
    registry: Registrations.Registry,
    models: map<ModelId, StoredModel>,
    current: Option<ModelId>,
    decisions: map<DecisionId, StoredDecision>,
    manifests: map<ManifestKey, StoredManifest>,
    assignments: map<AssignmentKey, StoredAssignment>,
    snapshots: map<SnapshotKey, StoredSnapshot>)

  const EmptyStore := State(Registrations.NoRegistrations, map[], None, map[], map[], map[], map[])

  datatype Error =
    | UnknownProducer
    | OutsideRetention
    | Registration(refusal: Registrations.Error)
    | ConflictingManifest
    | UnknownDecision
    | NotSelectedPrefix
    | HoldoutNotUniform
    | DecisionProducerMismatch
    | OutsideDecision
    | LineageMismatch
    | ConflictingAssignment
    | UnknownProfileOrPeriod
    | UnknownAssignment
    | NoOverlap
    | ConflictingProducer
    | ConflictingRevision
    | ClockRegressed
    | MissingEvidence
    | TooLarge
    | TotalOverflow
    | NoCurrentModel
    | InvalidModel
    | Unscored(scoring: Evidence.Error)
    | ModelReplaced
    | InvalidPlannedResult

  datatype Status = Applied | Duplicate | Stale

  predicate Owns(config: Config, appId: Id, producerId: Id) {
    var app := FindApp(config.apps, appId);
    app.Some? && app.value.producerId == producerId
  }

  // ----- manifests -----

  function DecisionOf(s: State, id: DecisionId, appId: Id): Option<StoredDecision> {
    if id in s.decisions && s.decisions[id].result.appId == appId then Some(s.decisions[id]) else None
  }

  predicate SampledFor(a: Assignment, id: DecisionId) {
    a.application == BySampler && a.decisionId == id
  }

  /** The stored sampler assignments of a decision. */
  function StoredSamples(s: State, appId: Id, id: DecisionId): set<Assignment> {
    set k | k in s.assignments && k.appId == appId && SampledFor(s.assignments[k].assignment, id) :: s.assignments[k].assignment
  }

  function NewSamples(m: Manifest, id: DecisionId): set<Assignment> {
    set a | a in m.assignments && SampledFor(a, id)
  }

  /** What the decision's samples would be with the manifest: incoming ones replace stored ones of the same id. */
  function Combined(s: State, m: Manifest, id: DecisionId): set<Assignment> {
    var incoming := NewSamples(m, id);
    (set a | a in StoredSamples(s, m.appId, id) && (forall b :: b in incoming ==> b.assignmentId != a.assignmentId)) + incoming
  }

  function CandidateOf(a: Assignment): Candidate {
    Candidate(a.subjectId, a.ruleRevision, a.entityRef)
  }

  predicate Near(x: real, y: real, tolerance: real) {
    -tolerance < x - y < tolerance
  }

  predicate MatchesDraw(a: Assignment, d: Sampler.Draw) {
    && CandidateKey(d.candidate) == CandidateKey(CandidateOf(a))
    && Near(d.probability, a.appliedProbability.GetOr(0.0), 0.000000000001)
  }

  predicate Uniform(result: Recommendation) {
    forall e :: e in result.entries ==> |result.entries| > 0 && -0.000000000001 <= e.weight - 1.0 / |result.entries| as real <= 0.000000000001
  }

  /** The samples are exactly candidates of the first draws, one each, in one experiment arm. */
  predicate SelectedPrefix(samples: set<Assignment>, draws: seq<Sampler.Draw>) {
    && |draws| == |samples|
    && (forall a, b :: a in samples && b in samples && CandidateKey(CandidateOf(a)) == CandidateKey(CandidateOf(b)) ==> a == b)
    && (forall a, b :: a in samples && b in samples ==> a.experiment == b.experiment)
    && (forall a :: a in samples ==> exists d :: d in draws && MatchesDraw(a, d))
  }

  /** The uniform numbers of a decision's draws: digests of its seed, its id and the position. */
  type Uniforms = (string, DecisionId) -> (nat -> Sampler.Uniform)

  function DrawsOf(result: Recommendation, uniforms: Uniforms, count: nat): seq<Sampler.Draw> {
    Sampler.Draws(result.entries, uniforms(result.seed, result.decisionId), count)
  }

  function GroupRefusal(s: State, m: Manifest, id: DecisionId, uniforms: Uniforms): Option<Error> {
    var decision := DecisionOf(s, id, m.appId);
    if decision.None? then Some(UnknownDecision)
    else
      var result, samples := decision.value.result, Combined(s, m, id);
      if |samples| > 1000 || !SelectedPrefix(samples, DrawsOf(result, uniforms, |samples|)) then Some(NotSelectedPrefix)
      else if (exists a :: a in samples && a.experiment == Holdout) && !Uniform(result) then Some(HoldoutNotUniform)
      else None
  }

  /** The sampler groups of the manifest, in order of appearance. */
  function GroupsRefusal(s: State, m: Manifest, rest: seq<Assignment>, uniforms: Uniforms): Option<Error> {
    if rest == [] then None
    else
      var first := if rest[0].application == BySampler then GroupRefusal(s, m, rest[0].decisionId, uniforms) else None;
      if first.Some? then first else GroupsRefusal(s, m, rest[1..], uniforms)
  }

  function AssignmentRefusal(s: State, m: Manifest, a: Assignment): Option<Error> {
    var found := DecisionOf(s, a.decisionId, m.appId);
    if found.None? then Some(UnknownDecision)
    else
      var decision := found.value;
      var app := FindApp(decision.config.apps, m.appId);
      if app.None? || app.value.producerId != m.producerId then Some(DecisionProducerMismatch)
      else if decision.request.appRevision != m.appRevision
              || a.startsAt > m.generatedAt
              || a.startsAt < decision.result.generatedAt
              || a.startsAt >= decision.result.expiresAt
              || a.contextId != decision.request.contextId
              || a.measurementProfileId != decision.request.measurementProfileId
      then Some(OutsideDecision)
      else
        var subject := FindSubject(app.value.subjects, a.subjectId);
        var key := AssignmentKey(m.appId, a.assignmentId);
        if !(exists c :: c in decision.request.candidates && CandidateKey(c) == CandidateKey(CandidateOf(a)) && c.ruleRevision == a.ruleRevision)
           || subject.None? || subject.value.mappingVersion != a.mappingVersion
        then Some(LineageMismatch)
        else if key in s.assignments && s.assignments[key].assignment != a then Some(ConflictingAssignment)
        else None
  }

  function AssignmentsRefusal(s: State, m: Manifest, rest: seq<Assignment>): Option<Error> {
    if rest == [] then None
    else
      var first := AssignmentRefusal(s, m, rest[0]);
      if first.Some? then first else AssignmentsRefusal(s, m, rest[1..])
  }

  /** Insert unless the id is taken. */
  function WithAssignments(assignments: map<AssignmentKey, StoredAssignment>, m: Manifest, rest: seq<Assignment>, now: nat)
    : map<AssignmentKey, StoredAssignment>
    decreases |rest|
  {
    if rest == [] then assignments
    else
      var key := AssignmentKey(m.appId, rest[0].assignmentId);
      var next := if key in assignments then assignments else assignments[key := StoredAssignment(rest[0], m.producerId, now)];
      WithAssignments(next, m, rest[1..], now)
  }

  function IngestManifest(s: State, config: Config, m: Manifest, uniforms: Uniforms, now: nat): Result<(State, Status), Error> {
    var registered := Registrations.Register(s.registry, config);
    var key := ManifestKey(m.appId, m.manifestId);
    if !Owns(config, m.appId, m.producerId) then Err(UnknownProducer)
    else if m.generatedAt > now || m.generatedAt < now - RetentionDays * Day then Err(OutsideRetention)
    else if registered.Err? then Err(Registration(registered.error))
    else if key in s.manifests then
      if s.manifests[key].manifest != CanonicalManifest(m) then Err(ConflictingManifest)
      else Ok((s.(registry := registered.value), Duplicate))
    else
      var groups, each := GroupsRefusal(s, m, m.assignments, uniforms), AssignmentsRefusal(s, m, m.assignments);
      if groups.Some? then Err(groups.value)
      else if each.Some? then Err(each.value)
      else
        Ok((s.(registry := registered.value,
               assignments := WithAssignments(s.assignments, m, m.assignments, now),
               manifests := s.manifests[key := StoredManifest(CanonicalManifest(m), now)]),
            Applied))
  }

  // ----- aggregates -----

  function KeyOfAggregate(a: Aggregate): SnapshotKey {
    SnapshotKey(a.appId, a.measurementProfileId, a.periodStart)
  }

  function OverlapRefusal(s: State, a: Aggregate, r: Observed): Option<Error> {
    var key := AssignmentKey(a.appId, r.assignmentId);
    if key !in s.assignments then Some(UnknownAssignment)
    else
      var x := s.assignments[key].assignment;
      if x.measurementProfileId != a.measurementProfileId || x.endsAt <= a.periodStart || x.startsAt >= a.periodEnd
      then Some(NoOverlap)
      else None
  }

  function OverlapsRefusal(s: State, a: Aggregate, rest: seq<Observed>): Option<Error> {
    if rest == [] then None
    else
      var first := OverlapRefusal(s, a, rest[0]);
      if first.Some? then first else OverlapsRefusal(s, a, rest[1..])
  }

  predicate KnownProfile(s: State, config: Config, a: Aggregate) {
    var app := FindApp(config.apps, a.appId);
    || (app.Some? && exists c :: c in app.value.contexts && c.measurementProfileId == a.measurementProfileId)
    || exists k :: k in s.snapshots && k.appId == a.appId && k.profileId == a.measurementProfileId
  }

  function IngestAggregate(s: State, config: Config, a: Aggregate, now: nat): Result<(State, Status), Error> {
    var registered := Registrations.Register(s.registry, config);
    var key := KeyOfAggregate(a);
    if !Owns(config, a.appId, a.producerId) then Err(UnknownProducer)
    else if !KnownProfile(s, config, a) || a.generatedAt > now || a.periodEnd > now || a.periodStart < KeepDay(now)
    then Err(UnknownProfileOrPeriod)
    else if registered.Err? then Err(Registration(registered.error))
    else
      var overlaps := OverlapsRefusal(s, a, a.rows);
      var kept := s.(registry := registered.value);
      var applied := kept.(snapshots := s.snapshots[key := StoredSnapshot(a.producerId, Canonical(a), now)]);
      if overlaps.Some? then Err(overlaps.value)
      else if key !in s.snapshots then Ok((applied, Applied))
      else
        var previous := s.snapshots[key];
        if previous.producerId != a.producerId then Err(ConflictingProducer)
        else if previous.snapshot.revision > a.revision then Ok((kept, Stale))
        else if previous.snapshot.revision == a.revision then
          if previous.snapshot != Canonical(a) then Err(ConflictingRevision) else Ok((kept, Duplicate))
        else Ok((applied, Applied))
  }

  // ----- plans, decisions and pruning -----

  ghost function Plan(s: State, config: Config, request: Request, now: nat): Result<Recommendation, Error>
    requires ValidConfig(config) && ValidRequest(request)
  {
    if s.current.None? || s.current.value !in s.models || s.models[s.current.value].config != config then Err(NoCurrentModel)
    else if !ValidModel(s.models[s.current.value].model) then Err(InvalidModel)
    else
      var scored := Scoring.Score(config, request, s.models[s.current.value].model, now);
      if scored.Err? then Err(Unscored(scored.error)) else Ok(scored.value)
  }

  /** A plan from the expected model that passes the consumer's own check. */
  ghost function CheckedPlan(s: State, config: Config, request: Request, expected: Option<ModelId>, now: nat): Result<Recommendation, Error>
    requires ValidConfig(config) && ValidRequest(request)
  {
    var planned := Plan(s, config, request, now);
    if planned.Err? then planned
    else if expected.Some? && planned.value.modelGenerationId != expected.value then Err(ModelReplaced)
    else if ScoringResult.ValidateRecommendations(planned.value, request, now).None? then Err(InvalidPlannedResult)
    else planned
  }

  /** Plan and store the decision unless its id is taken. */
  ghost function RecordDecision(s: State, config: Config, request: Request, expected: Option<ModelId>, now: nat)
    : Result<(State, Recommendation), Error>
    requires ValidConfig(config) && ValidRequest(request)
  {
    var registered := Registrations.Register(s.registry, config);
    var planned := CheckedPlan(s, config, request, expected, now);
    if registered.Err? then Err(Registration(registered.error))
    else if planned.Err? then Err(planned.error)
    else
      var decisions := WithDecision(s.decisions, config, request, planned.value, now);
      Ok((s.(registry := registered.value, decisions := decisions), planned.value))
  }

  function WithDecision(decisions: map<DecisionId, StoredDecision>, config: Config, request: Request, result: Recommendation, now: nat)
    : map<DecisionId, StoredDecision>
  {
    if result.decisionId in decisions then decisions
    else decisions[result.decisionId := StoredDecision(request, result, config, now)]
  }

  predicate Fresh(createdAt: nat, now: nat) {
    createdAt >= now - RetentionDays * Day
  }

  /** Deleting what is past retention; the pointer to the current model stays and may dangle. */
  function Prune(s: State, now: nat): State {
    s.(snapshots := map k | k in s.snapshots && k.day >= KeepDay(now) :: s.snapshots[k],
       models := map k | k in s.models && Fresh(s.models[k].createdAt, now) :: s.models[k],
       decisions := map k | k in s.decisions && Fresh(s.decisions[k].createdAt, now) :: s.decisions[k],
       manifests := map k | k in s.manifests && Fresh(s.manifests[k].createdAt, now) :: s.manifests[k],
       assignments := map k | k in s.assignments && Fresh(s.assignments[k].createdAt, now) :: s.assignments[k])
  }
}
