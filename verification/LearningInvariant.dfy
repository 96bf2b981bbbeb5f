/** What every transaction of the recommendation store keeps. */
module LearningInvariant {
  import opened Prelude
  import opened Ordering
  import opened Recommendations
  import opened LearningStore
  import LearningBuild
  import LearningModel
  import Registrations
  import Sampler
  import Scoring
  import ScoringResult

  // ----- actions -----

  /** One transaction; a built model comes with the order its rows happened to get. */
  datatype Action =
    | DeliverManifest(config: Config, manifest: Manifest, now: nat)
    | DeliverAggregate(config: Config, aggregate: Aggregate, now: nat)
    | BuildModel(config: Config, model: Model, now: nat)
    | Record(config: Config, request: Request, expected: Option<ModelId>, now: nat)
    | PruneOld(now: nat)

  /** The input passed the schemas. */
  ghost predicate Admissible(a: Action) {
    match a
    case DeliverManifest(config, m, _) => ValidConfig(config) && ValidManifest(m)
    case DeliverAggregate(config, g, _) => ValidConfig(config) && ValidAggregate(g)
    case BuildModel(config, _, _) => ValidConfig(config)
    case Record(config, request, _, _) => ValidConfig(config) && ValidRequest(request)
    case PruneOld(_) => true
  }

  function Outcome<T>(s: State, r: Result<(State, T), Error>): State {
    if r.Ok? then r.value.0 else s
  }

  ghost predicate CanBuild(s: State, config: Config, model: Model, now: nat) {
    && !LearningBuild.Regressed(s, now)
    && Registrations.Register(s.registry, config).Ok?
    && LearningBuild.IsModel(s, config, now, model)
  }

  /** The store after a transaction; one that fails is rolled back. */
  ghost function After(s: State, a: Action, uniforms: Uniforms): State
    requires Admissible(a)
  {
    match a
    case DeliverManifest(config, m, now) => Outcome(s, IngestManifest(s, config, m, uniforms, now))
    case DeliverAggregate(config, g, now) => Outcome(s, IngestAggregate(s, config, g, now))
    case BuildModel(config, model, now) =>
      if CanBuild(s, config, model, now)
      then LearningBuild.WithModel(s, Registrations.Register(s.registry, config).value, config, model, now)
      else s
    case Record(config, request, expected, now) => Outcome(s, RecordDecision(s, config, request, expected, now))
    case PruneOld(now) => Prune(s, now)
  }

  // ----- the invariant -----

  ghost predicate DecisionSound(s: State, clock: nat, d: DecisionId)
    requires d in s.decisions
  {
    var x := s.decisions[d];
    && x.result.decisionId == d
    && d.input == DigestOf(x.request)
    && ValidConfig(x.config)
    && ValidRequest(x.request)
    && ValidResult(x.result)
    && x.request.generatedAt <= x.createdAt <= clock
  }

  /** An assignment belongs to its decision: app and producer, time window, context, candidate and lineage. */
  ghost predicate Belongs(x: StoredAssignment, appId: Id, d: StoredDecision) {
    var a, app := x.assignment, FindApp(d.config.apps, appId);
    && d.result.appId == appId
    && app.Some? && app.value.producerId == x.producerId
    && d.result.generatedAt <= a.startsAt < d.result.expiresAt
    && a.contextId == d.request.contextId
    && a.measurementProfileId == d.request.measurementProfileId
    && CandidateOf(a) in d.request.candidates
    && var subject := FindSubject(app.value.subjects, a.subjectId);
       subject.Some? && subject.value.mappingVersion == a.mappingVersion
  }

  /** A decision that an assignment refers to is its own and older, or can never be recorded again. */
  ghost predicate Anchored(s: State, clock: nat, appId: Id, x: StoredAssignment) {
    var d := x.assignment.decisionId;
    if d in s.decisions then s.decisions[d].createdAt <= x.createdAt && Belongs(x, appId, s.decisions[d])
    else d.input.request.expiresAt <= clock
  }

  ghost predicate AssignmentSound(s: State, clock: nat, k: AssignmentKey)
    requires k in s.assignments
  {
    var x := s.assignments[k];
    && ValidAssignment(x.assignment)
    && x.assignment.assignmentId == k.assignmentId
    && x.assignment.startsAt <= x.createdAt <= clock
    && Anchored(s, clock, k.appId, x)
  }

  /** The evidence of an observed row is stored, and is young enough to outlive the snapshot. */
  ghost predicate Evidenced(s: State, k: SnapshotKey, r: Observed) {
    var id := AssignmentKey(k.appId, r.assignmentId);
    && r.dispatches <= r.clicks <= r.exposures
    && id in s.assignments
    && k.day < s.assignments[id].assignment.endsAt
  }

  ghost predicate SnapshotSound(s: State, k: SnapshotKey)
    requires k in s.snapshots
  {
    var x := s.snapshots[k];
    var history := Registrations.History(s.registry, k.appId);
    && k.day % Day == 0
    && KeyOfAggregate(x.snapshot) == k
    && x.snapshot.producerId == x.producerId
    && (forall r :: r in x.snapshot.rows ==> Evidenced(s, k, r))
    && history != [] && history[|history| - 1].producerId == x.producerId
  }

  /** Samples that are exactly the first draws of a result's sampler, in one arm; a holdout arm needs uniform weights. */
  ghost predicate FollowsSampler(result: Recommendation, samples: set<Assignment>, uniforms: Uniforms) {
    && SelectedPrefix(samples, DrawsOf(result, uniforms, |samples|))
    && ((exists a :: a in samples && a.experiment == Holdout) ==> Uniform(result))
  }

  ghost predicate SamplesSound(s: State, uniforms: Uniforms, d: DecisionId)
    requires d in s.decisions
  {
    FollowsSampler(s.decisions[d].result, StoredSamples(s, s.decisions[d].result.appId, d), uniforms)
  }

  ghost predicate Decisions(s: State, uniforms: Uniforms, clock: nat) {
    forall d :: d in s.decisions ==> DecisionSound(s, clock, d) && SamplesSound(s, uniforms, d)
  }

  ghost predicate Assignments(s: State, clock: nat) {
    forall k :: k in s.assignments ==> AssignmentSound(s, clock, k)
  }

  ghost predicate Snapshots(s: State) {
    forall k :: k in s.snapshots ==> SnapshotSound(s, k)
  }

  ghost predicate Inv(s: State, uniforms: Uniforms, clock: nat) {
    && Registrations.SoundRegistry(s.registry)
    && Decisions(s, uniforms, clock)
    && Assignments(s, clock)
    && Snapshots(s)
  }

  lemma InitiallyInv(uniforms: Uniforms)
    ensures Inv(EmptyStore, uniforms, 0)
  {}

  // ----- manifests -----

  lemma {:induction false} GroupsAccepted(s: State, m: Manifest, rest: seq<Assignment>, uniforms: Uniforms, a: Assignment)
    requires GroupsRefusal(s, m, rest, uniforms).None? && a in rest && a.application == BySampler
    ensures GroupRefusal(s, m, a.decisionId, uniforms).None?
  {
    if a != rest[0] {
      GroupsAccepted(s, m, rest[1..], uniforms, a);
    }
  }

  lemma {:induction false} AssignmentsAccepted(s: State, m: Manifest, rest: seq<Assignment>, a: Assignment)
    requires AssignmentsRefusal(s, m, rest).None? && a in rest
    ensures AssignmentRefusal(s, m, a).None?
  {
    if a != rest[0] {
      AssignmentsAccepted(s, m, rest[1..], a);
    }
  }

  lemma {:induction false} WithAssignmentsAt(
    assignments: map<AssignmentKey, StoredAssignment>, m: Manifest, rest: seq<Assignment>, now: nat, k: AssignmentKey)
    requires forall i, j :: 0 <= i < j < |rest| ==> rest[i].assignmentId != rest[j].assignmentId
    ensures var after := WithAssignments(assignments, m, rest, now);
            && (k in assignments ==> k in after && after[k] == assignments[k])
            && (k in after && k !in assignments ==>
                  k.appId == m.appId && exists a :: a in rest && a.assignmentId == k.assignmentId && after[k] == StoredAssignment(a, m.producerId, now))
            && (k.appId == m.appId && (exists a :: a in rest && a.assignmentId == k.assignmentId) ==> k in after)
    decreases |rest|
  {
    if rest != [] {
      var key := AssignmentKey(m.appId, rest[0].assignmentId);
      var next := if key in assignments then assignments else assignments[key := StoredAssignment(rest[0], m.producerId, now)];
      WithAssignmentsAt(next, m, rest[1..], now, k);
      assert rest == [rest[0]] + rest[1..];
    }
  }

  ghost predicate Ingested(s: State, m: Manifest, now: nat, t: State) {
    && t.assignments == WithAssignments(s.assignments, m, m.assignments, now)
    && t.decisions == s.decisions
    && t.snapshots == s.snapshots
    && AssignmentsRefusal(s, m, m.assignments).None?
  }

  /** What the manifest leaves under an assignment's key: what was there, or one of its assignments. */
  lemma IngestedAt(s: State, m: Manifest, now: nat, t: State, k: AssignmentKey)
    requires ValidManifest(m) && Ingested(s, m, now, t)
    ensures k in s.assignments ==> k in t.assignments && t.assignments[k] == s.assignments[k]
    ensures k in t.assignments && k !in s.assignments ==>
              && k.appId == m.appId
              && t.assignments[k].assignment in m.assignments
              && t.assignments[k].assignment.assignmentId == k.assignmentId
              && t.assignments[k].createdAt == now
              && t.assignments[k].producerId == m.producerId
  {
    WithAssignmentsAt(s.assignments, m, m.assignments, now, k);
  }

  /** Every assignment of the manifest is stored afterwards, exactly as it was sent. */
  lemma IngestedAll(s: State, m: Manifest, now: nat, t: State, a: Assignment)
    requires ValidManifest(m) && Ingested(s, m, now, t) && a in m.assignments
    ensures var k := AssignmentKey(m.appId, a.assignmentId); k in t.assignments && t.assignments[k].assignment == a
  {
    var k := AssignmentKey(m.appId, a.assignmentId);
    WithAssignmentsAt(s.assignments, m, m.assignments, now, k);
    IngestedAt(s, m, now, t, k);
    AssignmentsAccepted(s, m, m.assignments, a);
    if k !in s.assignments {
      SameId(m.assignments, a, t.assignments[k].assignment);
    }
  }

  lemma SameId(xs: seq<Assignment>, a: Assignment, b: Assignment)
    requires forall i, j :: 0 <= i < j < |xs| ==> xs[i].assignmentId != xs[j].assignmentId
    requires a in xs && b in xs && a.assignmentId == b.assignmentId
    ensures a == b
  {
    var i :| 0 <= i < |xs| && xs[i] == a;
    var j :| 0 <= j < |xs| && xs[j] == b;
  }

  /** What the checks of a manifest let through belongs to its decision, down to the very candidate. */
  lemma AcceptedBelongs(s: State, m: Manifest, x: StoredAssignment)
    requires AssignmentsRefusal(s, m, m.assignments).None? && x.assignment in m.assignments && x.producerId == m.producerId
    ensures x.assignment.decisionId in s.decisions && Belongs(x, m.appId, s.decisions[x.assignment.decisionId])
    ensures x.assignment.startsAt <= m.generatedAt
  {
    AssignmentsAccepted(s, m, m.assignments, x.assignment);
    var request := s.decisions[x.assignment.decisionId].request;
    var mine := CandidateOf(x.assignment);
    var c :| c in request.candidates && CandidateKey(c) == CandidateKey(mine) && c.ruleRevision == mine.ruleRevision;
    KeyInjective(c, mine);
  }

  lemma ManifestKeepsAssignment(s: State, m: Manifest, now: nat, t: State, clock: nat, k: AssignmentKey)
    requires ValidManifest(m) && Ingested(s, m, now, t) && m.generatedAt <= now && clock <= now && k in t.assignments
    requires k in s.assignments ==> AssignmentSound(s, clock, k)
    requires forall d :: d in s.decisions ==> s.decisions[d].createdAt <= clock
    ensures AssignmentSound(t, now, k)
  {
    IngestedAt(s, m, now, t, k);
    if k !in s.assignments {
      AcceptedBelongs(s, m, t.assignments[k]);
    }
  }

  lemma SamplesOfOthers(s: State, m: Manifest, now: nat, t: State, appId: Id, d: DecisionId)
    requires ValidManifest(m) && Ingested(s, m, now, t) && appId != m.appId
    ensures StoredSamples(t, appId, d) == StoredSamples(s, appId, d)
  {
    forall a ensures a in StoredSamples(t, appId, d) <==> a in StoredSamples(s, appId, d) {
      if a in StoredSamples(t, appId, d) {
        var k :| k in t.assignments && k.appId == appId && t.assignments[k].assignment == a && SampledFor(a, d);
        IngestedAt(s, m, now, t, k);
      }
      if a in StoredSamples(s, appId, d) {
        var k :| k in s.assignments && k.appId == appId && s.assignments[k].assignment == a && SampledFor(a, d);
        IngestedAt(s, m, now, t, k);
      }
    }
  }

  lemma StoredIsCombined(s: State, m: Manifest, now: nat, t: State, d: DecisionId, a: Assignment)
    requires ValidManifest(m) && Ingested(s, m, now, t)
    requires forall k :: k in s.assignments ==> s.assignments[k].assignment.assignmentId == k.assignmentId
    requires a in StoredSamples(t, m.appId, d)
    ensures a in Combined(s, m, d)
  {
    var k :| k in t.assignments && k.appId == m.appId && t.assignments[k].assignment == a && SampledFor(a, d);
    IngestedAt(s, m, now, t, k);
    if k in s.assignments {
      assert a in StoredSamples(s, m.appId, d);
      if b :| b in NewSamples(m, d) && b.assignmentId == a.assignmentId {
        IngestedAll(s, m, now, t, b);
      }
    }
  }

  lemma CombinedIsStored(s: State, m: Manifest, now: nat, t: State, d: DecisionId, a: Assignment)
    requires ValidManifest(m) && Ingested(s, m, now, t) && a in Combined(s, m, d)
    ensures a in StoredSamples(t, m.appId, d)
  {
    if a in NewSamples(m, d) {
      IngestedAll(s, m, now, t, a);
      assert AssignmentKey(m.appId, a.assignmentId) in t.assignments;
    } else {
      var k :| k in s.assignments && k.appId == m.appId && s.assignments[k].assignment == a && SampledFor(a, d);
      IngestedAt(s, m, now, t, k);
    }
  }

  /** What was checked before the manifest is what is stored after it. */
  lemma SamplesAfterManifest(s: State, m: Manifest, now: nat, t: State, d: DecisionId)
    requires ValidManifest(m) && Ingested(s, m, now, t)
    requires forall k :: k in s.assignments ==> s.assignments[k].assignment.assignmentId == k.assignmentId
    ensures StoredSamples(t, m.appId, d) == Combined(s, m, d)
  {
    forall a ensures a in StoredSamples(t, m.appId, d) <==> a in Combined(s, m, d) {
      if a in StoredSamples(t, m.appId, d) {
        StoredIsCombined(s, m, now, t, d, a);
      }
      if a in Combined(s, m, d) {
        CombinedIsStored(s, m, now, t, d, a);
      }
    }
  }

  lemma GroupFollows(s: State, m: Manifest, d: DecisionId, uniforms: Uniforms)
    requires GroupRefusal(s, m, d, uniforms).None?
    ensures d in s.decisions && FollowsSampler(s.decisions[d].result, Combined(s, m, d), uniforms)
  {
    var result, samples := s.decisions[d].result, Combined(s, m, d);
    assert SelectedPrefix(samples, DrawsOf(result, uniforms, |samples|));
  }

  lemma UntouchedGroup(s: State, m: Manifest, d: DecisionId)
    requires NewSamples(m, d) == {}
    ensures Combined(s, m, d) == StoredSamples(s, m.appId, d)
  {}

  lemma CombinedFollows(s: State, m: Manifest, uniforms: Uniforms, d: DecisionId)
    requires GroupsRefusal(s, m, m.assignments, uniforms).None?
    requires d in s.decisions && s.decisions[d].result.appId == m.appId && SamplesSound(s, uniforms, d)
    ensures FollowsSampler(s.decisions[d].result, Combined(s, m, d), uniforms)
  {
    if a :| a in NewSamples(m, d) {
      GroupsAccepted(s, m, m.assignments, uniforms, a);
      GroupFollows(s, m, d, uniforms);
    } else {
      UntouchedGroup(s, m, d);
    }
  }

  lemma ManifestKeepsSamples(s: State, m: Manifest, uniforms: Uniforms, now: nat, t: State, d: DecisionId)
    requires ValidManifest(m) && Ingested(s, m, now, t) && GroupsRefusal(s, m, m.assignments, uniforms).None?
    requires forall k :: k in s.assignments ==> s.assignments[k].assignment.assignmentId == k.assignmentId
    requires d in s.decisions && SamplesSound(s, uniforms, d)
    ensures SamplesSound(t, uniforms, d)
  {
    var result := s.decisions[d].result;
    assert t.decisions[d].result == result;
    if result.appId != m.appId {
      SamplesOfOthers(s, m, now, t, result.appId, d);
    } else {
      SamplesAfterManifest(s, m, now, t, d);
      CombinedFollows(s, m, uniforms, d);
    }
  }

  // ----- registrations under the stored snapshots -----

  lemma ProducerKept(a: Registrations.Registry, b: Registrations.Registry, id: Id)
    requires Registrations.Extends(a, b) && Registrations.SoundRegistry(b) && Registrations.History(a, id) != []
    ensures var early, late := Registrations.History(a, id), Registrations.History(b, id);
            late != [] && late[|late| - 1].producerId == early[|early| - 1].producerId
  {
    Registrations.LatestEvolves(Registrations.History(a, id), Registrations.History(b, id));
  }

  /** A snapshot stays sound when the registry advances and the assignments it needs stay. */
  lemma SnapshotKept(s: State, t: State, k: SnapshotKey)
    requires k in s.snapshots && SnapshotSound(s, k) && k in t.snapshots && t.snapshots[k] == s.snapshots[k]
    requires Registrations.Extends(s.registry, t.registry) && Registrations.SoundRegistry(t.registry)
    requires forall r :: r in s.snapshots[k].snapshot.rows && Evidenced(s, k, r) ==> Evidenced(t, k, r)
    ensures SnapshotSound(t, k)
  {
    ProducerKept(s.registry, t.registry, k.appId);
    forall r | r in t.snapshots[k].snapshot.rows ensures Evidenced(t, k, r) {
      assert Evidenced(s, k, r);
    }
  }

  /** The registry went on, soundly. */
  ghost predicate Advanced(s: State, t: State) {
    Registrations.Extends(s.registry, t.registry) && Registrations.SoundRegistry(t.registry)
  }

  lemma Registered(s: State, config: Config)
    requires Registrations.SoundRegistry(s.registry) && ValidConfig(config) && Registrations.Register(s.registry, config).Ok?
    ensures Advanced(s, s.(registry := Registrations.Register(s.registry, config).value))
  {
    Registrations.RegisterSound(s.registry, config);
  }

  lemma ManifestApplied(s: State, config: Config, m: Manifest, uniforms: Uniforms, now: nat, t: State, status: Status)
    requires IngestManifest(s, config, m, uniforms, now) == Ok((t, status))
    ensures Registrations.Register(s.registry, config).Ok? && t.registry == Registrations.Register(s.registry, config).value
    ensures m.generatedAt <= now
    ensures status == Applied ==> Ingested(s, m, now, t) && GroupsRefusal(s, m, m.assignments, uniforms).None?
    ensures status != Applied ==> t == s.(registry := t.registry)
  {}

  lemma ManifestKeepsDecisions(s: State, m: Manifest, uniforms: Uniforms, clock: nat, now: nat, t: State)
    requires Decisions(s, uniforms, clock) && Assignments(s, clock) && clock <= now && ValidManifest(m)
    requires Ingested(s, m, now, t) && GroupsRefusal(s, m, m.assignments, uniforms).None?
    ensures Decisions(t, uniforms, now)
  {
    forall k | k in s.assignments ensures s.assignments[k].assignment.assignmentId == k.assignmentId {
      assert AssignmentSound(s, clock, k);
    }
    forall d | d in t.decisions ensures DecisionSound(t, now, d) && SamplesSound(t, uniforms, d) {
      assert DecisionSound(s, clock, d);
      ManifestKeepsSamples(s, m, uniforms, now, t, d);
    }
  }

  lemma ManifestKeepsAssignments(s: State, m: Manifest, uniforms: Uniforms, clock: nat, now: nat, t: State)
    requires Decisions(s, uniforms, clock) && Assignments(s, clock) && clock <= now && ValidManifest(m)
    requires Ingested(s, m, now, t) && m.generatedAt <= now
    ensures Assignments(t, now)
  {
    forall d | d in s.decisions ensures s.decisions[d].createdAt <= clock {
      assert DecisionSound(s, clock, d);
    }
    forall k | k in t.assignments ensures AssignmentSound(t, now, k) {
      ManifestKeepsAssignment(s, m, now, t, clock, k);
    }
  }

  lemma ManifestKeepsSnapshots(s: State, m: Manifest, now: nat, t: State)
    requires Snapshots(s) && ValidManifest(m) && Ingested(s, m, now, t) && Advanced(s, t)
    ensures Snapshots(t)
  {
    forall k | k in t.snapshots ensures SnapshotSound(t, k) {
      forall r | r in s.snapshots[k].snapshot.rows && Evidenced(s, k, r) ensures Evidenced(t, k, r) {
        IngestedAt(s, m, now, t, AssignmentKey(k.appId, r.assignmentId));
      }
      SnapshotKept(s, t, k);
    }
  }

  /** Time passing, an advancing registry and anything about models and manifests break nothing. */
  ghost predicate SameEvidence(s: State, t: State) {
    s.decisions == t.decisions && s.assignments == t.assignments && s.snapshots == t.snapshots
  }

  lemma OldDecisionSound(s: State, t: State, uniforms: Uniforms, clock: nat, now: nat, d: DecisionId)
    requires d in s.decisions && d in t.decisions && t.decisions[d] == s.decisions[d] && t.assignments == s.assignments
    requires DecisionSound(s, clock, d) && SamplesSound(s, uniforms, d) && clock <= now
    ensures DecisionSound(t, now, d) && SamplesSound(t, uniforms, d)
  {
    var appId := s.decisions[d].result.appId;
    assert StoredSamples(t, appId, d) == StoredSamples(s, appId, d);
  }

  lemma DecisionsLater(s: State, t: State, uniforms: Uniforms, clock: nat, now: nat)
    requires Decisions(s, uniforms, clock) && s.decisions == t.decisions && s.assignments == t.assignments && clock <= now
    ensures Decisions(t, uniforms, now)
  {
    forall d | d in t.decisions ensures DecisionSound(t, now, d) && SamplesSound(t, uniforms, d) {
      OldDecisionSound(s, t, uniforms, clock, now, d);
    }
  }

  lemma AssignmentsLater(s: State, t: State, clock: nat, now: nat)
    requires Assignments(s, clock) && s.decisions == t.decisions && s.assignments == t.assignments && clock <= now
    ensures Assignments(t, now)
  {
    forall k | k in t.assignments ensures AssignmentSound(t, now, k) {
      assert AssignmentSound(s, clock, k);
    }
  }

  lemma SnapshotsLater(s: State, t: State)
    requires Snapshots(s) && s.assignments == t.assignments && s.snapshots == t.snapshots && Advanced(s, t)
    ensures Snapshots(t)
  {
    forall k | k in t.snapshots ensures SnapshotSound(t, k) {
      SnapshotKept(s, t, k);
    }
  }

  lemma LaterInv(s: State, t: State, uniforms: Uniforms, clock: nat, now: nat)
    requires Inv(s, uniforms, clock) && clock <= now && SameEvidence(s, t) && Advanced(s, t)
    ensures Inv(t, uniforms, now)
  {
    DecisionsLater(s, t, uniforms, clock, now);
    AssignmentsLater(s, t, clock, now);
    SnapshotsLater(s, t);
  }

  lemma NotAdvanced(s: State)
    requires Registrations.SoundRegistry(s.registry)
    ensures Advanced(s, s)
  {}

  /** A transaction that fails leaves a sound store sound as time passes. */
  lemma UnchangedInv(s: State, uniforms: Uniforms, clock: nat, now: nat)
    requires Inv(s, uniforms, clock) && clock <= now
    ensures Inv(s, uniforms, now)
  {
    NotAdvanced(s);
    LaterInv(s, s, uniforms, clock, now);
  }

  lemma ManifestKeepsInv(s: State, config: Config, m: Manifest, uniforms: Uniforms, clock: nat, now: nat, t: State, status: Status)
    requires Inv(s, uniforms, clock) && ValidConfig(config) && ValidManifest(m) && clock <= now
    requires IngestManifest(s, config, m, uniforms, now) == Ok((t, status))
    ensures Inv(t, uniforms, now)
  {
    ManifestApplied(s, config, m, uniforms, now, t, status);
    Registered(s, config);
    assert Advanced(s, t);
    if status == Applied {
      ManifestKeepsDecisions(s, m, uniforms, clock, now, t);
      ManifestKeepsAssignments(s, m, uniforms, clock, now, t);
      ManifestKeepsSnapshots(s, m, now, t);
    } else {
      LaterInv(s, t, uniforms, clock, now);
    }
  }

  // ----- aggregates -----

  lemma {:induction false} OverlapsAccepted(s: State, a: Aggregate, rest: seq<Observed>, r: Observed)
    requires OverlapsRefusal(s, a, rest).None? && r in rest
    ensures OverlapRefusal(s, a, r).None?
  {
    if r != rest[0] {
      OverlapsAccepted(s, a, rest[1..], r);
    }
  }

  /** The registered owner of an app is the producer on record. */
  lemma OwnerIsProducer(s: State, config: Config, a: Aggregate)
    requires Registrations.SoundRegistry(s.registry) && ValidConfig(config) && Owns(config, a.appId, a.producerId)
    requires Registrations.Register(s.registry, config).Ok?
    ensures var history := Registrations.History(Registrations.Register(s.registry, config).value, a.appId);
            history != [] && history[|history| - 1].producerId == a.producerId
  {
    Registrations.RegisteredIsLatest(s.registry, config, FindApp(config.apps, a.appId).value);
  }

  lemma SameProducer(s: State, config: Config, a: Aggregate)
    requires Registrations.SoundRegistry(s.registry) && ValidConfig(config) && Owns(config, a.appId, a.producerId)
    requires Registrations.Register(s.registry, config).Ok?
    requires KeyOfAggregate(a) in s.snapshots && SnapshotSound(s, KeyOfAggregate(a))
    ensures s.snapshots[KeyOfAggregate(a)].producerId == a.producerId
  {
    OwnerIsProducer(s, config, a);
    Registrations.RegisterSound(s.registry, config);
    ProducerKept(s.registry, Registrations.Register(s.registry, config).value, a.appId);
  }

  lemma {:induction false} OverlapErrors(s: State, a: Aggregate, rest: seq<Observed>)
    ensures OverlapsRefusal(s, a, rest) in {None, Some(UnknownAssignment), Some(NoOverlap)}
  {
    if rest != [] {
      OverlapErrors(s, a, rest[1..]);
    }
  }

  lemma ConflictMeans(s: State, config: Config, a: Aggregate, now: nat)
    requires IngestAggregate(s, config, a, now) == Err(ConflictingProducer)
    ensures Owns(config, a.appId, a.producerId) && Registrations.Register(s.registry, config).Ok?
    ensures KeyOfAggregate(a) in s.snapshots && s.snapshots[KeyOfAggregate(a)].producerId != a.producerId
  {
    OverlapErrors(s, a, a.rows);
  }

  /** "Conflicting producer ownership" cannot happen: an app's producer never changes, so neither does a snapshot's. */
  lemma ProducerNeverConflicts(s: State, config: Config, a: Aggregate, uniforms: Uniforms, clock: nat, now: nat)
    requires Inv(s, uniforms, clock) && ValidConfig(config)
    ensures IngestAggregate(s, config, a, now) != Err(ConflictingProducer)
  {
    if IngestAggregate(s, config, a, now) == Err(ConflictingProducer) {
      ConflictMeans(s, config, a, now);
      assert SnapshotSound(s, KeyOfAggregate(a));
      SameProducer(s, config, a);
    }
  }

  ghost predicate Snapped(s: State, a: Aggregate, now: nat, t: State) {
    t == s.(registry := t.registry, snapshots := s.snapshots[KeyOfAggregate(a) := StoredSnapshot(a.producerId, Canonical(a), now)])
  }

  lemma AggregateApplied(s: State, config: Config, a: Aggregate, now: nat, t: State, status: Status)
    requires IngestAggregate(s, config, a, now) == Ok((t, status))
    ensures Owns(config, a.appId, a.producerId) && OverlapsRefusal(s, a, a.rows).None?
    ensures Registrations.Register(s.registry, config).Ok? && t.registry == Registrations.Register(s.registry, config).value
    ensures if status == Applied then Snapped(s, a, now, t) else t == s.(registry := t.registry)
  {}

  lemma NewSnapshotSound(s: State, config: Config, a: Aggregate, now: nat, t: State)
    requires Registrations.SoundRegistry(s.registry) && ValidConfig(config) && ValidAggregate(a)
    requires Owns(config, a.appId, a.producerId) && Registrations.Register(s.registry, config).Ok?
    requires OverlapsRefusal(s, a, a.rows).None? && Snapped(s, a, now, t)
    requires t.registry == Registrations.Register(s.registry, config).value
    ensures SnapshotSound(t, KeyOfAggregate(a))
  {
    OwnerIsProducer(s, config, a);
    SortAscends(a.rows, (r: Observed) => r.assignmentId);
    forall r | r in Canonical(a).rows ensures Evidenced(t, KeyOfAggregate(a), r) {
      OverlapsAccepted(s, a, a.rows, r);
    }
  }

  lemma SnapshotAdded(s: State, a: Aggregate, now: nat, t: State)
    requires Snapshots(s) && Advanced(s, t) && Snapped(s, a, now, t) && SnapshotSound(t, KeyOfAggregate(a))
    ensures Snapshots(t)
  {
    forall k | k in t.snapshots ensures SnapshotSound(t, k) {
      if k != KeyOfAggregate(a) {
        SnapshotKept(s, t, k);
      }
    }
  }

  lemma AggregateKeepsInv(s: State, config: Config, a: Aggregate, uniforms: Uniforms, clock: nat, now: nat, t: State, status: Status)
    requires Inv(s, uniforms, clock) && ValidConfig(config) && ValidAggregate(a) && clock <= now
    requires IngestAggregate(s, config, a, now) == Ok((t, status))
    ensures Inv(t, uniforms, now)
  {
    AggregateApplied(s, config, a, now, t, status);
    Registered(s, config);
    assert Advanced(s, t);
    if status == Applied {
      DecisionsLater(s, t, uniforms, clock, now);
      AssignmentsLater(s, t, clock, now);
      NewSnapshotSound(s, config, a, now, t);
      SnapshotAdded(s, a, now, t);
    } else {
      LaterInv(s, t, uniforms, clock, now);
    }
  }

  // ----- decisions -----

  lemma PlannedNow(s: State, config: Config, request: Request, now: nat)
    requires ValidConfig(config) && ValidRequest(request) && Plan(s, config, request, now).Ok?
    ensures var r := Plan(s, config, request, now).value;
            && ValidResult(r)
            && r.decisionId.input == DigestOf(request)
            && r.appId == request.appId
            && request.generatedAt <= now < request.expiresAt
  {
    var model := s.models[s.current.value].model;
    ScoringResult.ResultIsValid(config, request, model, now);
    Scoring.SettingIsValid(config, request, now);
  }

  lemma RecordedApplied(s: State, config: Config, request: Request, expected: Option<ModelId>, now: nat, t: State, r: Recommendation)
    requires ValidConfig(config) && ValidRequest(request) && RecordDecision(s, config, request, expected, now) == Ok((t, r))
    ensures Plan(s, config, request, now) == Ok(r)
    ensures Registrations.Register(s.registry, config).Ok? && t.registry == Registrations.Register(s.registry, config).value
    ensures t == s.(registry := t.registry, decisions := if r.decisionId in s.decisions then s.decisions
                                                         else s.decisions[r.decisionId := StoredDecision(request, r, config, now)])
  {}

  /** The consumer's check on a planned result never fails. */
  lemma PlannedResultIsValid(s: State, config: Config, request: Request, expected: Option<ModelId>, now: nat)
    requires ValidConfig(config) && ValidRequest(request)
    ensures RecordDecision(s, config, request, expected, now) != Err(InvalidPlannedResult)
  {
    assert CheckedPlan(s, config, request, expected, now) == Err(InvalidPlannedResult) ==> Plan(s, config, request, now).Ok?;
    if Plan(s, config, request, now).Ok? {
      ScoringResult.ScoredIsAccepted(config, request, s.models[s.current.value].model, now, now);
    }
  }

  /** A decision that is new has no assignments: those of a forgotten decision refer to an expired request. */
  lemma NewDecisionUnused(s: State, clock: nat, now: nat, d: DecisionId, appId: Id)
    requires Assignments(s, clock) && clock <= now < d.input.request.expiresAt && d !in s.decisions
    ensures forall k :: k in s.assignments ==> s.assignments[k].assignment.decisionId != d
    ensures StoredSamples(s, appId, d) == {}
  {
    forall k | k in s.assignments ensures s.assignments[k].assignment.decisionId != d {
      assert AssignmentSound(s, clock, k);
    }
  }

  lemma EmptyFollows(result: Recommendation, uniforms: Uniforms)
    ensures FollowsSampler(result, {}, uniforms)
  {}

  ghost predicate Recorded(s: State, request: Request, config: Config, now: nat, r: Recommendation, t: State) {
    && r.decisionId !in s.decisions
    && t == s.(registry := t.registry, decisions := s.decisions[r.decisionId := StoredDecision(request, r, config, now)])
  }

  lemma NewDecisionSound(s: State, config: Config, request: Request, uniforms: Uniforms, clock: nat, now: nat, t: State, r: Recommendation)
    requires Assignments(s, clock) && clock <= now && ValidRequest(request) && ValidConfig(config)
    requires Recorded(s, request, config, now, r, t) && ValidResult(r) && r.decisionId.input == DigestOf(request)
    requires request.generatedAt <= now < request.expiresAt
    ensures DecisionSound(t, now, r.decisionId) && SamplesSound(t, uniforms, r.decisionId)
  {
    NewDecisionUnused(s, clock, now, r.decisionId, r.appId);
    assert StoredSamples(t, r.appId, r.decisionId) == StoredSamples(s, r.appId, r.decisionId);
    EmptyFollows(r, uniforms);
  }

  lemma RecordKeepsDecisions(s: State, config: Config, request: Request, uniforms: Uniforms, clock: nat, now: nat, t: State, r: Recommendation)
    requires Decisions(s, uniforms, clock) && Assignments(s, clock) && clock <= now && ValidRequest(request) && ValidConfig(config)
    requires Recorded(s, request, config, now, r, t) && ValidResult(r) && r.decisionId.input == DigestOf(request)
    requires request.generatedAt <= now < request.expiresAt
    ensures Decisions(t, uniforms, now)
  {
    forall d | d in t.decisions ensures DecisionSound(t, now, d) && SamplesSound(t, uniforms, d) {
      if d == r.decisionId {
        NewDecisionSound(s, config, request, uniforms, clock, now, t, r);
      } else {
        OldDecisionSound(s, t, uniforms, clock, now, d);
      }
    }
  }

  lemma RecordKeepsAssignments(s: State, config: Config, request: Request, clock: nat, now: nat, t: State, r: Recommendation)
    requires Assignments(s, clock) && clock <= now < request.expiresAt
    requires Recorded(s, request, config, now, r, t) && r.decisionId.input == DigestOf(request)
    ensures Assignments(t, now)
  {
    NewDecisionUnused(s, clock, now, r.decisionId, request.appId);
    forall k | k in t.assignments ensures AssignmentSound(t, now, k) {
      assert AssignmentSound(s, clock, k);
    }
  }

  lemma RecordKeepsInv(s: State, config: Config, request: Request, expected: Option<ModelId>, uniforms: Uniforms,
                       clock: nat, now: nat, t: State, r: Recommendation)
    requires Inv(s, uniforms, clock) && ValidConfig(config) && ValidRequest(request) && clock <= now
    requires RecordDecision(s, config, request, expected, now) == Ok((t, r))
    ensures Inv(t, uniforms, now)
  {
    RecordedApplied(s, config, request, expected, now, t, r);
    PlannedNow(s, config, request, now);
    Registered(s, config);
    assert Advanced(s, t);
    if r.decisionId in s.decisions {
      LaterInv(s, t, uniforms, clock, now);
    } else {
      RecordKeepsDecisions(s, config, request, uniforms, clock, now, t, r);
      RecordKeepsAssignments(s, config, request, clock, now, t, r);
      SnapshotsLater(s, t);
    }
  }

  // ----- pruning -----

  /** Pruning takes none of the samples of a decision that stays: they are younger than it. */
  lemma PrunedSamples(s: State, clock: nat, now: nat, appId: Id, d: DecisionId)
    requires Assignments(s, clock) && d in s.decisions && Fresh(s.decisions[d].createdAt, now)
    ensures StoredSamples(Prune(s, now), appId, d) == StoredSamples(s, appId, d)
  {
    var t := Prune(s, now);
    forall a | a in StoredSamples(s, appId, d) ensures a in StoredSamples(t, appId, d) {
      var k :| k in s.assignments && k.appId == appId && s.assignments[k].assignment == a && SampledFor(a, d);
      assert AssignmentSound(s, clock, k);
      assert k in t.assignments;
    }
  }

  lemma PruneKeepsDecisions(s: State, uniforms: Uniforms, clock: nat, now: nat)
    requires Decisions(s, uniforms, clock) && Assignments(s, clock) && clock <= now
    ensures Decisions(Prune(s, now), uniforms, now)
  {
    var t := Prune(s, now);
    forall d | d in t.decisions ensures DecisionSound(t, now, d) && SamplesSound(t, uniforms, d) {
      assert t.decisions[d] == s.decisions[d];
      PrunedSamples(s, clock, now, s.decisions[d].result.appId, d);
      assert DecisionSound(s, clock, d) && SamplesSound(s, uniforms, d);
    }
  }

  lemma AnchorAfterPrune(s: State, clock: nat, now: nat, k: AssignmentKey)
    requires k in s.assignments && AssignmentSound(s, clock, k) && clock <= now
    requires forall d :: d in s.decisions ==> DecisionSound(s, clock, d)
    ensures Anchored(Prune(s, now), now, k.appId, s.assignments[k])
  {
    var d := s.assignments[k].assignment.decisionId;
    if d in s.decisions {
      assert DecisionSound(s, clock, d);
    }
  }

  lemma PruneKeepsAssignments(s: State, uniforms: Uniforms, clock: nat, now: nat)
    requires Decisions(s, uniforms, clock) && Assignments(s, clock) && clock <= now
    ensures Assignments(Prune(s, now), now)
  {
    var t := Prune(s, now);
    forall d | d in s.decisions ensures DecisionSound(s, clock, d) {}
    forall k | k in t.assignments ensures AssignmentSound(t, now, k) {
      assert t.assignments[k] == s.assignments[k];
      AnchorAfterPrune(s, clock, now, k);
    }
  }

  /** The evidence of a snapshot that is kept is younger than retention, so it is kept as well. */
  lemma PruneKeepsSnapshots(s: State, clock: nat, now: nat)
    requires Snapshots(s) && Assignments(s, clock) && clock <= now && Registrations.SoundRegistry(s.registry)
    ensures Snapshots(Prune(s, now))
  {
    var t := Prune(s, now);
    NotAdvanced(s);
    forall k | k in t.snapshots ensures SnapshotSound(t, k) {
      forall r | r in s.snapshots[k].snapshot.rows && Evidenced(s, k, r) ensures Evidenced(t, k, r) {
        assert AssignmentSound(s, clock, AssignmentKey(k.appId, r.assignmentId));
        assert now - Day < now / Day * Day;
      }
      SnapshotKept(s, t, k);
    }
  }

  lemma PruneKeepsInv(s: State, uniforms: Uniforms, clock: nat, now: nat)
    requires Inv(s, uniforms, clock) && clock <= now
    ensures Inv(Prune(s, now), uniforms, now)
  {
    PruneKeepsDecisions(s, uniforms, clock, now);
    PruneKeepsAssignments(s, uniforms, clock, now);
    PruneKeepsSnapshots(s, clock, now);
  }

  // ----- every transaction -----

  lemma BuildKeepsInv(s: State, config: Config, model: Model, uniforms: Uniforms, clock: nat, now: nat)
    requires Inv(s, uniforms, clock) && ValidConfig(config) && clock <= now && Registrations.Register(s.registry, config).Ok?
    ensures Inv(LearningBuild.WithModel(s, Registrations.Register(s.registry, config).value, config, model, now), uniforms, now)
  {
    var t := LearningBuild.WithModel(s, Registrations.Register(s.registry, config).value, config, model, now);
    Registered(s, config);
    assert Advanced(s, t);
    LaterInv(s, t, uniforms, clock, now);
  }

  /** No transaction, whether it succeeds or fails, breaks the invariant. */
  lemma StepKeepsInv(s: State, a: Action, uniforms: Uniforms, clock: nat)
    requires Inv(s, uniforms, clock) && Admissible(a) && clock <= a.now
    ensures Inv(After(s, a, uniforms), uniforms, a.now)
  {
    match a
    case DeliverManifest(config, m, now) =>
      var r := IngestManifest(s, config, m, uniforms, now);
      if r.Ok? {
        ManifestKeepsInv(s, config, m, uniforms, clock, now, r.value.0, r.value.1);
      } else {
        UnchangedInv(s, uniforms, clock, now);
      }
    case DeliverAggregate(config, g, now) =>
      var r := IngestAggregate(s, config, g, now);
      if r.Ok? {
        AggregateKeepsInv(s, config, g, uniforms, clock, now, r.value.0, r.value.1);
      } else {
        UnchangedInv(s, uniforms, clock, now);
      }
    case BuildModel(config, model, now) =>
      if CanBuild(s, config, model, now) {
        BuildKeepsInv(s, config, model, uniforms, clock, now);
      } else {
        UnchangedInv(s, uniforms, clock, now);
      }
    case Record(config, request, expected, now) =>
      var r := RecordDecision(s, config, request, expected, now);
      if r.Ok? {
        RecordKeepsInv(s, config, request, expected, uniforms, clock, now, r.value.0, r.value.1);
      } else {
        UnchangedInv(s, uniforms, clock, now);
      }
    case PruneOld(now) => PruneKeepsInv(s, uniforms, clock, now);
  }
}
