/** The recommendation store as the object that its callers use: each method is one transaction. */
module RecommendationStore {
  import opened Prelude
  import opened Ordering
  import opened Recommendations
  import opened LearningStore
  import LearningBuild
  import LearningModel
  import Evidence
  import Registrations
  import Scoring
  import ScoringResult

  class Store {
    var registry: Registrations.Registry
    var models: map<ModelId, StoredModel>
    var current: Option<ModelId>
    var decisions: map<DecisionId, StoredDecision>
    var manifests: map<ManifestKey, StoredManifest>
    var assignments: map<AssignmentKey, StoredAssignment>
    var snapshots: map<SnapshotKey, StoredSnapshot>

    function Contents(): State
      reads this
    {
      State(registry, models, current, decisions, manifests, assignments, snapshots)
    }

    constructor ()
      ensures Contents() == EmptyStore
    {
      registry, models, current := Registrations.NoRegistrations, map[], None;
      decisions, manifests, assignments, snapshots := map[], map[], map[], map[];
    }

    /** Record a configuration, or refuse all of it. */
    method Register(config: Config) returns (r: Result<Registrations.Registry, Registrations.Error>)
      ensures r == Registrations.Register(registry, config)
    {
      var reg := registry;
      var i := 0;
      while i < |config.apps|
        invariant 0 <= i <= |config.apps|
        invariant Registrations.RegisterApps(reg, config.apps[i..]) == Registrations.RegisterApps(registry, config.apps)
      {
        assert config.apps[i..][1..] == config.apps[i + 1..];
        var next := Registrations.RegisterApp(reg, config.apps[i]);
        if next.Err? {
          return next;
        }
        reg, i := next.value, i + 1;
      }
      assert Registrations.RegisterApps(registry, config.apps) == Ok(reg);
      r := RegisterRest(config, reg);
    }

    method RegisterRest(config: Config, apps: Registrations.Registry) returns (r: Result<Registrations.Registry, Registrations.Error>)
      requires Registrations.RegisterApps(registry, config.apps) == Ok(apps)
      ensures r == Registrations.Register(registry, config)
    {
      var reg := apps;
      var i := 0;
      while i < |config.policies|
        invariant 0 <= i <= |config.policies|
        invariant Registrations.RegisterPolicies(reg, config.policies[i..]) == Registrations.RegisterPolicies(apps, config.policies)
      {
        assert config.policies[i..][1..] == config.policies[i + 1..];
        var next := Registrations.RegisterPolicy(reg, config.policies[i]);
        if next.Err? {
          return next;
        }
        reg, i := next.value, i + 1;
      }
      ghost var policies := reg;
      assert Registrations.RegisterPolicies(apps, config.policies) == Ok(policies);
      i := 0;
      while i < |config.entities|
        invariant 0 <= i <= |config.entities|
        invariant Registrations.RegisterEntities(reg, config.entities[i..]) == Registrations.RegisterEntities(policies, config.entities)
      {
        assert config.entities[i..][1..] == config.entities[i + 1..];
        var next := Registrations.RegisterEntity(reg, config.entities[i]);
        if next.Err? {
          return next;
        }
        reg, i := next.value, i + 1;
      }
      r := Ok(reg);
    }

    /** The checks of a manifest's sampler groups, in order. */
    method CheckGroups(m: Manifest, uniforms: Uniforms) returns (r: Option<Error>)
      ensures r == GroupsRefusal(Contents(), m, m.assignments, uniforms)
    {
      var stored, i := Contents(), 0;
      r := None;
      while i < |m.assignments| && r.None?
        invariant 0 <= i <= |m.assignments|
        invariant GroupsRefusal(stored, m, m.assignments, uniforms) == if r.Some? then r else GroupsRefusal(stored, m, m.assignments[i..], uniforms)
      {
        assert m.assignments[i..][1..] == m.assignments[i + 1..];
        if m.assignments[i].application == BySampler {
          r := GroupRefusal(stored, m, m.assignments[i].decisionId, uniforms);
        }
        i := i + 1;
      }
    }

    method CheckAssignments(m: Manifest) returns (r: Option<Error>)
      ensures r == AssignmentsRefusal(Contents(), m, m.assignments)
    {
      var i := 0;
      while i < |m.assignments|
        invariant 0 <= i <= |m.assignments|
        invariant AssignmentsRefusal(Contents(), m, m.assignments[i..]) == AssignmentsRefusal(Contents(), m, m.assignments)
      {
        assert m.assignments[i..][1..] == m.assignments[i + 1..];
        r := AssignmentRefusal(Contents(), m, m.assignments[i]);
        if r.Some? {
          return;
        }
        i := i + 1;
      }
      r := None;
    }

    method InsertAssignments(m: Manifest, now: nat)
      modifies this`assignments
      ensures assignments == WithAssignments(old(assignments), m, m.assignments, now)
    {
      var i := 0;
      while i < |m.assignments|
        invariant 0 <= i <= |m.assignments|
        invariant WithAssignments(assignments, m, m.assignments[i..], now) == WithAssignments(old(assignments), m, m.assignments, now)
      {
        assert m.assignments[i..][1..] == m.assignments[i + 1..];
        var key := AssignmentKey(m.appId, m.assignments[i].assignmentId);
        if key !in assignments {
          assignments := assignments[key := StoredAssignment(m.assignments[i], m.producerId, now)];
        }
        i := i + 1;
      }
    }

    method IngestManifest(config: Config, m: Manifest, uniforms: Uniforms, now: nat) returns (r: Result<Status, Error>)
      modifies this
      ensures var spec := LearningStore.IngestManifest(old(Contents()), config, m, uniforms, now);
              && (spec.Err? ==> r == Err(spec.error) && Contents() == old(Contents()))
              && (spec.Ok? ==> r == Ok(spec.value.1) && Contents() == spec.value.0)
    {
      if !Owns(config, m.appId, m.producerId) {
        return Err(UnknownProducer);
      }
      if m.generatedAt > now || m.generatedAt < now - RetentionDays * Day {
        return Err(OutsideRetention);
      }
      var registered := Register(config);
      if registered.Err? {
        return Err(Registration(registered.error));
      }
      var key := ManifestKey(m.appId, m.manifestId);
      if key in manifests {
        if manifests[key].manifest != CanonicalManifest(m) {
          return Err(ConflictingManifest);
        }
        registry := registered.value;
        return Ok(Duplicate);
      }
      var refused := CheckGroups(m, uniforms);
      if refused.Some? {
        return Err(refused.value);
      }
      refused := CheckAssignments(m);
      if refused.Some? {
        return Err(refused.value);
      }
      registry := registered.value;
      InsertAssignments(m, now);
      manifests := manifests[key := StoredManifest(CanonicalManifest(m), now)];
      r := Ok(Applied);
    }

    method CheckOverlaps(a: Aggregate) returns (r: Option<Error>)
      ensures r == OverlapsRefusal(Contents(), a, a.rows)
    {
      var i := 0;
      while i < |a.rows|
        invariant 0 <= i <= |a.rows|
        invariant OverlapsRefusal(Contents(), a, a.rows[i..]) == OverlapsRefusal(Contents(), a, a.rows)
      {
        assert a.rows[i..][1..] == a.rows[i + 1..];
        r := OverlapRefusal(Contents(), a, a.rows[i]);
        if r.Some? {
          return;
        }
        i := i + 1;
      }
      r := None;
    }

    method IngestAggregate(config: Config, a: Aggregate, now: nat) returns (r: Result<Status, Error>)
      modifies this`registry, this`snapshots
      ensures var spec := LearningStore.IngestAggregate(old(Contents()), config, a, now);
              && (spec.Err? ==> r == Err(spec.error) && Contents() == old(Contents()))
              && (spec.Ok? ==> r == Ok(spec.value.1) && Contents() == spec.value.0)
    {
      if !Owns(config, a.appId, a.producerId) {
        return Err(UnknownProducer);
      }
      if !KnownProfile(Contents(), config, a) || a.generatedAt > now || a.periodEnd > now || a.periodStart < KeepDay(now) {
        return Err(UnknownProfileOrPeriod);
      }
      var registered := Register(config);
      if registered.Err? {
        return Err(Registration(registered.error));
      }
      var refused := CheckOverlaps(a);
      if refused.Some? {
        return Err(refused.value);
      }
      var key := KeyOfAggregate(a);
      if key in snapshots {
        var previous := snapshots[key];
        if previous.producerId != a.producerId {
          return Err(ConflictingProducer);
        }
        if previous.snapshot.revision > a.revision {
          registry := registered.value;
          return Ok(Stale);
        }
        if previous.snapshot.revision == a.revision {
          if previous.snapshot != Canonical(a) {
            return Err(ConflictingRevision);
          }
          registry := registered.value;
          return Ok(Duplicate);
        }
      }
      registry := registered.value;
      snapshots := snapshots[key := StoredSnapshot(a.producerId, Canonical(a), now)];
      r := Ok(Applied);
    }

    method Build(config: Config, now: nat) returns (r: Result<Model, Error>)
      modifies this`registry, this`models, this`current
      ensures r.Ok? <==>
                && !LearningBuild.Regressed(old(Contents()), now)
                && Registrations.Register(old(registry), config).Ok?
                && !LearningBuild.Unbuildable(old(Contents()), config, now)
      ensures r.Err? ==> Contents() == old(Contents())
      ensures r.Ok? ==>
                && LearningBuild.IsModel(old(Contents()), config, now, r.value)
                && Contents() == LearningBuild.WithModel(old(Contents()), Registrations.Register(old(registry), config).value, config, r.value, now)
    {
      if LearningBuild.Regressed(Contents(), now) {
        return Err(ClockRegressed);
      }
      var registered := Register(config);
      if registered.Err? {
        return Err(Registration(registered.error));
      }
      r := LearningModel.BuildModel(Contents(), config, now);
      if r.Ok? {
        var id := r.value.modelGenerationId;
        registry := registered.value;
        if id !in models {
          models := models[id := StoredModel(config, r.value, now)];
        }
        current := Some(id);
      }
    }

    method Plan(config: Config, request: Request, now: nat) returns (r: Result<Recommendation, Error>)
      requires ValidConfig(config) && ValidRequest(request)
      ensures r == LearningStore.Plan(Contents(), config, request, now)
    {
      if current.None? || current.value !in models || models[current.value].config != config {
        return Err(NoCurrentModel);
      }
      var model := models[current.value].model;
      if !ValidModel(model) {
        return Err(InvalidModel);
      }
      var scored := Scoring.ScoreRecommendations(config, request, model, now);
      r := if scored.Err? then Err(Unscored(scored.error)) else Ok(scored.value);
    }

    method PlanChecked(config: Config, request: Request, expected: Option<ModelId>, now: nat) returns (r: Result<Recommendation, Error>)
      requires ValidConfig(config) && ValidRequest(request)
      ensures r == CheckedPlan(Contents(), config, request, expected, now)
    {
      r := Plan(config, request, now);
      if r.Ok? {
        if expected.Some? && r.value.modelGenerationId != expected.value {
          return Err(ModelReplaced);
        }
        if ScoringResult.ValidateRecommendations(r.value, request, now).None? {
          return Err(InvalidPlannedResult);
        }
      }
    }

    method RecordDecision(config: Config, request: Request, expected: Option<ModelId>, now: nat) returns (r: Result<Recommendation, Error>)
      requires ValidConfig(config) && ValidRequest(request)
      modifies this`registry, this`decisions
      ensures var spec := LearningStore.RecordDecision(old(Contents()), config, request, expected, now);
              && (spec.Err? ==> r == Err(spec.error) && Contents() == old(Contents()))
              && (spec.Ok? ==> r == Ok(spec.value.1) && Contents() == spec.value.0)
    {
      var registered := Register(config);
      if registered.Err? {
        return Err(Registration(registered.error));
      }
      var planned := PlanChecked(config, request, expected, now);
      if planned.Err? {
        return planned;
      }
      Keep(registered.value, config, request, planned.value, now);
      r := planned;
    }

    method Keep(registered: Registrations.Registry, config: Config, request: Request, result: Recommendation, now: nat)
      modifies this`registry, this`decisions
      ensures registry == registered
      ensures decisions == WithDecision(old(decisions), config, request, result, now)
    {
      registry := registered;
      if result.decisionId !in decisions {
        decisions := decisions[result.decisionId := StoredDecision(request, result, config, now)];
      }
    }

    method Prune(now: nat) returns (prunedDays: nat)
      modifies this
      ensures Contents() == LearningStore.Prune(old(Contents()), now)
      ensures prunedDays == |old(snapshots).Keys - snapshots.Keys|
    {
      prunedDays := |set k | k in snapshots && k.day < KeepDay(now)|;
      assert (set k | k in snapshots && k.day < KeepDay(now))
          == snapshots.Keys - (map k | k in snapshots && k.day >= KeepDay(now) :: snapshots[k]).Keys;
      snapshots := map k | k in snapshots && k.day >= KeepDay(now) :: snapshots[k];
      models := map k | k in models && Fresh(models[k].createdAt, now) :: models[k];
      decisions := map k | k in decisions && Fresh(decisions[k].createdAt, now) :: decisions[k];
      manifests := map k | k in manifests && Fresh(manifests[k].createdAt, now) :: manifests[k];
      assignments := map k | k in assignments && Fresh(assignments[k].createdAt, now) :: assignments[k];
    }
  }
}
