/** What the recommendation store accepts, spelled out: configurations, manifests, aggregates, and what pruning leaves. */
module StoreMeaning {
  import opened Prelude
  import opened Ordering
  import opened Recommendations
  import opened LearningStore
  import opened LearningInvariant
  import Registrations
  import Sampler

  // ----- configurations -----

  /** The app repeats the newest stored revision, or is newer than every stored one and evolves from it. */
  ghost predicate Follows(history: seq<App>, app: App) {
    || (history != [] && history[|history| - 1] == app)
    || forall a :: a in history ==> a.appRevision < app.appRevision && Registrations.Evolves(a, app)
  }

  lemma {:induction false} ContextFromHistory(history: seq<App>, id: Id)
    ensures var found := Registrations.NewestContext(history, id);
            found.Some? ==> found.value.contextId == id && exists a :: a in history && found.value in a.contexts
  {
    if history != [] {
      assert history[|history| - 1] in history;
      ContextFromHistory(history[..|history| - 1], id);
    }
  }

  lemma {:induction false} SubjectFromHistory(history: seq<App>, id: Id)
    ensures var found := Registrations.NewestSubject(history, id);
            found.Some? ==> found.value.subjectId == id && exists a :: a in history && found.value in a.subjects
  {
    if history != [] {
      assert history[|history| - 1] in history;
      SubjectFromHistory(history[..|history| - 1], id);
    }
  }

  lemma EvolvedIsKept(history: seq<App>, app: App)
    requires forall a :: a in history ==> a.appRevision < app.appRevision && Registrations.Evolves(a, app)
    ensures Registrations.AppRefusal(history, app).None?
  {
    if history != [] {
      assert history[|history| - 1] in history;
    }
    forall c | c in app.contexts ensures Registrations.ContextKept(history, c) {
      ContextFromHistory(history, c.contextId);
    }
    forall x | x in app.subjects ensures Registrations.SubjectKept(history, x) {
      SubjectFromHistory(history, x.subjectId);
    }
  }

  /** A revision of an app is accepted exactly when it follows from the whole stored history. */
  lemma AppAcceptedIff(history: seq<App>, app: App)
    requires Registrations.Sound(history)
    ensures Registrations.AppRefusal(history, app).None? <==> Follows(history, app)
  {
    if Registrations.AppRefusal(history, app).None? {
      if Registrations.FindRevision(history, app.appRevision).None? {
        forall a | a in history ensures a.appRevision < app.appRevision && Registrations.Evolves(a, app) {
          Registrations.AcceptedEvolves(history, app, a);
        }
      } else {
        Registrations.NotNewer(history, app);
      }
    } else if history != [] && history[|history| - 1] == app {
      LastIsFound(history);
      assert false;
    } else if Follows(history, app) {
      EvolvedIsKept(history, app);
      assert false;
    }
  }

  lemma LastIsFound(history: seq<App>)
    requires Registrations.Sound(history) && history != []
    ensures Registrations.AppRefusal(history, history[|history| - 1]).None?
  {
    var last := history[|history| - 1];
    var found := Registrations.FindRevision(history, last.appRevision);
    assert last in history;
    Registrations.NotNewer(history, found.value);
  }

  lemma {:induction false} AppsAcceptedIff(reg: Registrations.Registry, apps: seq<App>)
    requires forall i, j :: 0 <= i < j < |apps| ==> apps[i].appId != apps[j].appId
    ensures Registrations.RegisterApps(reg, apps).Ok? <==>
              forall a :: a in apps ==> Registrations.AppRefusal(Registrations.History(reg, a.appId), a).None?
    decreases |apps|
  {
    if apps != [] {
      var first := Registrations.RegisterApp(reg, apps[0]);
      assert apps == [apps[0]] + apps[1..];
      if first.Ok? {
        forall a | a in apps[1..] ensures Registrations.History(first.value, a.appId) == Registrations.History(reg, a.appId) {}
        AppsAcceptedIff(first.value, apps[1..]);
      }
    }
  }

  lemma {:induction false} PoliciesAcceptedIff(reg: Registrations.Registry, policies: seq<Policy>)
    requires forall i, j :: 0 <= i < j < |policies| ==> policies[i].policyId != policies[j].policyId
    ensures Registrations.RegisterPolicies(reg, policies).Ok? <==>
              forall p :: p in policies ==> PolicyKept(reg, p)
    ensures Registrations.RegisterPolicies(reg, policies).Ok? ==> Registrations.RegisterPolicies(reg, policies).value.entities == reg.entities
    decreases |policies|
  {
    if policies != [] {
      var first := Registrations.RegisterPolicy(reg, policies[0]);
      assert policies == [policies[0]] + policies[1..];
      assert policies[0] in policies && (first.Ok? <==> PolicyKept(reg, policies[0]));
      if first.Ok? {
        forall p | p in policies[1..] ensures PolicyKept(first.value, p) <==> PolicyKept(reg, p) {}
        PoliciesAcceptedIff(first.value, policies[1..]);
      }
    }
  }

  lemma {:induction false} EntitiesAcceptedIff(reg: Registrations.Registry, entities: seq<Entity>)
    requires forall i, j :: 0 <= i < j < |entities| ==> entities[i].entityRef != entities[j].entityRef
    ensures Registrations.RegisterEntities(reg, entities).Ok? <==> forall e :: e in entities ==> EntityKept(reg, e)
    decreases |entities|
  {
    if entities != [] {
      var first := Registrations.RegisterEntity(reg, entities[0]);
      assert entities == [entities[0]] + entities[1..];
      assert entities[0] in entities && (first.Ok? <==> EntityKept(reg, entities[0]));
      if first.Ok? {
        forall e | e in entities[1..] ensures EntityKept(first.value, e) <==> EntityKept(reg, e) {}
        EntitiesAcceptedIff(first.value, entities[1..]);
      }
    }
  }

  ghost predicate PolicyKept(reg: Registrations.Registry, p: Policy) {
    var key := Registrations.PolicyKey(p.policyId, p.version);
    key in reg.policies ==> reg.policies[key] == p
  }

  ghost predicate EntityKept(reg: Registrations.Registry, e: Entity) {
    e.entityRef in reg.entities ==> reg.entities[e.entityRef] == e
  }

  /** Every app follows from its history, and no version of a policy and no entity ever changes its meaning. */
  ghost predicate Consistent(reg: Registrations.Registry, config: Config) {
    && (forall a :: a in config.apps ==> Follows(Registrations.History(reg, a.appId), a))
    && (forall p :: p in config.policies ==> PolicyKept(reg, p))
    && (forall e :: e in config.entities ==> EntityKept(reg, e))
  }

  lemma HistoryIsSound(reg: Registrations.Registry, id: Id)
    requires Registrations.SoundRegistry(reg)
    ensures Registrations.Sound(Registrations.History(reg, id))
  {}

  lemma {:induction false} AppsLeaveOthers(reg: Registrations.Registry, apps: seq<App>)
    requires Registrations.RegisterApps(reg, apps).Ok?
    ensures var after := Registrations.RegisterApps(reg, apps).value; after.policies == reg.policies && after.entities == reg.entities
    decreases |apps|
  {
    if apps != [] {
      AppsLeaveOthers(Registrations.RegisterApp(reg, apps[0]).value, apps[1..]);
    }
  }

  /** A configuration is accepted exactly when it is consistent with everything registered before. */
  lemma ConfigAcceptedIff(reg: Registrations.Registry, config: Config)
    requires Registrations.SoundRegistry(reg) && ValidConfig(config)
    ensures Registrations.Register(reg, config).Ok? <==> Consistent(reg, config)
  {
    forall a | a in config.apps
      ensures Follows(Registrations.History(reg, a.appId), a) <==> Registrations.AppRefusal(Registrations.History(reg, a.appId), a).None?
    {
      HistoryIsSound(reg, a.appId);
      AppAcceptedIff(Registrations.History(reg, a.appId), a);
    }
    AppsAcceptedIff(reg, config.apps);
    var apps := Registrations.RegisterApps(reg, config.apps);
    if apps.Ok? {
      AppsLeaveOthers(reg, config.apps);
      PoliciesAcceptedIff(apps.value, config.policies);
      forall p ensures PolicyKept(apps.value, p) <==> PolicyKept(reg, p) {}
      var policies := Registrations.RegisterPolicies(apps.value, config.policies);
      if policies.Ok? {
        EntitiesAcceptedIff(policies.value, config.entities);
        forall e ensures EntityKept(policies.value, e) <==> EntityKept(reg, e) {}
      }
    }
  }

  // ----- manifests -----

  /** The owner of an app, by the configuration. */
  ghost predicate Produces(config: Config, appId: Id, producerId: Id) {
    exists a :: a in config.apps && a.appId == appId && a.producerId == producerId
  }

  /** The configuration registers the subject with this mapping version. */
  ghost predicate Maps(config: Config, appId: Id, subjectId: Id, mappingVersion: Positive) {
    exists x :: Registers(config, appId, x) && x.subjectId == subjectId && x.mappingVersion == mappingVersion
  }

  /** An assignment that a manifest may bring: of a stored decision of the app, within its time, context and candidates. */
  ghost predicate Admissible(s: State, m: Manifest, a: Assignment) {
    && a.decisionId in s.decisions
    && Decided(s.decisions[a.decisionId], m, a)
    && KeepsAssignment(s, AssignmentKey(m.appId, a.assignmentId), a)
  }

  ghost predicate Decided(d: StoredDecision, m: Manifest, a: Assignment) {
    && d.result.appId == m.appId
    && Produces(d.config, m.appId, m.producerId)
    && d.request.appRevision == m.appRevision
    && a.startsAt <= m.generatedAt
    && d.result.generatedAt <= a.startsAt < d.result.expiresAt
    && a.contextId == d.request.contextId && a.measurementProfileId == d.request.measurementProfileId
    && Candidate(a.subjectId, a.ruleRevision, a.entityRef) in d.request.candidates
    && Maps(d.config, m.appId, a.subjectId, a.mappingVersion)
  }

  ghost predicate KeepsAssignment(s: State, key: AssignmentKey, a: Assignment) {
    key in s.assignments ==> s.assignments[key].assignment == a
  }

  lemma ProducesIs(config: Config, appId: Id, producerId: Id)
    requires ValidConfig(config)
    ensures Owns(config, appId, producerId) <==> Produces(config, appId, producerId)
  {
    if a :| a in config.apps && a.appId == appId && a.producerId == producerId {
      OneApp(config, a, FindApp(config.apps, appId).value);
    }
  }

  lemma MapsIs(config: Config, appId: Id, subjectId: Id, mappingVersion: Positive)
    requires ValidConfig(config)
    ensures var x := SubjectOf(config, appId, subjectId);
            Maps(config, appId, subjectId, mappingVersion) <==> x.Some? && x.value.mappingVersion == mappingVersion
  {
    forall x ensures SubjectOf(config, appId, subjectId) == Some(x) <==> Registers(config, appId, x) && x.subjectId == subjectId {
      SubjectOfIs(config, appId, subjectId, x);
    }
  }

  lemma CandidateIn(cs: seq<Candidate>, mine: Candidate)
    ensures (exists c :: c in cs && CandidateKey(c) == CandidateKey(mine) && c.ruleRevision == mine.ruleRevision) <==> mine in cs
  {
    if c :| c in cs && CandidateKey(c) == CandidateKey(mine) && c.ruleRevision == mine.ruleRevision {
      KeyInjective(c, mine);
    }
  }

  lemma AssignmentAcceptedIff(s: State, m: Manifest, a: Assignment)
    requires a.decisionId in s.decisions ==> ValidConfig(s.decisions[a.decisionId].config)
    ensures AssignmentRefusal(s, m, a).None? <==> Admissible(s, m, a)
  {
    if a.decisionId in s.decisions {
      var d := s.decisions[a.decisionId];
      ProducesIs(d.config, m.appId, m.producerId);
      MapsIs(d.config, m.appId, a.subjectId, a.mappingVersion);
      CandidateIn(d.request.candidates, CandidateOf(a));
    }
  }

  lemma {:induction false} AllAssignmentsAcceptedIff(s: State, m: Manifest, rest: seq<Assignment>)
    requires forall d :: d in s.decisions ==> ValidConfig(s.decisions[d].config)
    ensures AssignmentsRefusal(s, m, rest).None? <==> forall a :: a in rest ==> Admissible(s, m, a)
  {
    if rest != [] {
      AllAssignmentsAcceptedIff(s, m, rest[1..]);
      AssignmentAcceptedIff(s, m, rest[0]);
      assert rest == [rest[0]] + rest[1..];
    }
  }

  /** With the manifest, the samples of the decision are its first draws, in one arm. */
  ghost predicate KeepsToSampler(s: State, m: Manifest, uniforms: Uniforms, d: DecisionId) {
    d in s.decisions && s.decisions[d].result.appId == m.appId && FollowsSampler(s.decisions[d].result, Combined(s, m, d), uniforms)
  }

  /** There are no more samples than entries to draw from. */
  lemma SelectedAtMost(result: Recommendation, samples: set<Assignment>, uniforms: Uniforms)
    requires |result.entries| <= 1000 && SelectedPrefix(samples, DrawsOf(result, uniforms, |samples|))
    ensures |samples| <= 1000
  {
    Sampler.PrefixStable(result.entries, uniforms(result.seed, result.decisionId), 0, |samples|);
  }

  lemma GroupAcceptedIff(s: State, m: Manifest, d: DecisionId, uniforms: Uniforms)
    requires d in s.decisions ==> |s.decisions[d].result.entries| <= 1000
    ensures GroupRefusal(s, m, d, uniforms).None? <==> KeepsToSampler(s, m, uniforms, d)
  {
    if KeepsToSampler(s, m, uniforms, d) {
      SelectedAtMost(s.decisions[d].result, Combined(s, m, d), uniforms);
    } else if GroupRefusal(s, m, d, uniforms).None? {
      GroupFollows(s, m, d, uniforms);
    }
  }

  lemma {:induction false} GroupsAcceptedIff(s: State, m: Manifest, rest: seq<Assignment>, uniforms: Uniforms)
    requires forall d :: d in s.decisions ==> |s.decisions[d].result.entries| <= 1000
    ensures GroupsRefusal(s, m, rest, uniforms).None? <==>
              forall a :: a in rest && a.application == BySampler ==> KeepsToSampler(s, m, uniforms, a.decisionId)
  {
    if rest != [] {
      GroupsAcceptedIff(s, m, rest[1..], uniforms);
      GroupAcceptedIff(s, m, rest[0].decisionId, uniforms);
      assert rest == [rest[0]] + rest[1..];
    }
  }

  /** The manifest is new and comes from the app's producer, in time, under a consistent configuration. */
  ghost predicate Delivered(s: State, config: Config, m: Manifest, now: nat) {
    && Produces(config, m.appId, m.producerId)
    && m.generatedAt <= now <= m.generatedAt + 120 * 86_400_000
    && Consistent(s.registry, config)
    && ManifestKey(m.appId, m.manifestId) !in s.manifests
  }

  lemma StoredAreSound(s: State, uniforms: Uniforms, clock: nat)
    requires Inv(s, uniforms, clock)
    ensures forall d :: d in s.decisions ==> ValidConfig(s.decisions[d].config) && |s.decisions[d].result.entries| <= 1000
  {
    forall d | d in s.decisions ensures ValidConfig(s.decisions[d].config) && |s.decisions[d].result.entries| <= 1000 {
      assert DecisionSound(s, clock, d);
    }
  }

  lemma AppliesIff(s: State, config: Config, m: Manifest, uniforms: Uniforms, now: nat)
    ensures (IngestManifest(s, config, m, uniforms, now).Ok? && IngestManifest(s, config, m, uniforms, now).value.1 == Applied) <==>
              && Owns(config, m.appId, m.producerId)
              && m.generatedAt <= now <= m.generatedAt + RetentionDays * Day
              && Registrations.Register(s.registry, config).Ok?
              && ManifestKey(m.appId, m.manifestId) !in s.manifests
              && GroupsRefusal(s, m, m.assignments, uniforms).None?
              && AssignmentsRefusal(s, m, m.assignments).None?
  {}

  /**
   A manifest is applied exactly when it is delivered properly, each of its assignments belongs to a stored
   decision, and its sampled ones keep to the sampler together with those stored before.
   */
  lemma ManifestAcceptedIff(s: State, config: Config, m: Manifest, uniforms: Uniforms, clock: nat, now: nat)
    requires Inv(s, uniforms, clock) && ValidConfig(config)
    ensures (IngestManifest(s, config, m, uniforms, now).Ok? && IngestManifest(s, config, m, uniforms, now).value.1 == Applied) <==>
              && Delivered(s, config, m, now)
              && (forall a :: a in m.assignments ==> Admissible(s, m, a))
              && (forall a :: a in m.assignments && a.application == BySampler ==> KeepsToSampler(s, m, uniforms, a.decisionId))
  {
    AppliesIff(s, config, m, uniforms, now);
    ProducesIs(config, m.appId, m.producerId);
    ConfigAcceptedIff(s.registry, config);
    StoredAreSound(s, uniforms, clock);
    GroupsAcceptedIff(s, m, m.assignments, uniforms);
    AllAssignmentsAcceptedIff(s, m, m.assignments);
  }

  // ----- aggregates -----

  /** The observed row is about a stored assignment of the aggregate's profile whose time meets the day. */
  ghost predicate Meets(s: State, g: Aggregate, r: Observed) {
    var key := AssignmentKey(g.appId, r.assignmentId);
    && key in s.assignments
    && var a := s.assignments[key].assignment;
       a.measurementProfileId == g.measurementProfileId && g.periodStart < a.endsAt && a.startsAt < g.periodEnd
  }

  lemma {:induction false} OverlapsIff(s: State, g: Aggregate, rest: seq<Observed>)
    ensures OverlapsRefusal(s, g, rest).None? <==> forall r :: r in rest ==> Meets(s, g, r)
  {
    if rest != [] {
      OverlapsIff(s, g, rest[1..]);
      assert rest == [rest[0]] + rest[1..];
      assert OverlapRefusal(s, g, rest[0]).None? <==> Meets(s, g, rest[0]);
    }
  }

  /** The profile is registered for the app now, or was when an earlier day of it was stored. */
  ghost predicate ProfileKnown(s: State, config: Config, g: Aggregate) {
    || (exists x :: RegistersContext(config, g.appId, x) && x.measurementProfileId == g.measurementProfileId)
    || (exists k :: k in s.snapshots && k.appId == g.appId && k.profileId == g.measurementProfileId)
  }

  lemma ProfileIs(s: State, config: Config, g: Aggregate)
    requires ValidConfig(config)
    ensures KnownProfile(s, config, g) <==> ProfileKnown(s, config, g)
  {
    var app := FindApp(config.apps, g.appId);
    if x :| RegistersContext(config, g.appId, x) && x.measurementProfileId == g.measurementProfileId {
      var a :| a in config.apps && a.appId == g.appId && x in a.contexts;
      OneApp(config, a, app.value);
    }
    if app.Some? && exists c :: c in app.value.contexts && c.measurementProfileId == g.measurementProfileId {
      var c :| c in app.value.contexts && c.measurementProfileId == g.measurementProfileId;
      assert RegistersContext(config, g.appId, c);
    }
  }

  /** The day is over, reported, and at most ninety days before the current one. */
  ghost predicate Timely(g: Aggregate, now: nat) {
    g.generatedAt <= now && g.periodEnd <= now && now / 86_400_000 * 86_400_000 <= g.periodStart + 90 * 86_400_000
  }

  /** No other content is stored under the very same revision of the day. */
  ghost predicate Undisputed(s: State, g: Aggregate) {
    var key := SnapshotKey(g.appId, g.measurementProfileId, g.periodStart);
    key in s.snapshots && s.snapshots[key].snapshot.revision == g.revision ==> s.snapshots[key].snapshot == Canonical(g)
  }

  lemma IngestsIff(s: State, config: Config, g: Aggregate, now: nat)
    ensures IngestAggregate(s, config, g, now).Ok? <==>
              && Owns(config, g.appId, g.producerId) && KnownProfile(s, config, g) && Timely(g, now)
              && Registrations.Register(s.registry, config).Ok? && OverlapsRefusal(s, g, g.rows).None?
              && (KeyOfAggregate(g) in s.snapshots ==> s.snapshots[KeyOfAggregate(g)].producerId == g.producerId)
              && Undisputed(s, g)
  {}

  /** An aggregate is accepted exactly when its producer, profile, day and assignments are in order and its revision is undisputed. */
  lemma AggregateAcceptedIff(s: State, config: Config, g: Aggregate, uniforms: Uniforms, clock: nat, now: nat)
    requires Inv(s, uniforms, clock) && ValidConfig(config)
    ensures IngestAggregate(s, config, g, now).Ok? <==>
              && Produces(config, g.appId, g.producerId) && ProfileKnown(s, config, g) && Timely(g, now)
              && Consistent(s.registry, config)
              && (forall r :: r in g.rows ==> Meets(s, g, r))
              && Undisputed(s, g)
  {
    IngestsIff(s, config, g, now);
    ProducesIs(config, g.appId, g.producerId);
    ProfileIs(s, config, g);
    ConfigAcceptedIff(s.registry, config);
    OverlapsIff(s, g, g.rows);
    if Owns(config, g.appId, g.producerId) && Registrations.Register(s.registry, config).Ok? && KeyOfAggregate(g) in s.snapshots {
      assert SnapshotSound(s, KeyOfAggregate(g));
      SameProducer(s, config, g);
    }
  }

  // ----- pruning -----

  /** Pruning leaves exactly the ninety days before the current one and what is at most a hundred and twenty days old. */
  lemma PruneLeaves(s: State, now: nat)
    ensures var t := Prune(s, now);
            && t.registry == s.registry && t.current == s.current
            && (forall k :: k in t.snapshots <==> k in s.snapshots && now / 86_400_000 * 86_400_000 <= k.day + 90 * 86_400_000)
            && (forall k :: k in t.models <==> k in s.models && now <= s.models[k].createdAt + 120 * 86_400_000)
            && (forall k :: k in t.decisions <==> k in s.decisions && now <= s.decisions[k].createdAt + 120 * 86_400_000)
            && (forall k :: k in t.manifests <==> k in s.manifests && now <= s.manifests[k].createdAt + 120 * 86_400_000)
            && (forall k :: k in t.assignments <==> k in s.assignments && now <= s.assignments[k].createdAt + 120 * 86_400_000)
    ensures var t := Prune(s, now);
            && (forall k :: k in t.snapshots ==> t.snapshots[k] == s.snapshots[k])
            && (forall k :: k in t.models ==> t.models[k] == s.models[k])
            && (forall k :: k in t.decisions ==> t.decisions[k] == s.decisions[k])
            && (forall k :: k in t.manifests ==> t.manifests[k] == s.manifests[k])
            && (forall k :: k in t.assignments ==> t.assignments[k] == s.assignments[k])
  {}
}
