/** Whole runs of the recommendation store: any transactions, in any order, at times that never go back. */
module LearningRuns {
  import opened Prelude
  import opened Ordering
  import opened Recommendations
  import opened LearningStore
  import opened LearningInvariant
  import LearningBuild
  import LearningModel
  import Evidence
  import Registrations
  import Sampler
  import Scoring

  function ClockAt(actions: seq<Action>, i: nat): nat
    requires i <= |actions|
  {
    if i == 0 then 0 else actions[i - 1].now
  }

  ghost predicate Execution(states: seq<State>, actions: seq<Action>, uniforms: Uniforms) {
    && |states| == |actions| + 1
    && states[0] == EmptyStore
    && (forall i :: 0 <= i < |actions| ==> StepAt(states, actions, uniforms, i))
  }

  ghost predicate StepAt(states: seq<State>, actions: seq<Action>, uniforms: Uniforms, i: nat)
    requires i < |actions| && |states| == |actions| + 1
  {
    && Admissible(actions[i])
    && ClockAt(actions, i) <= actions[i].now
    && states[i + 1] == After(states[i], actions[i], uniforms)
  }

  lemma {:induction false} AlwaysInv(states: seq<State>, actions: seq<Action>, uniforms: Uniforms, i: nat)
    requires Execution(states, actions, uniforms) && i <= |actions|
    ensures Inv(states[i], uniforms, ClockAt(actions, i))
  {
    if i == 0 {
      InitiallyInv(uniforms);
    } else {
      AlwaysInv(states, actions, uniforms, i - 1);
      assert StepAt(states, actions, uniforms, i - 1);
      StepKeepsInv(states[i - 1], actions[i - 1], uniforms, ClockAt(actions, i - 1));
    }
  }

  // ----- sampler assignments -----

  function SampleKeys(samples: set<Assignment>): set<string> {
    set a | a in samples :: CandidateKey(CandidateOf(a))
  }

  function DrawKeys(draws: seq<Sampler.Draw>): set<string> {
    set d | d in draws :: CandidateKey(d.candidate)
  }

  lemma {:induction false} SampleKeyCount(samples: set<Assignment>)
    requires forall a, b :: a in samples && b in samples && CandidateKey(CandidateOf(a)) == CandidateKey(CandidateOf(b)) ==> a == b
    ensures |SampleKeys(samples)| == |samples|
    decreases |samples|
  {
    if a :| a in samples {
      var rest := samples - {a};
      SampleKeyCount(rest);
      assert SampleKeys(samples) == SampleKeys(rest) + {CandidateKey(CandidateOf(a))};
      assert CandidateKey(CandidateOf(a)) !in SampleKeys(rest);
    }
  }

  lemma {:induction false} DrawKeyCount(draws: seq<Sampler.Draw>)
    ensures |DrawKeys(draws)| <= |draws|
  {
    if draws != [] {
      DrawKeyCount(draws[1..]);
      assert DrawKeys(draws) == DrawKeys(draws[1..]) + {CandidateKey(draws[0].candidate)};
    }
  }

  /** As many distinct candidates as draws, each of them drawn: then they are all the draws. */
  lemma PrefixIsExact(samples: set<Assignment>, draws: seq<Sampler.Draw>)
    requires SelectedPrefix(samples, draws)
    ensures SampleKeys(samples) == DrawKeys(draws)
  {
    forall key | key in SampleKeys(samples) ensures key in DrawKeys(draws) {
      var a :| a in samples && CandidateKey(CandidateOf(a)) == key;
      var d :| d in draws && MatchesDraw(a, d);
    }
    SampleKeyCount(samples);
    DrawKeyCount(draws);
    var missing := DrawKeys(draws) - SampleKeys(samples);
    assert DrawKeys(draws) == SampleKeys(samples) + missing;
    assert |missing| == 0;
  }

  /**
   At every moment of every run the sampler assignments of a stored decision are, as a set, exactly its
   first draws, with the probabilities of the draws and one common arm, however they were split into
   manifests and however often they were sent again.
   */
  lemma AssignmentsAreTheFirstDraws(states: seq<State>, actions: seq<Action>, uniforms: Uniforms, i: nat, d: DecisionId, count: nat)
    requires Execution(states, actions, uniforms) && i <= |actions| && d in states[i].decisions
    requires |StoredSamples(states[i], states[i].decisions[d].result.appId, d)| <= count
    ensures var result := states[i].decisions[d].result;
            var samples := StoredSamples(states[i], result.appId, d);
            var draws := DrawsOf(result, uniforms, count);
            && |samples| <= |draws|
            && SampleKeys(samples) == DrawKeys(draws[..|samples|])
            && (forall a :: a in samples ==> exists j :: 0 <= j < |samples| && MatchesDraw(a, draws[j]))
            && (forall a, b :: a in samples && b in samples ==> a.experiment == b.experiment)
            && ((exists a :: a in samples && a.experiment == Holdout) ==> Uniform(result))
  {
    AlwaysInv(states, actions, uniforms, i);
    assert SamplesSound(states[i], uniforms, d);
    FollowingIsPrefix(states[i].decisions[d].result, StoredSamples(states[i], states[i].decisions[d].result.appId, d), uniforms, count);
  }

  lemma FollowingIsPrefix(result: Recommendation, samples: set<Assignment>, uniforms: Uniforms, count: nat)
    requires FollowsSampler(result, samples, uniforms) && |samples| <= count
    ensures var draws := DrawsOf(result, uniforms, count);
            && |samples| <= |draws|
            && SampleKeys(samples) == DrawKeys(draws[..|samples|])
            && (forall a :: a in samples ==> exists j :: 0 <= j < |samples| && MatchesDraw(a, draws[j]))
  {
    var draws, first := DrawsOf(result, uniforms, count), DrawsOf(result, uniforms, |samples|);
    Sampler.PrefixStable(result.entries, uniforms(result.seed, result.decisionId), |samples|, count);
    assert first == draws[..|samples|];
    PrefixIsExact(samples, first);
    forall a | a in samples ensures exists j :: 0 <= j < |samples| && MatchesDraw(a, draws[j]) {
      var x :| x in first && MatchesDraw(a, x);
      var j :| 0 <= j < |first| && first[j] == x;
      assert draws[j] == x;
    }
  }

  /**
   At every moment of every run each stored assignment of a stored decision belongs to it: same app and
   producer, started while the decision was valid, in its context, for one of its very candidates.
   */
  lemma AssignmentsBelong(states: seq<State>, actions: seq<Action>, uniforms: Uniforms, i: nat, k: AssignmentKey)
    requires Execution(states, actions, uniforms) && i <= |actions| && k in states[i].assignments
    requires states[i].assignments[k].assignment.decisionId in states[i].decisions
    ensures Belongs(states[i].assignments[k], k.appId, states[i].decisions[states[i].assignments[k].assignment.decisionId])
  {
    AlwaysInv(states, actions, uniforms, i);
    assert AssignmentSound(states[i], ClockAt(actions, i), k);
  }

  // ----- building never lacks evidence -----

  lemma SourceHasEvidence(s: State, uniforms: Uniforms, clock: nat, config: Config, now: nat, c: LearningBuild.Cell)
    requires Inv(s, uniforms, clock) && c in LearningBuild.Sources(s, now)
    ensures LearningBuild.Contributes(s, config, c) != LearningBuild.Missing
  {
    assert SnapshotSound(s, c.key);
    assert LearningBuild.Rows(s, c.key)[c.index] in s.snapshots[c.key].snapshot.rows;
    assert Evidenced(s, c.key, LearningBuild.Rows(s, c.key)[c.index]);
  }

  /** "Aggregate assignment evidence is missing" cannot happen: a build fails only for size or overflow. */
  lemma EvidenceNeverMissing(states: seq<State>, actions: seq<Action>, uniforms: Uniforms, i: nat, config: Config, now: nat)
    requires Execution(states, actions, uniforms) && i <= |actions|
    ensures var s := states[i];
            var cells := LearningBuild.Sources(s, now);
            LearningBuild.Unbuildable(s, config, now) <==>
              || |cells| > LearningBuild.MaxSources
              || |LearningBuild.Keys(s, config, cells)| > LearningBuild.MaxRows
              || (exists key, m :: LearningBuild.Total(s, config, cells, key, m) > MaxSafe)
  {
    AlwaysInv(states, actions, uniforms, i);
    forall c | c in LearningBuild.Sources(states[i], now) ensures LearningBuild.Contributes(states[i], config, c) != LearningBuild.Missing {
      SourceHasEvidence(states[i], uniforms, ClockAt(actions, i), config, now, c);
    }
  }

  lemma SoundlySnapped(s: State, uniforms: Uniforms, clock: nat)
    requires Inv(s, uniforms, clock)
    ensures LearningModel.SoundSnapshots(s)
  {
    forall k | k in s.snapshots
      ensures k.day % Day == 0 && forall r :: r in s.snapshots[k].snapshot.rows ==> r.dispatches <= r.clicks <= r.exposures
    {
      assert SnapshotSound(s, k);
      forall r | r in s.snapshots[k].snapshot.rows ensures r.dispatches <= r.clicks <= r.exposures {
        assert Evidenced(s, k, r);
      }
    }
  }

  // ----- stored models are usable -----

  ghost predicate ModelSound(s: State, id: ModelId)
    requires id in s.models
  {
    ValidModel(s.models[id].model) && Evidence.ModelRegistered(s.models[id].config, s.models[id].model)
  }

  ghost predicate Models(s: State) {
    forall id :: id in s.models ==> ModelSound(s, id)
  }

  lemma ManifestLeavesModels(s: State, config: Config, m: Manifest, uniforms: Uniforms, now: nat)
    ensures Outcome(s, IngestManifest(s, config, m, uniforms, now)).models == s.models
  {}

  lemma AggregateLeavesModels(s: State, config: Config, g: Aggregate, now: nat)
    ensures Outcome(s, IngestAggregate(s, config, g, now)).models == s.models
  {}

  lemma RecordLeavesModels(s: State, config: Config, request: Request, expected: Option<ModelId>, now: nat)
    requires ValidConfig(config) && ValidRequest(request)
    ensures Outcome(s, RecordDecision(s, config, request, expected, now)).models == s.models
  {}

  lemma BuildKeepsModels(s: State, config: Config, model: Model, uniforms: Uniforms, clock: nat, now: nat)
    requires Inv(s, uniforms, clock) && ValidConfig(config) && Models(s) && CanBuild(s, config, model, now)
    ensures Models(LearningBuild.WithModel(s, Registrations.Register(s.registry, config).value, config, model, now))
  {
    var t := LearningBuild.WithModel(s, Registrations.Register(s.registry, config).value, config, model, now);
    SoundlySnapped(s, uniforms, clock);
    LearningModel.BuiltModelIsUsable(s, config, now, model);
    forall id | id in t.models ensures ModelSound(t, id) {
      assert id in s.models ==> ModelSound(s, id);
    }
  }

  lemma SameModels(s: State, t: State)
    requires Models(s) && forall id :: id in t.models ==> id in s.models && t.models[id] == s.models[id]
    ensures Models(t)
  {
    forall id | id in t.models ensures ModelSound(t, id) {
      assert ModelSound(s, id);
    }
  }

  lemma StepKeepsModels(s: State, a: Action, uniforms: Uniforms, clock: nat)
    requires Inv(s, uniforms, clock) && Admissible(a) && Models(s)
    ensures Models(After(s, a, uniforms))
  {
    match a
    case DeliverManifest(config, m, now) =>
      ManifestLeavesModels(s, config, m, uniforms, now);
      SameModels(s, After(s, a, uniforms));
    case DeliverAggregate(config, g, now) =>
      AggregateLeavesModels(s, config, g, now);
      SameModels(s, After(s, a, uniforms));
    case BuildModel(config, model, now) =>
      if CanBuild(s, config, model, now) {
        BuildKeepsModels(s, config, model, uniforms, clock, now);
      }
    case Record(config, request, expected, now) =>
      RecordLeavesModels(s, config, request, expected, now);
      SameModels(s, After(s, a, uniforms));
    case PruneOld(now) =>
      SameModels(s, Prune(s, now));
  }

  lemma {:induction false} ModelsAlwaysSound(states: seq<State>, actions: seq<Action>, uniforms: Uniforms, i: nat)
    requires Execution(states, actions, uniforms) && i <= |actions|
    ensures Models(states[i])
  {
    if i > 0 {
      ModelsAlwaysSound(states, actions, uniforms, i - 1);
      assert StepAt(states, actions, uniforms, i - 1);
      AlwaysInv(states, actions, uniforms, i - 1);
      StepKeepsModels(states[i - 1], actions[i - 1], uniforms, ClockAt(actions, i - 1));
    }
  }

  /** Build and score agree: planning never finds the current model malformed or its evidence unregistered. */
  lemma PlansNeverDistrustTheModel(states: seq<State>, actions: seq<Action>, uniforms: Uniforms, i: nat,
                                   config: Config, request: Request, now: nat)
    requires Execution(states, actions, uniforms) && i <= |actions| && ValidConfig(config) && ValidRequest(request)
    ensures Plan(states[i], config, request, now) != Err(InvalidModel)
    ensures Plan(states[i], config, request, now) != Err(Unscored(Evidence.UnknownEvidence))
  {
    var s := states[i];
    ModelsAlwaysSound(states, actions, uniforms, i);
    assert s.current.Some? && s.current.value in s.models ==> ModelSound(s, s.current.value);
  }

  // ----- aggregates -----

  /** The canonical form of what a transaction delivers for a day, if the store accepts it. */
  ghost function AcceptedBy(s: State, a: Action, key: SnapshotKey): set<Aggregate> {
    if a.DeliverAggregate? && KeyOfAggregate(a.aggregate) == key && IngestAggregate(s, a.config, a.aggregate, a.now).Ok?
    then {Canonical(a.aggregate)}
    else {}
  }

  /** Everything accepted for a day before a moment, also what was stale or a duplicate. */
  ghost function Accepted(states: seq<State>, actions: seq<Action>, i: nat, key: SnapshotKey): set<Aggregate>
    requires |states| == |actions| + 1 && i <= |actions|
  {
    if i == 0 then {} else Accepted(states, actions, i - 1, key) + AcceptedBy(states[i - 1], actions[i - 1], key)
  }

  /** A day's snapshot is the highest revision accepted for it; a day without one was never accepted or is pruned. */
  ghost predicate HighestWins(snapshots: map<SnapshotKey, StoredSnapshot>, clock: nat, accepted: set<Aggregate>, key: SnapshotKey) {
    if key in snapshots
    then snapshots[key].snapshot in accepted && forall g :: g in accepted ==> Beaten(g, snapshots[key].snapshot)
    else accepted == {} || key.day < KeepDay(clock)
  }

  ghost predicate Beaten(g: Aggregate, h: Aggregate) {
    g.revision < h.revision || g == h
  }

  lemma KeepDayGrows(a: nat, b: nat)
    requires a <= b
    ensures KeepDay(a) <= KeepDay(b)
  {}

  lemma DeliveryMeans(s: State, config: Config, g: Aggregate, now: nat, t: State, status: Status)
    requires IngestAggregate(s, config, g, now) == Ok((t, status))
    ensures g.periodStart >= KeepDay(now)
    ensures var key := KeyOfAggregate(g);
            match status
            case Applied =>
              && t.snapshots == s.snapshots[key := StoredSnapshot(g.producerId, Canonical(g), now)]
              && (key in s.snapshots ==> s.snapshots[key].snapshot.revision < g.revision)
            case Stale => t.snapshots == s.snapshots && key in s.snapshots && g.revision < s.snapshots[key].snapshot.revision
            case Duplicate => t.snapshots == s.snapshots && key in s.snapshots && Canonical(g) == s.snapshots[key].snapshot
  {}

  lemma DeliveryKeepsHighest(s: State, config: Config, g: Aggregate, clock: nat, now: nat, accepted: set<Aggregate>, t: State, status: Status)
    requires HighestWins(s.snapshots, clock, accepted, KeyOfAggregate(g)) && clock <= now
    requires IngestAggregate(s, config, g, now) == Ok((t, status))
    ensures HighestWins(t.snapshots, now, accepted + {Canonical(g)}, KeyOfAggregate(g))
  {
    KeepDayGrows(clock, now);
    DeliveryMeans(s, config, g, now, t, status);
    var key, all := KeyOfAggregate(g), accepted + {Canonical(g)};
    forall h | h in all ensures Beaten(h, t.snapshots[key].snapshot) {
      assert key in s.snapshots && h in accepted ==> Beaten(h, s.snapshots[key].snapshot);
    }
  }

  lemma HighestLater(snapshots: map<SnapshotKey, StoredSnapshot>, clock: nat, now: nat, accepted: set<Aggregate>, key: SnapshotKey)
    requires HighestWins(snapshots, clock, accepted, key) && clock <= now
    ensures HighestWins(snapshots, now, accepted, key)
  {
    KeepDayGrows(clock, now);
  }

  lemma ManifestLeavesSnapshots(s: State, config: Config, m: Manifest, uniforms: Uniforms, now: nat)
    ensures Outcome(s, IngestManifest(s, config, m, uniforms, now)).snapshots == s.snapshots
  {}

  lemma RecordLeavesSnapshots(s: State, config: Config, request: Request, expected: Option<ModelId>, now: nat)
    requires ValidConfig(config) && ValidRequest(request)
    ensures Outcome(s, RecordDecision(s, config, request, expected, now)).snapshots == s.snapshots
  {}

  /** Only deliveries and pruning touch snapshots. */
  lemma OthersLeaveSnapshots(s: State, a: Action, uniforms: Uniforms)
    requires Admissible(a) && !a.DeliverAggregate? && !a.PruneOld?
    ensures After(s, a, uniforms).snapshots == s.snapshots
  {
    match a
    case DeliverManifest(config, m, now) => ManifestLeavesSnapshots(s, config, m, uniforms, now);
    case BuildModel(_, _, _) =>
    case Record(config, request, expected, now) => RecordLeavesSnapshots(s, config, request, expected, now);
  }

  lemma PruneKeepsHighest(s: State, clock: nat, now: nat, accepted: set<Aggregate>, key: SnapshotKey)
    requires HighestWins(s.snapshots, clock, accepted, key) && clock <= now
    ensures HighestWins(Prune(s, now).snapshots, now, accepted, key)
  {
    KeepDayGrows(clock, now);
  }

  lemma DeliveryElsewhere(s: State, config: Config, g: Aggregate, now: nat, key: SnapshotKey)
    requires KeyOfAggregate(g) != key || IngestAggregate(s, config, g, now).Err?
    ensures var t := Outcome(s, IngestAggregate(s, config, g, now));
            && (key in t.snapshots <==> key in s.snapshots)
            && (key in s.snapshots ==> t.snapshots[key] == s.snapshots[key])
  {
    var r := IngestAggregate(s, config, g, now);
    if r.Ok? {
      DeliveryMeans(s, config, g, now, r.value.0, r.value.1);
    }
  }

  lemma StepKeepsHighest(s: State, a: Action, uniforms: Uniforms, clock: nat, accepted: set<Aggregate>, key: SnapshotKey)
    requires HighestWins(s.snapshots, clock, accepted, key) && Admissible(a) && clock <= a.now
    ensures HighestWins(After(s, a, uniforms).snapshots, a.now, accepted + AcceptedBy(s, a, key), key)
  {
    HighestLater(s.snapshots, clock, a.now, accepted, key);
    assert !a.DeliverAggregate? ==> accepted + AcceptedBy(s, a, key) == accepted;
    if a.DeliverAggregate? {
      var r := IngestAggregate(s, a.config, a.aggregate, a.now);
      if r.Ok? && KeyOfAggregate(a.aggregate) == key {
        DeliveryKeepsHighest(s, a.config, a.aggregate, clock, a.now, accepted, r.value.0, r.value.1);
      } else {
        DeliveryElsewhere(s, a.config, a.aggregate, a.now, key);
        assert accepted + AcceptedBy(s, a, key) == accepted;
      }
    } else if a.PruneOld? {
      PruneKeepsHighest(s, clock, a.now, accepted, key);
    } else {
      OthersLeaveSnapshots(s, a, uniforms);
    }
  }

  /**
   At every moment of every run a stored day holds the highest revision accepted for it so far, whatever the
   order, the duplicates and the stale deliveries; a day without a snapshot was never accepted or is pruned.
   */
  lemma {:induction false} HighestRevisionWins(
    states: seq<State>, actions: seq<Action>, uniforms: Uniforms, i: nat, key: SnapshotKey)
    requires Execution(states, actions, uniforms) && i <= |actions|
    ensures HighestWins(states[i].snapshots, ClockAt(actions, i), Accepted(states, actions, i, key), key)
  {
    if i > 0 {
      HighestRevisionWins(states, actions, uniforms, i - 1, key);
      assert StepAt(states, actions, uniforms, i - 1);
      StepKeepsHighest(states[i - 1], actions[i - 1], uniforms, ClockAt(actions, i - 1), Accepted(states, actions, i - 1, key), key);
    }
  }

  /** Two runs that accepted the same deliveries for a day, in any order and number, hold the same snapshot of it. */
  lemma DeliveriesConverge(
    states: seq<State>, actions: seq<Action>, i: nat, others: seq<State>, doings: seq<Action>, j: nat,
    uniforms: Uniforms, key: SnapshotKey)
    requires Execution(states, actions, uniforms) && i <= |actions|
    requires Execution(others, doings, uniforms) && j <= |doings|
    requires Accepted(states, actions, i, key) == Accepted(others, doings, j, key)
    requires key in states[i].snapshots && key in others[j].snapshots
    ensures states[i].snapshots[key].snapshot == others[j].snapshots[key].snapshot
  {
    HighestRevisionWins(states, actions, uniforms, i, key);
    HighestRevisionWins(others, doings, uniforms, j, key);
  }

  /** A delivery is refused for its revision only if another content was accepted under that very revision. */
  lemma OnlyConflictsAreRefused(states: seq<State>, actions: seq<Action>, uniforms: Uniforms, i: nat, config: Config, g: Aggregate, now: nat)
    requires Execution(states, actions, uniforms) && i <= |actions|
    requires IngestAggregate(states[i], config, g, now) == Err(ConflictingRevision)
    ensures exists h :: h in Accepted(states, actions, i, KeyOfAggregate(g)) && h.revision == g.revision && h != Canonical(g)
  {
    var key := KeyOfAggregate(g);
    HighestRevisionWins(states, actions, uniforms, i, key);
    OverlapErrors(states[i], g, g.rows);
    var h := states[i].snapshots[key].snapshot;
    assert h in Accepted(states, actions, i, key);
  }

  lemma NotStoredAgain(s: State, a: Action, uniforms: Uniforms, clock: nat, key: SnapshotKey)
    requires Admissible(a) && clock <= a.now && key !in s.snapshots && key.day < KeepDay(clock)
    ensures key !in After(s, a, uniforms).snapshots && key.day < KeepDay(a.now)
  {
    KeepDayGrows(clock, a.now);
    if a.DeliverAggregate? {
      var r := IngestAggregate(s, a.config, a.aggregate, a.now);
      if r.Ok? {
        DeliveryMeans(s, a.config, a.aggregate, a.now, r.value.0, r.value.1);
      }
    } else if !a.PruneOld? {
      OthersLeaveSnapshots(s, a, uniforms);
    }
  }

  /** A day before the kept ones that is not stored, because it was pruned or never came, is never stored again. */
  lemma {:induction false} PrunedForever(states: seq<State>, actions: seq<Action>, uniforms: Uniforms, i: nat, j: nat, key: SnapshotKey)
    requires Execution(states, actions, uniforms) && i <= j <= |actions|
    requires key !in states[i].snapshots && key.day < KeepDay(ClockAt(actions, i))
    ensures key !in states[j].snapshots && key.day < KeepDay(ClockAt(actions, j))
  {
    if i < j {
      PrunedForever(states, actions, uniforms, i, j - 1, key);
      assert StepAt(states, actions, uniforms, j - 1);
      NotStoredAgain(states[j - 1], actions[j - 1], uniforms, ClockAt(actions, j - 1), key);
    }
  }

  /** Pruning removes exactly the days before the kept ones, so they are gone for good. */
  lemma PruneIsFinal(states: seq<State>, actions: seq<Action>, uniforms: Uniforms, i: nat, j: nat, key: SnapshotKey)
    requires Execution(states, actions, uniforms) && i < j <= |actions|
    requires actions[i].PruneOld? && key.day < KeepDay(actions[i].now)
    ensures key !in states[j].snapshots
  {
    assert StepAt(states, actions, uniforms, i);
    PrunedForever(states, actions, uniforms, i + 1, j, key);
  }
}
