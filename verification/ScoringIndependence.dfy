/** What scoring does not depend on: orders, holdout evidence and, without sharing, everybody else's evidence. */
module ScoringIndependence {
  import opened Prelude
  import opened Ordering
  import opened Recommendations
  import opened Evidence
  import opened Scoring

  ghost predicate SameStats(xs: seq<Row>, ys: seq<Row>, classify: Row -> Option<Key>) {
    forall key :: Collect(xs, classify, key) == Collect(ys, classify, key)
  }

  lemma {:induction false} SameAssessments(scope: Scope, xs: seq<Row>, ys: seq<Row>, cs: seq<Candidate>)
    requires ValidPolicy(scope.setting.policy)
    requires SameStats(xs, ys, scope.Local) && SameStats(xs, ys, scope.Shared)
    ensures AssessAll(scope, xs, cs) == AssessAll(scope, ys, cs)
  {
    if cs != [] {
      SameAssessments(scope, xs, ys, cs[1..]);
      assert StatsOf(xs, scope.Local, LocalKeyOf(scope, cs[0])) == StatsOf(ys, scope.Local, LocalKeyOf(scope, cs[0]));
      assert StatsOf(xs, scope.Shared, SharedKeyOf(scope, cs[0])) == StatsOf(ys, scope.Shared, SharedKeyOf(scope, cs[0]));
    }
  }

  lemma Reordered(xs: seq<Row>, ys: seq<Row>, classify: Row -> Option<Key>)
    requires multiset(xs) == multiset(ys)
    ensures SameStats(xs, ys, classify) && (Fits(xs, classify) <==> Fits(ys, classify))
  {
    forall key ensures Collect(xs, classify, key) == Collect(ys, classify, key) {
      CollectOrder(xs, ys, classify, key);
    }
  }

  lemma SameMembers<T>(xs: seq<T>, ys: seq<T>)
    requires multiset(xs) == multiset(ys)
    ensures forall x :: x in xs <==> x in ys
  {
    forall x ensures x in xs <==> x in ys {
      assert x in multiset(xs) <==> x in multiset(ys);
    }
  }

  lemma SameResolution(config: Config, q1: Request, q2: Request, now: int)
    requires multiset(q1.candidates) == multiset(q2.candidates) && q2 == q1.(candidates := q2.candidates)
    ensures ResolveRequest(config, q1, now) == ResolveRequest(config, q2, now)
  {
    SameMembers(q1.candidates, q2.candidates);
  }

  lemma SameRefusal(config: Config, q1: Request, q2: Request, m1: Model, m2: Model, now: int)
    requires multiset(q1.candidates) == multiset(q2.candidates) && q2 == q1.(candidates := q2.candidates)
    requires multiset(m1.rows) == multiset(m2.rows) && m2 == m1.(rows := m2.rows)
    ensures Refusal(config, q1, m1, now) == Refusal(config, q2, m2, now)
  {
    SameResolution(config, q1, q2, now);
    SameMembers(m1.rows, m2.rows);
    if ResolveRequest(config, q1, now).Ok? {
      var scope := ScopeOf(config, ResolveRequest(config, q1, now).value, q1, m1);
      Reordered(m1.rows, m2.rows, scope.Local);
      Reordered(m1.rows, m2.rows, scope.Shared);
    }
  }

  /**
   The order of the request's candidates and of the model's rows has no influence at all: not on the
   entries, the digests or the decision's identity, and not on whether and how scoring fails.
   */
  lemma OrderIrrelevant(config: Config, q1: Request, q2: Request, m1: Model, m2: Model, now: int)
    requires Valid(config, q1, m1) && Valid(config, q2, m2)
    requires multiset(q1.candidates) == multiset(q2.candidates) && q2 == q1.(candidates := q2.candidates)
    requires multiset(m1.rows) == multiset(m2.rows) && m2 == m1.(rows := m2.rows)
    ensures Score(config, q1, m1, now) == Score(config, q2, m2, now)
  {
    SameRefusal(config, q1, q2, m1, m2, now);
    SameResolution(config, q1, q2, now);
    SortCanonical(q1.candidates, q2.candidates, KeyOf);
    SameMembers(m1.rows, m2.rows);
    assert RowSet(m1.rows) == RowSet(m2.rows);
    if Refusal(config, q1, m1, now).None? {
      SettingIsValid(config, q1, now);
      var scope := ScopeOf(config, ResolveRequest(config, q1, now).value, q1, m1);
      Reordered(m1.rows, m2.rows, scope.Local);
      Reordered(m1.rows, m2.rows, scope.Shared);
      SameAssessments(scope, m1.rows, m2.rows, Sort(q1.candidates, KeyOf));
    }
  }

  // ----- evidence that does not matter -----

  /** Both models are usable now and were generated at the same time. */
  ghost predicate Comparable(config: Config, m1: Model, m2: Model) {
    m1.generatedAt == m2.generatedAt && ModelRegistered(config, m1) && ModelRegistered(config, m2)
  }

  /** Same entries, or the same failure. */
  ghost predicate SameOutcome(a: Result<Recommendation, Error>, b: Result<Recommendation, Error>) {
    if a.Ok? then b.Ok? && a.value.entries == b.value.entries else a == b
  }

  /** Nothing but rows for which `counts` holds is collected under any key. */
  ghost predicate CountsOnly(scope: Scope, counts: Row -> bool) {
    forall r :: scope.Local(r).Some? || scope.Shared(r).Some? ==> counts(r)
  }

  lemma SameCounted(scope: Scope, xs: seq<Row>, ys: seq<Row>, counts: Row -> bool)
    requires multiset(Relevant(xs, counts)) == multiset(Relevant(ys, counts)) && CountsOnly(scope, counts)
    ensures SameStats(xs, ys, scope.Local) && (Fits(xs, scope.Local) <==> Fits(ys, scope.Local))
    ensures SameStats(xs, ys, scope.Shared) && (Fits(xs, scope.Shared) <==> Fits(ys, scope.Shared))
  {
    SameRelevant(xs, ys, scope.Local, counts);
    SameRelevant(xs, ys, scope.Shared, counts);
  }

  lemma OnlyCountedMatters(config: Config, request: Request, m1: Model, m2: Model, now: int, counts: Row -> bool)
    requires Valid(config, request, m1) && Valid(config, request, m2) && Comparable(config, m1, m2)
    requires multiset(Relevant(m1.rows, counts)) == multiset(Relevant(m2.rows, counts))
    requires var setting := ResolveRequest(config, request, now);
             setting.Ok? ==> CountsOnly(ScopeOf(config, setting.value, request, m1), counts)
    ensures SameOutcome(Score(config, request, m1, now), Score(config, request, m2, now))
  {
    var setting := ResolveRequest(config, request, now);
    if setting.Ok? {
      var scope := ScopeOf(config, setting.value, request, m1);
      assert scope == ScopeOf(config, setting.value, request, m2);
      SameCounted(scope, m1.rows, m2.rows, counts);
      assert Refusal(config, request, m1, now) == Refusal(config, request, m2, now);
      SettingIsValid(config, request, now);
      SameAssessments(scope, m1.rows, m2.rows, Sort(request.candidates, KeyOf));
    }
  }

  const IsTraining: Row -> bool := (r: Row) => r.experiment == Training

  /** Holdout evidence never matters: models with the same training rows give the same outcome. */
  lemma HoldoutIrrelevant(config: Config, request: Request, m1: Model, m2: Model, now: int)
    requires Valid(config, request, m1) && Valid(config, request, m2) && Comparable(config, m1, m2)
    requires multiset(Relevant(m1.rows, IsTraining)) == multiset(Relevant(m2.rows, IsTraining))
    ensures SameOutcome(Score(config, request, m1, now), Score(config, request, m2, now))
  {
    OnlyCountedMatters(config, request, m1, m2, now, IsTraining);
  }

  function OwnTraining(request: Request): Row -> bool {
    (r: Row) => r.experiment == Training && r.appId == request.appId && r.contextId == request.contextId
                && r.measurementProfileId == request.measurementProfileId
  }

  /** With sharing off, only the app's own training rows of the requested context matter. */
  lemma OthersIrrelevantWithoutSharing(config: Config, request: Request, m1: Model, m2: Model, now: int)
    requires Valid(config, request, m1) && Valid(config, request, m2) && Comparable(config, m1, m2)
    requires var policy := FindPolicy(config.policies, request.policyId); policy.Some? ==> !policy.value.sharing
    requires multiset(Relevant(m1.rows, OwnTraining(request))) == multiset(Relevant(m2.rows, OwnTraining(request)))
    ensures SameOutcome(Score(config, request, m1, now), Score(config, request, m2, now))
  {
    OnlyCountedMatters(config, request, m1, m2, now, OwnTraining(request));
  }
}
