/** What a score, a weight and a rank are, spelled out over the policy and the model's rows. */
module ScoringMeaning {
  import opened Prelude
  import opened Ordering
  import opened Recommendations
  import opened Evidence
  import opened Scoring
  import opened ScoringResult

  // ----- evidence, row by row -----

  /** A training row of the fourteen sealed days whose subject is still registered with the same rule and mapping. */
  ghost predicate Live(config: Config, generatedAt: int, r: Row) {
    var last := (generatedAt - 2 * 86_400_000) / 86_400_000 * 86_400_000 - 86_400_000;
    && r.experiment == Training
    && last - 13 * 86_400_000 <= r.day <= last
    && exists x :: Registers(config, r.appId, x) && x.subjectId == r.subjectId && x.enabled
                   && x.ruleRevision == r.ruleRevision && x.mappingVersion == r.mappingVersion
  }

  /** The candidate's own evidence: the requesting app's, in the requested context, for its subject or its product. */
  ghost predicate Own(config: Config, q: Request, generatedAt: int, c: Candidate, r: Row) {
    && Live(config, generatedAt, r)
    && r.appId == q.appId && r.contextId == q.contextId && r.measurementProfileId == q.measurementProfileId
    && (if q.kind == SubjectKind then r.subjectId == c.subjectId else r.entityRef.Some? && r.entityRef == c.entityRef)
  }

  /** Two contexts learn together: same group, same cohort, and there is a group. */
  ghost predicate LearnTogether(config: Config, appId: Id, contextId: Id, otherApp: Id, otherContext: Id) {
    exists x, y ::
      && RegistersContext(config, appId, x) && x.contextId == contextId
      && RegistersContext(config, otherApp, y) && y.contextId == otherContext
      && x.learningGroupId.Some? && x.learningGroupId == y.learningGroupId && x.cohortId == y.cohortId
  }

  /** Two registered subjects mean the same: same canonical subject under the same mapping version. */
  ghost predicate SameMeaning(config: Config, appId: Id, subjectId: Id, otherApp: Id, otherSubject: Id) {
    exists x, y ::
      && Registers(config, appId, x) && x.subjectId == subjectId
      && Registers(config, otherApp, y) && y.subjectId == otherSubject
      && x.canonicalSubjectId.Some? && x.canonicalSubjectId == y.canonicalSubjectId && x.mappingVersion == y.mappingVersion
  }

  /** Evidence shared by other apps, if the policy shares: same profile, contexts that learn together, same meaning or product. */
  ghost predicate Others(config: Config, q: Request, p: Policy, generatedAt: int, c: Candidate, r: Row) {
    && p.sharing
    && Live(config, generatedAt, r)
    && r.appId != q.appId && r.measurementProfileId == q.measurementProfileId
    && LearnTogether(config, q.appId, q.contextId, r.appId, r.contextId)
    && (if q.kind == SubjectKind then SameMeaning(config, q.appId, c.subjectId, r.appId, r.subjectId)
        else r.entityRef.Some? && r.entityRef == c.entityRef)
  }

  const ExposuresOf: Row -> nat := (r: Row) => r.exposures as nat
  const ClicksOf: Row -> nat := (r: Row) => r.clicks as nat

  /** What a set of rows adds up to. */
  datatype Evidenced = Evidenced(exposures: nat, clicks: nat, apps: set<Id>, days: set<nat>)

  ghost function Sums(rows: set<Row>): Evidenced {
    Evidenced(
      SumOver(rows, ExposuresOf),
      SumOver(rows, ClicksOf),
      set r | r in rows && r.exposures > 0 :: r.appId,
      set r | r in rows && r.exposures > 0 :: r.day)
  }

  ghost function OfApp(rows: set<Row>, a: Id): set<Row> {
    set r | r in rows && r.appId == a
  }

  ghost function OwnRows(config: Config, q: Request, m: Model, c: Candidate): set<Row> {
    set r | r in m.rows && Own(config, q, m.generatedAt, c, r)
  }

  ghost function OtherRows(config: Config, q: Request, p: Policy, m: Model, c: Candidate): set<Row> {
    set r | r in m.rows && Others(config, q, p, m.generatedAt, c, r)
  }

  // ----- the gates and the score -----

  /** Shared evidence is used when it is large enough, spread over enough days, and not dominated by one of several apps. */
  ghost predicate GatesOpen(p: Policy, rows: set<Row>) {
    var e := Sums(rows);
    && e.apps != {}
    && e.exposures >= p.minSharedExposures
    && |e.days| >= p.minSharedDays
    && (|e.apps| == 1
        || forall a :: a in e.apps ==> SumOver(OfApp(rows, a), ExposuresOf) as real <= Scaled(p.maxAppShare, e.exposures as real))
  }

  /** The prior of a candidate: what other apps saw when the gates are open, the policy's own otherwise. */
  ghost predicate IsPrior(p: Policy, others: set<Row>, mu: real, k: real) {
    var e := Sums(others);
    if GatesOpen(p, others)
    then
      && Scaled(mu, p.alpha + p.beta + e.exposures as real) == p.alpha + e.clicks as real
      && k == if |e.apps| == 1 then p.singleAppStrength else p.sharedStrength
    else Scaled(mu, p.alpha + p.beta) == p.alpha && k == p.alpha + p.beta
  }

  /** The posterior mean: prior of strength k at mu, updated by some exposures and clicks. */
  ghost predicate Posterior(score: real, mu: real, k: real, exposures: nat, clicks: nat) {
    Scaled(score, k + exposures as real) == Scaled(mu, k) + clicks as real
  }

  /** The score of a candidate: its prior, updated by its own exposures and clicks. */
  ghost predicate IsScore(config: Config, q: Request, p: Policy, m: Model, c: Candidate, score: real) {
    var own := Sums(OwnRows(config, q, m, c));
    exists mu, k :: IsPrior(p, OtherRows(config, q, p, m, c), mu, k) && Posterior(score, mu, k, own.exposures, own.clicks)
  }

  // ----- statistics are these sums -----

  ghost predicate DistinctRows(rows: seq<Row>) {
    forall i, j :: 0 <= i < j < |rows| ==> rows[i] != rows[j]
  }

  ghost function Under(rows: seq<Row>, classify: Row -> Option<Key>, key: Key): set<Row> {
    set r | r in rows && classify(r) == Some(key)
  }

  /** The statistics of a key, as sums over the set of its rows. */
  ghost predicate SumsTo(s: Stats, rows: set<Row>) {
    && s.n == SumOver(rows, ExposuresOf)
    && s.c == SumOver(rows, ClicksOf)
    && s.apps.Keys == Sums(rows).apps
    && (forall a :: a in s.apps ==> s.apps[a] == SumOver(OfApp(rows, a), ExposuresOf))
    && s.days == Sums(rows).days
  }

  lemma {:induction false} NoExposures(rows: set<Row>)
    requires forall r :: r in rows ==> r.exposures == 0
    ensures SumOver(rows, ExposuresOf) == 0
    decreases |rows|
  {
    if r :| r in rows {
      SumRemove(rows, r, ExposuresOf);
      NoExposures(rows - {r});
    }
  }

  lemma AddApps(s: Stats, rows: set<Row>, r: Row, a: Id)
    requires SumsTo(s, rows) && r !in rows && a in AddRow(s, r).apps
    ensures AddRow(s, r).apps[a] == SumOver(OfApp(rows + {r}, a), ExposuresOf)
  {
    if a == r.appId {
      assert OfApp(rows + {r}, a) == OfApp(rows, a) + {r};
      SumAdd(OfApp(rows, a), r, ExposuresOf);
      if a !in s.apps {
        forall x | x in OfApp(rows, a) ensures x.exposures == 0 {
          assert x.exposures > 0 ==> x.appId in Sums(rows).apps;
        }
        NoExposures(OfApp(rows, a));
      }
    } else {
      assert OfApp(rows + {r}, a) == OfApp(rows, a);
    }
  }

  lemma AddNames(rows: set<Row>, r: Row)
    ensures Sums(rows + {r}).apps == Sums(rows).apps + if r.exposures > 0 then {r.appId} else {}
    ensures Sums(rows + {r}).days == Sums(rows).days + if r.exposures > 0 then {r.day} else {}
  {}

  lemma AddTables(s: Stats, rows: set<Row>, r: Row)
    requires SumsTo(s, rows) && r !in rows
    ensures AddRow(s, r).apps.Keys == Sums(rows + {r}).apps && AddRow(s, r).days == Sums(rows + {r}).days
  {
    AddNames(rows, r);
  }

  lemma AddSums(s: Stats, rows: set<Row>, r: Row)
    requires SumsTo(s, rows) && r !in rows
    ensures SumsTo(AddRow(s, r), rows + {r})
  {
    SumAdd(rows, r, ExposuresOf);
    SumAdd(rows, r, ClicksOf);
    AddTables(s, rows, r);
    forall a | a in AddRow(s, r).apps ensures AddRow(s, r).apps[a] == SumOver(OfApp(rows + {r}, a), ExposuresOf) {
      AddApps(s, rows, r, a);
    }
  }

  lemma {:induction false} CollectMeans(rows: seq<Row>, classify: Row -> Option<Key>, key: Key)
    requires DistinctRows(rows)
    ensures SumsTo(Collect(rows, classify, key), Under(rows, classify, key))
  {
    if rows != [] {
      var front, last := rows[..|rows| - 1], rows[|rows| - 1];
      assert rows == front + [last];
      CollectMeans(front, classify, key);
      if classify(last) == Some(key) {
        AddSums(Collect(front, classify, key), Under(front, classify, key), last);
        assert Under(rows, classify, key) == Under(front, classify, key) + {last};
      } else {
        assert Under(rows, classify, key) == Under(front, classify, key);
      }
    }
  }

  // ----- the classification in these terms -----

  lemma LiveIs(config: Config, generatedAt: int, r: Row)
    requires ValidConfig(config)
    ensures Live(config, generatedAt, r) <==> Counted(config, generatedAt, r)
  {
    forall x ensures SubjectOf(config, r.appId, r.subjectId) == Some(x) <==> Registers(config, r.appId, x) && x.subjectId == r.subjectId {
      SubjectOfIs(config, r.appId, r.subjectId, x);
    }
  }

  /** The registrations that a scored request resolves to. */
  lemma SettingIs(config: Config, q: Request, now: int)
    requires ValidConfig(config) && ResolveRequest(config, q, now).Ok?
    ensures var s := ResolveRequest(config, q, now).value;
            && s.app.appId == q.appId && s.policy.policyId == q.policyId && s.context.contextId == q.contextId
            && s.context.measurementProfileId == q.measurementProfileId
            && FindApp(config.apps, q.appId) == Some(s.app) && ContextOf(config, q.appId, q.contextId) == Some(s.context)
  {}

  lemma OwnIs(config: Config, q: Request, m: Model, setting: Setting, now: int, c: Candidate, r: Row)
    requires ValidConfig(config) && ResolveRequest(config, q, now) == Ok(setting)
    ensures var scope := ScopeOf(config, setting, q, m);
            LocalKeyOf(scope, c).Some? && scope.Local(r) == LocalKeyOf(scope, c) <==> Own(config, q, m.generatedAt, c, r)
  {
    LiveIs(config, m.generatedAt, r);
    SettingIs(config, q, now);
  }

  /** What `y` registers learns together with what `x` registers. */
  predicate Together(x: Option<Context>, y: Option<Context>) {
    && x.Some? && y.Some? && x.value.learningGroupId.Some?
    && x.value.learningGroupId == y.value.learningGroupId && x.value.cohortId == y.value.cohortId
  }

  lemma TogetherIs(config: Config, appId: Id, contextId: Id, otherApp: Id, otherContext: Id)
    requires ValidConfig(config)
    ensures LearnTogether(config, appId, contextId, otherApp, otherContext) <==>
              Together(ContextOf(config, appId, contextId), ContextOf(config, otherApp, otherContext))
  {
    forall u ensures ContextOf(config, appId, contextId) == Some(u) <==> RegistersContext(config, appId, u) && u.contextId == contextId {
      ContextOfIs(config, appId, contextId, u);
    }
    forall v ensures ContextOf(config, otherApp, otherContext) == Some(v) <==> RegistersContext(config, otherApp, v) && v.contextId == otherContext {
      ContextOfIs(config, otherApp, otherContext, v);
    }
  }

  predicate Same(x: Option<Subject>, y: Option<Subject>) {
    && x.Some? && y.Some? && x.value.canonicalSubjectId.Some?
    && x.value.canonicalSubjectId == y.value.canonicalSubjectId && x.value.mappingVersion == y.value.mappingVersion
  }

  lemma MeaningIs(config: Config, appId: Id, subjectId: Id, otherApp: Id, otherSubject: Id)
    requires ValidConfig(config)
    ensures SameMeaning(config, appId, subjectId, otherApp, otherSubject) <==>
              Same(SubjectOf(config, appId, subjectId), SubjectOf(config, otherApp, otherSubject))
  {
    forall u ensures SubjectOf(config, appId, subjectId) == Some(u) <==> Registers(config, appId, u) && u.subjectId == subjectId {
      SubjectOfIs(config, appId, subjectId, u);
    }
    forall v ensures SubjectOf(config, otherApp, otherSubject) == Some(v) <==> Registers(config, otherApp, v) && v.subjectId == otherSubject {
      SubjectOfIs(config, otherApp, otherSubject, v);
    }
  }

  lemma SharedIs(scope: Scope, c: Candidate, r: Row)
    requires FindApp(scope.config.apps, scope.setting.app.appId) == Some(scope.setting.app)
    requires ContextOf(scope.config, scope.setting.app.appId, scope.setting.context.contextId) == Some(scope.setting.context)
    ensures SharedKeyOf(scope, c).Some? && scope.Shared(r) == SharedKeyOf(scope, c) <==>
              && scope.setting.policy.sharing
              && Counted(scope.config, scope.generatedAt, r)
              && r.appId != scope.setting.app.appId
              && r.measurementProfileId == scope.setting.context.measurementProfileId
              && Together(ContextOf(scope.config, scope.setting.app.appId, scope.setting.context.contextId),
                          ContextOf(scope.config, r.appId, r.contextId))
              && SharedKeyOf(scope, c).Some?
              && (if scope.kind == SubjectKind
                  then Same(SubjectOf(scope.config, scope.setting.app.appId, c.subjectId), SubjectOf(scope.config, r.appId, r.subjectId))
                  else r.entityRef.Some? && r.entityRef == c.entityRef)
  {
    assert SubjectOf(scope.config, scope.setting.app.appId, c.subjectId) == FindSubject(scope.setting.app.subjects, c.subjectId);
  }

  lemma OthersIs(config: Config, q: Request, m: Model, setting: Setting, now: int, c: Candidate, r: Row)
    requires ValidConfig(config) && ResolveRequest(config, q, now) == Ok(setting) && Registered(setting.app, c)
    ensures var scope := ScopeOf(config, setting, q, m);
            SharedKeyOf(scope, c).Some? && scope.Shared(r) == SharedKeyOf(scope, c) <==>
              Others(config, q, setting.policy, m.generatedAt, c, r)
  {
    LiveIs(config, m.generatedAt, r);
    SettingIs(config, q, now);
    TogetherIs(config, q.appId, q.contextId, r.appId, r.contextId);
    MeaningIs(config, q.appId, c.subjectId, r.appId, r.subjectId);
    SharedIs(ScopeOf(config, setting, q, m), c, r);
  }

  lemma ModelRowsDistinct(m: Model)
    requires ValidModel(m)
    ensures DistinctRows(m.rows)
  {}

  lemma NothingSums()
    ensures SumsTo(NoStats, {})
  {}

  lemma StatsOfMean(rows: seq<Row>, classify: Row -> Option<Key>, key: Option<Key>, some: set<Row>)
    requires DistinctRows(rows)
    requires forall r :: r in some <==> r in rows && key.Some? && classify(r) == key
    ensures SumsTo(StatsOf(rows, classify, key), some)
  {
    if key.Some? {
      CollectMeans(rows, classify, key.value);
      assert Under(rows, classify, key.value) == some;
    } else {
      assert some == {};
      NothingSums();
    }
  }

  /** The statistics that a candidate is assessed by are the sums over its own rows ... */
  lemma OwnMean(config: Config, q: Request, m: Model, setting: Setting, now: int, c: Candidate)
    requires ValidConfig(config) && ValidModel(m) && ResolveRequest(config, q, now) == Ok(setting)
    ensures var scope := ScopeOf(config, setting, q, m);
            SumsTo(StatsOf(m.rows, scope.Local, LocalKeyOf(scope, c)), OwnRows(config, q, m, c))
  {
    var scope := ScopeOf(config, setting, q, m);
    ModelRowsDistinct(m);
    forall r ensures r in OwnRows(config, q, m, c) <==> r in m.rows && LocalKeyOf(scope, c).Some? && scope.Local(r) == LocalKeyOf(scope, c) {
      OwnIs(config, q, m, setting, now, c, r);
    }
    StatsOfMean(m.rows, scope.Local, LocalKeyOf(scope, c), OwnRows(config, q, m, c));
  }

  /** ... and over the shared ones. */
  lemma OthersMean(config: Config, q: Request, m: Model, setting: Setting, now: int, c: Candidate)
    requires ValidConfig(config) && ValidModel(m) && ResolveRequest(config, q, now) == Ok(setting) && Registered(setting.app, c)
    ensures var scope := ScopeOf(config, setting, q, m);
            SumsTo(StatsOf(m.rows, scope.Shared, SharedKeyOf(scope, c)), OtherRows(config, q, setting.policy, m, c))
  {
    var scope, others := ScopeOf(config, setting, q, m), OtherRows(config, q, setting.policy, m, c);
    ModelRowsDistinct(m);
    forall r ensures r in others <==> r in m.rows && SharedKeyOf(scope, c).Some? && scope.Shared(r) == SharedKeyOf(scope, c) {
      OthersIs(config, q, m, setting, now, c, r);
    }
    StatsOfMean(m.rows, scope.Shared, SharedKeyOf(scope, c), others);
  }

  // ----- the score in these terms -----

  lemma RatioBounded(part: real, whole: real, bound: real)
    requires 0.0 < whole
    ensures Ratio(part, whole) <= bound <==> part <= Scaled(bound, whole)
  {
    Quotient(part, whole);
    SameSign(bound - Ratio(part, whole), whole);
    assert Scaled(bound - Ratio(part, whole), whole) == Scaled(bound, whole) - Scaled(Ratio(part, whole), whole);
  }

  lemma GatesAre(p: Policy, other: Stats, rows: set<Row>)
    requires ValidPolicy(p) && SumsTo(other, rows)
    ensures SharedApplies(p, other) <==> GatesOpen(p, rows)
    ensures |other.apps| == |Sums(rows).apps|
  {
    assert |other.apps.Keys| == |other.apps|;
    assert other.apps == map[] <==> other.apps.Keys == {};
    if other.n > 0 {
      forall a | a in other.apps
        ensures Ratio(other.apps[a] as real, other.n as real) <= p.maxAppShare <==>
                  SumOver(OfApp(rows, a), ExposuresOf) as real <= Scaled(p.maxAppShare, Sums(rows).exposures as real)
      {
        RatioBounded(other.apps[a] as real, other.n as real, p.maxAppShare);
      }
    }
  }

  lemma PriorMeans(p: Policy, other: Stats, rows: set<Row>)
    requires ValidPolicy(p) && SumsTo(other, rows)
    ensures IsPrior(p, rows, BeliefOf(p, other).mu, BeliefOf(p, other).k)
  {
    GatesAre(p, other, rows);
    Quotient(p.alpha + other.c as real, p.alpha + p.beta + other.n as real);
    Quotient(p.alpha, p.alpha + p.beta);
  }

  lemma ScoreOfMeans(belief: Belief, own: Stats)
    requires 0.0 < belief.k
    ensures Posterior(ScoreOf(belief, own), belief.mu, belief.k, own.n, own.c)
  {
    Quotient(Scaled(belief.mu, belief.k) + own.c as real, belief.k + own.n as real);
  }

  lemma AssessedMeans(config: Config, q: Request, m: Model, setting: Setting, now: int, c: Candidate)
    requires ValidConfig(config) && ValidModel(m) && ResolveRequest(config, q, now) == Ok(setting) && ValidPolicy(setting.policy)
    requires Registered(setting.app, c)
    ensures IsScore(config, q, setting.policy, m, c, AssessIn(ScopeOf(config, setting, q, m), m.rows, c).score)
  {
    var scope, p := ScopeOf(config, setting, q, m), setting.policy;
    var own := StatsOf(m.rows, scope.Local, LocalKeyOf(scope, c));
    var other := StatsOf(m.rows, scope.Shared, SharedKeyOf(scope, c));
    assert own.n == Sums(OwnRows(config, q, m, c)).exposures && own.c == Sums(OwnRows(config, q, m, c)).clicks by {
      OwnMean(config, q, m, setting, now, c);
    }
    assert IsPrior(p, OtherRows(config, q, p, m, c), BeliefOf(p, other).mu, BeliefOf(p, other).k) by {
      OthersMean(config, q, m, setting, now, c);
      PriorMeans(p, other, OtherRows(config, q, p, m, c));
    }
    ScoreOfMeans(BeliefOf(p, other), own);
  }

  // ----- what moves a score -----

  lemma SameFactor(x: real, y: real, w: real)
    requires 0.0 < w
    ensures Scaled(x, w) < Scaled(y, w) <==> x < y
    ensures Scaled(x, w) == Scaled(y, w) <==> x == y
  {
    SameSign(y - x, w);
    SameSign(x - y, w);
    assert Scaled(y - x, w) == Scaled(y, w) - Scaled(x, w);
    assert Scaled(x - y, w) == Scaled(x, w) - Scaled(y, w);
  }

  /** There is only one prior and one score for given rows. */
  lemma PriorIsUnique(p: Policy, others: set<Row>, m1: real, k1: real, m2: real, k2: real)
    requires ValidPolicy(p) && IsPrior(p, others, m1, k1) && IsPrior(p, others, m2, k2)
    ensures m1 == m2 && k1 == k2 && 0.0 < k1
  {
    SameFactor(m1, m2, p.alpha + p.beta + Sums(others).exposures as real);
    SameFactor(m1, m2, p.alpha + p.beta);
  }

  lemma PosteriorOrders(x: real, y: real, mu: real, k: real, exposures: nat, some: nat, more: nat)
    requires 0.0 < k && Posterior(x, mu, k, exposures, some) && Posterior(y, mu, k, exposures, more)
    ensures some < more ==> x < y
    ensures some == more ==> x == y
  {
    SameFactor(x, y, k + exposures as real);
  }

  lemma PosteriorFollowsPrior(x: real, y: real, mu: real, nu: real, k: real, exposures: nat, clicks: nat)
    requires 0.0 < k && mu < nu && Posterior(x, mu, k, exposures, clicks) && Posterior(y, nu, k, exposures, clicks)
    ensures x < y
  {
    SameFactor(mu, nu, k);
    SameFactor(x, y, k + exposures as real);
  }

  /** Any score rests on the prior of its candidate. */
  lemma RestsOn(config: Config, q: Request, p: Policy, m: Model, c: Candidate, x: real, mu: real, k: real)
    requires ValidPolicy(p) && IsScore(config, q, p, m, c, x) && IsPrior(p, OtherRows(config, q, p, m, c), mu, k)
    ensures 0.0 < k && Posterior(x, mu, k, Sums(OwnRows(config, q, m, c)).exposures, Sums(OwnRows(config, q, m, c)).clicks)
  {
    var others, own := OtherRows(config, q, p, m, c), Sums(OwnRows(config, q, m, c));
    var nu, j :| IsPrior(p, others, nu, j) && Posterior(x, nu, j, own.exposures, own.clicks);
    PriorIsUnique(p, others, mu, k, nu, j);
  }

  lemma PriorOf(config: Config, q: Request, p: Policy, m: Model, c: Candidate, x: real) returns (mu: real, k: real)
    requires IsScore(config, q, p, m, c, x)
    ensures IsPrior(p, OtherRows(config, q, p, m, c), mu, k)
  {
    var own := Sums(OwnRows(config, q, m, c));
    mu, k :| IsPrior(p, OtherRows(config, q, p, m, c), mu, k) && Posterior(x, mu, k, own.exposures, own.clicks);
  }

  lemma ScoreIsUnique(config: Config, q: Request, p: Policy, m: Model, c: Candidate, x: real, y: real)
    requires ValidPolicy(p) && IsScore(config, q, p, m, c, x) && IsScore(config, q, p, m, c, y)
    ensures x == y
  {
    var own := Sums(OwnRows(config, q, m, c));
    var mu, k := PriorOf(config, q, p, m, c, x);
    RestsOn(config, q, p, m, c, x, mu, k);
    RestsOn(config, q, p, m, c, y, mu, k);
    PosteriorOrders(x, y, mu, k, own.exposures, own.clicks, own.clicks);
  }

  /** More own clicks at equal own exposures strictly raise a score. */
  lemma MoreClicksRaise(config: Config, q: Request, p: Policy, m: Model, better: Model, c: Candidate, x: real, y: real)
    requires ValidPolicy(p) && IsScore(config, q, p, m, c, x) && IsScore(config, q, p, better, c, y)
    requires OtherRows(config, q, p, m, c) == OtherRows(config, q, p, better, c)
    requires var own, raised := Sums(OwnRows(config, q, m, c)), Sums(OwnRows(config, q, better, c));
             own.exposures == raised.exposures && own.clicks < raised.clicks
    ensures x < y
  {
    var own, raised := Sums(OwnRows(config, q, m, c)), Sums(OwnRows(config, q, better, c));
    var mu, k := PriorOf(config, q, p, m, c, x);
    RestsOn(config, q, p, m, c, x, mu, k);
    RestsOn(config, q, p, better, c, y, mu, k);
    PosteriorOrders(x, y, mu, k, own.exposures, own.clicks, raised.clicks);
  }

  lemma ClosedPrior(p: Policy, others: set<Row>)
    requires ValidPolicy(p) && !GatesOpen(p, others)
    ensures IsPrior(p, others, Ratio(p.alpha, p.alpha + p.beta), p.alpha + p.beta)
  {
    Quotient(p.alpha, p.alpha + p.beta);
  }

  lemma ClosedPosterior(p: Policy, x: real, exposures: nat, clicks: nat)
    requires ValidPolicy(p)
    ensures Posterior(x, Ratio(p.alpha, p.alpha + p.beta), p.alpha + p.beta, exposures, clicks) <==>
              Scaled(x, p.alpha + p.beta + exposures as real) == p.alpha + clicks as real
  {
    Quotient(p.alpha, p.alpha + p.beta);
  }

  /** While a gate is closed, other apps do not matter: the score is the policy's prior updated by the candidate's own rows. */
  lemma ClosedGatesIgnoreOthers(config: Config, q: Request, p: Policy, m: Model, c: Candidate, x: real)
    requires ValidPolicy(p) && !GatesOpen(p, OtherRows(config, q, p, m, c))
    ensures IsScore(config, q, p, m, c, x) <==>
              var own := Sums(OwnRows(config, q, m, c));
              Scaled(x, p.alpha + p.beta + own.exposures as real) == p.alpha + own.clicks as real
  {
    var own := Sums(OwnRows(config, q, m, c));
    ClosedPrior(p, OtherRows(config, q, p, m, c));
    ClosedPosterior(p, x, own.exposures, own.clicks);
    if IsScore(config, q, p, m, c, x) {
      RestsOn(config, q, p, m, c, x, Ratio(p.alpha, p.alpha + p.beta), p.alpha + p.beta);
    }
  }

  lemma OpenPriors(p: Policy, others: set<Row>, raised: set<Row>, mu: real, k: real, nu: real, j: real)
    requires ValidPolicy(p) && IsPrior(p, others, mu, k) && IsPrior(p, raised, nu, j)
    requires GatesOpen(p, others) && GatesOpen(p, raised) && Sums(others).exposures == Sums(raised).exposures
    requires (|Sums(others).apps| == 1 <==> |Sums(raised).apps| == 1) && Sums(others).clicks < Sums(raised).clicks
    ensures k == j && mu < nu
  {
    SameFactor(mu, nu, p.alpha + p.beta + Sums(others).exposures as real);
  }

  /** While all gates are open, other apps matter: more of their clicks, at equal exposures, strictly raise a score. */
  lemma OpenGatesFollowOthers(config: Config, q: Request, p: Policy, m: Model, better: Model, c: Candidate, x: real, y: real)
    requires ValidPolicy(p) && IsScore(config, q, p, m, c, x) && IsScore(config, q, p, better, c, y)
    requires OwnRows(config, q, m, c) == OwnRows(config, q, better, c)
    requires var others, raised := OtherRows(config, q, p, m, c), OtherRows(config, q, p, better, c);
             && GatesOpen(p, others) && GatesOpen(p, raised)
             && Sums(others).exposures == Sums(raised).exposures && (|Sums(others).apps| == 1 <==> |Sums(raised).apps| == 1)
             && Sums(others).clicks < Sums(raised).clicks
    ensures x < y
  {
    var own := Sums(OwnRows(config, q, m, c));
    var mu, k := PriorOf(config, q, p, m, c, x);
    var nu, j := PriorOf(config, q, p, better, c, y);
    RestsOn(config, q, p, m, c, x, mu, k);
    RestsOn(config, q, p, better, c, y, nu, j);
    OpenPriors(p, OtherRows(config, q, p, m, c), OtherRows(config, q, p, better, c), mu, k, nu, j);
    PosteriorFollowsPrior(x, y, mu, nu, k, own.exposures, own.clicks);
  }

  // ----- the result in these terms -----

  function SumOf(xs: seq<real>): real {
    if xs == [] then 0.0 else xs[0] + SumOf(xs[1..])
  }

  function ScoresIn(scores: seq<Assessed>): (xs: seq<real>)
    ensures |xs| == |scores| && forall i :: 0 <= i < |xs| ==> xs[i] == scores[i].score
  {
    if scores == [] then [] else [scores[0].score] + ScoresIn(scores[1..])
  }

  lemma {:induction false} SumOfScores(scores: seq<Assessed>)
    ensures SumOf(ScoresIn(scores)) == TotalScore(scores)
  {
    if scores != [] {
      SumOfScores(scores[1..]);
      assert ScoresIn(scores)[1..] == ScoresIn(scores[1..]);
    }
  }

  /** A weight above its uniform exploration share is proportional to the score. */
  ghost predicate IsWeight(weight: real, score: real, total: real, epsilon: real, n: nat)
    requires 0 < n
  {
    Scaled(weight - Ratio(epsilon, n as real), total) == Scaled(score, 1.0 - epsilon)
  }

  lemma WeightMeans(score: real, total: real, epsilon: real, n: nat)
    requires 0.0 < total && 0 < n
    ensures IsWeight(WeightOf(score, total, epsilon, n), score, total, epsilon, n)
  {
    var share := Ratio(score, total);
    Quotient(score, total);
    assert WeightOf(score, total, epsilon, n) - Ratio(epsilon, n as real) == Scaled(share, 1.0 - epsilon);
    Reassociate(share, 1.0 - epsilon, total);
  }

  lemma Reassociate(a: real, b: real, c: real)
    ensures Scaled(Scaled(a, b), c) == Scaled(Scaled(a, c), b)
  {}

  /** Where an entry's confidence comes from: its own exposures first, then open gates, then the prior alone. */
  ghost predicate IsConfident(config: Config, q: Request, p: Policy, m: Model, e: Entry) {
    if Sums(OwnRows(config, q, m, e.candidate)).exposures > 0 then e.confidence == Local && e.why == LocalEvidence
    else if GatesOpen(p, OtherRows(config, q, p, m, e.candidate)) then e.confidence == Shared && e.why == SharedPrior
    else e.confidence == Prior && e.why == if p.sharing then InsufficientSharedEvidence else ColdStart
  }

  lemma ConfidenceMeans(config: Config, q: Request, m: Model, setting: Setting, now: int, c: Candidate, e: Entry)
    requires ValidConfig(config) && ValidModel(m) && ResolveRequest(config, q, now) == Ok(setting) && ValidPolicy(setting.policy)
    requires Registered(setting.app, c) && e.candidate == c
    requires var s := AssessIn(ScopeOf(config, setting, q, m), m.rows, c); e.confidence == s.confidence && e.why == s.why
    ensures IsConfident(config, q, setting.policy, m, e)
  {
    var scope, p := ScopeOf(config, setting, q, m), setting.policy;
    var own := StatsOf(m.rows, scope.Local, LocalKeyOf(scope, c));
    var other := StatsOf(m.rows, scope.Shared, SharedKeyOf(scope, c));
    assert own.n == Sums(OwnRows(config, q, m, c)).exposures by {
      OwnMean(config, q, m, setting, now, c);
    }
    assert SharedApplies(p, other) <==> GatesOpen(p, OtherRows(config, q, p, m, c)) by {
      OthersMean(config, q, m, setting, now, c);
      GatesAre(p, other, OtherRows(config, q, p, m, c));
    }
  }

  /** Everything an entry says, against the scores of all entries. */
  ghost predicate EntryMeans(config: Config, q: Request, p: Policy, m: Model, entries: seq<Entry>, xs: seq<real>, i: nat)
    requires |xs| == |entries| && i < |entries|
  {
    && IsScore(config, q, p, m, entries[i].candidate, xs[i])
    && IsWeight(entries[i].weight, xs[i], SumOf(xs), p.epsilon, |entries|)
    && IsConfident(config, q, p, m, entries[i])
    && RankMeans(entries, xs, i)
  }

  /** Nothing but the other entries' scores and keys decides a rank. */
  ghost predicate RankMeans(entries: seq<Entry>, xs: seq<real>, i: nat)
    requires |xs| == |entries| && i < |entries|
  {
    forall j: nat :: j < |entries| && j != i ==> Outranks(entries, xs, i, j)
  }

  /** One entry ranks before another exactly when its score is higher, or equal with a smaller key. */
  ghost predicate Outranks(entries: seq<Entry>, xs: seq<real>, i: nat, j: nat)
    requires |xs| == |entries| && i < |entries| && j < |entries|
  {
    entries[i].rank < entries[j].rank <==>
      xs[i] > xs[j] || (xs[i] == xs[j] && Less(CandidateKey(entries[i].candidate), CandidateKey(entries[j].candidate)))
  }

  lemma RankIs(scores: seq<Assessed>, epsilon: real, i: nat)
    requires DistinctKeys(scores, ScoreKey) && i < |scores|
    ensures RankMeans(EntriesOf(scores, epsilon), ScoresIn(scores), i)
  {
    var entries := EntriesOf(scores, epsilon);
    forall j: nat | j < |entries| && j != i ensures Outranks(entries, ScoresIn(scores), i, j) {
      RankOrders(scores, epsilon, i, j);
    }
  }

  lemma WeightIs(scores: seq<Assessed>, epsilon: real, i: nat)
    requires Inside(scores) && i < |scores|
    ensures IsWeight(EntriesOf(scores, epsilon)[i].weight, scores[i].score, SumOf(ScoresIn(scores)), epsilon, |scores|)
  {
    RankedMembers(scores);
    TotalPositive(scores);
    SumOfScores(scores);
    WeightMeans(scores[i].score, TotalScore(scores), epsilon, |scores|);
  }

  lemma EntryIs(config: Config, q: Request, m: Model, setting: Setting, now: int, i: nat)
    requires Valid(config, q, m) && ResolveRequest(config, q, now) == Ok(setting) && ValidPolicy(setting.policy)
    requires forall c :: c in q.candidates ==> Registered(setting.app, c)
    requires i < |ScoresOf(config, q, m, setting)|
    ensures var scores := ScoresOf(config, q, m, setting);
            EntryMeans(config, q, setting.policy, m, EntriesOf(scores, setting.policy.epsilon), ScoresIn(scores), i)
  {
    var scores, epsilon := ScoresOf(config, q, m, setting), setting.policy.epsilon;
    var entries := EntriesOf(scores, epsilon);
    assert scores[i] == AssessIn(ScopeOf(config, setting, q, m), m.rows, scores[i].candidate);
    assert Registered(setting.app, scores[i].candidate) && DistinctKeys(scores, ScoreKey) && Inside(scores) by {
      ScoresAreSound(config, q, m, setting);
      assert scores[i] in scores;
    }
    AssessedMeans(config, q, m, setting, now, scores[i].candidate);
    ConfidenceMeans(config, q, m, setting, now, scores[i].candidate, entries[i]);
    WeightIs(scores, epsilon, i);
    RankIs(scores, epsilon, i);
  }

  /**
   What scoring answers, from the policy and the model's rows alone: each entry's weight above its exploration
   share is proportional to the posterior mean of its candidate, ranks follow these means, and confidence says
   which evidence they rest on.
   */
  lemma ResultMeans(config: Config, q: Request, m: Model, now: int) returns (p: Policy, xs: seq<real>)
    requires Valid(config, q, m) && Score(config, q, m, now).Ok?
    ensures p in config.policies && p.policyId == q.policyId && p.version == q.policyVersion && ValidPolicy(p)
    ensures var entries := Score(config, q, m, now).value.entries;
            && |xs| == |entries| == |q.candidates|
            && forall i :: 0 <= i < |entries| ==> EntryMeans(config, q, p, m, entries, xs, i)
  {
    SettingIsValid(config, q, now);
    ScoredFrom(config, q, m, now);
    var setting := ResolveRequest(config, q, now).value;
    var scores := ScoresOf(config, q, m, setting);
    ResultIsValid(config, q, m, now);
    p, xs := setting.policy, ScoresIn(scores);
    forall i | 0 <= i < |scores| ensures EntryMeans(config, q, p, m, EntriesOf(scores, p.epsilon), xs, i) {
      EntryIs(config, q, m, setting, now, i);
    }
  }

  // ----- what is scored at all -----

  /** The request is valid now, for the registered revision of its app, policy and context. */
  ghost predicate RequestCurrent(config: Config, q: Request, now: int) {
    && 0 <= now && q.generatedAt <= now < q.expiresAt
    && (exists a :: a in config.apps && a.appId == q.appId && a.appRevision == q.appRevision)
    && (exists p :: p in config.policies && p.policyId == q.policyId && p.version == q.policyVersion)
    && (exists x :: RegistersContext(config, q.appId, x) && x.contextId == q.contextId && x.measurementProfileId == q.measurementProfileId)
  }

  /** The candidate is an enabled subject of the app at its current rule, with a product that the subject lists, if any. */
  ghost predicate CandidateCurrent(config: Config, q: Request, c: Candidate) {
    exists x :: Registers(config, q.appId, x) && x.subjectId == c.subjectId && x.enabled && x.ruleRevision == c.ruleRevision
                && (c.entityRef.Some? ==> c.entityRef.value in x.entityRefs)
  }

  /** The row belongs to a registered subject, context and product, and its day was sealed when the model was built. */
  ghost predicate RowCurrent(config: Config, generatedAt: int, r: Row) {
    && (exists x :: Registers(config, r.appId, x) && x.subjectId == r.subjectId
                    && (r.entityRef.Some? && x.ruleRevision == r.ruleRevision && x.mappingVersion == r.mappingVersion ==>
                          r.entityRef.value in x.entityRefs))
    && (exists x :: RegistersContext(config, r.appId, x) && x.contextId == r.contextId && x.measurementProfileId == r.measurementProfileId)
    && (r.entityRef.Some? ==> exists e :: e in config.entities && e.entityRef == r.entityRef.value)
    && r.day + 3 * 86_400_000 <= generatedAt
  }

  lemma OnePolicy(config: Config, x: Policy, y: Policy)
    requires ValidConfig(config) && x in config.policies && y in config.policies && x.policyId == y.policyId
    ensures x == y
  {
    var i :| 0 <= i < |config.policies| && config.policies[i] == x;
    var j :| 0 <= j < |config.policies| && config.policies[j] == y;
  }

  lemma CandidateIs(config: Config, q: Request, app: App, c: Candidate)
    requires ValidConfig(config) && FindApp(config.apps, q.appId) == Some(app)
    ensures Registered(app, c) <==> CandidateCurrent(config, q, c)
  {
    forall x ensures SubjectOf(config, q.appId, c.subjectId) == Some(x) <==> Registers(config, q.appId, x) && x.subjectId == c.subjectId {
      SubjectOfIs(config, q.appId, c.subjectId, x);
    }
  }

  lemma RowIs(config: Config, generatedAt: int, r: Row)
    requires ValidConfig(config)
    ensures RowRegistered(config, generatedAt, r) <==> RowCurrent(config, generatedAt, r)
  {
    forall x ensures SubjectOf(config, r.appId, r.subjectId) == Some(x) <==> Registers(config, r.appId, x) && x.subjectId == r.subjectId {
      SubjectOfIs(config, r.appId, r.subjectId, x);
    }
    forall x ensures ContextOf(config, r.appId, r.contextId) == Some(x) <==> RegistersContext(config, r.appId, x) && x.contextId == r.contextId {
      ContextOfIs(config, r.appId, r.contextId, x);
    }
  }

  lemma RegistrationIs(config: Config, q: Request, now: int)
    requires ValidConfig(config)
    ensures var app, policy := FindApp(config.apps, q.appId), FindPolicy(config.policies, q.policyId);
            RequestCurrent(config, q, now) <==>
              && 0 <= now && q.generatedAt <= now < q.expiresAt
              && app.Some? && app.value.appRevision == q.appRevision
              && policy.Some? && policy.value.version == q.policyVersion
              && ContextOf(config, q.appId, q.contextId).Some?
              && ContextOf(config, q.appId, q.contextId).value.measurementProfileId == q.measurementProfileId
  {
    forall x ensures ContextOf(config, q.appId, q.contextId) == Some(x) <==> RegistersContext(config, q.appId, x) && x.contextId == q.contextId {
      ContextOfIs(config, q.appId, q.contextId, x);
    }
    forall a | a in config.apps && a.appId == q.appId ensures FindApp(config.apps, q.appId) == Some(a) {
      OneApp(config, a, FindApp(config.apps, q.appId).value);
    }
    forall p | p in config.policies && p.policyId == q.policyId ensures FindPolicy(config.policies, q.policyId) == Some(p) {
      OnePolicy(config, p, FindPolicy(config.policies, q.policyId).value);
    }
  }

  lemma ResolvesIff(config: Config, q: Request, now: int)
    requires ValidConfig(config)
    ensures ResolveRequest(config, q, now).Ok? <==>
              RequestCurrent(config, q, now) && forall c :: c in q.candidates ==> CandidateCurrent(config, q, c)
  {
    RegistrationIs(config, q, now);
    var app := FindApp(config.apps, q.appId);
    if app.Some? {
      forall c ensures Registered(app.value, c) <==> CandidateCurrent(config, q, c) {
        CandidateIs(config, q, app.value, c);
      }
    }
  }

  /** Request, candidates and evidence are current, and the model is at most a day old. */
  ghost predicate AllCurrent(config: Config, q: Request, m: Model, now: int) {
    && RequestCurrent(config, q, now)
    && (forall c :: c in q.candidates ==> CandidateCurrent(config, q, c))
    && m.generatedAt <= now <= m.generatedAt + 86_400_000
    && (forall r :: r in m.rows ==> RowCurrent(config, m.generatedAt, r))
  }

  /** No key's exposures leave the safe integers. */
  ghost predicate TotalsFit(config: Config, q: Request, m: Model, now: int) {
    var setting := ResolveRequest(config, q, now);
    setting.Ok? ==>
      && Fits(m.rows, ScopeOf(config, setting.value, q, m).Local)
      && Fits(m.rows, ScopeOf(config, setting.value, q, m).Shared)
  }

  lemma RowsAre(config: Config, m: Model)
    requires ValidConfig(config)
    ensures ModelRegistered(config, m) <==> forall r :: r in m.rows ==> RowCurrent(config, m.generatedAt, r)
  {
    forall r ensures RowRegistered(config, m.generatedAt, r) <==> RowCurrent(config, m.generatedAt, r) {
      RowIs(config, m.generatedAt, r);
    }
  }

  /** A request is scored exactly when everything is current and no total overflows. */
  lemma ScoredIff(config: Config, q: Request, m: Model, now: int)
    requires Valid(config, q, m)
    ensures Score(config, q, m, now).Ok? <==> AllCurrent(config, q, m, now) && TotalsFit(config, q, m, now)
  {
    ResolvesIff(config, q, now);
    RowsAre(config, m);
  }
}
