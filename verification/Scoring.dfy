/** Bayesian scores, exploration weights and ranks of the candidates of one request. */
module Scoring {
  import opened Prelude
  import opened Ordering
  import opened Recommendations
  import opened Evidence

  datatype Assessed = Assessed(candidate: Candidate, score: real, confidence: Confidence, why: Why)

  // ----- one candidate -----

  predicate SharedApplies(policy: Policy, other: Stats) {
    && other.apps != map[]
    && other.n >= policy.minSharedExposures
    && |other.days| >= policy.minSharedDays
    && (|other.apps| == 1 || forall a :: a in other.apps ==> Ratio(other.apps[a] as real, other.n as real) <= policy.maxAppShare)
  }

  datatype Belief = Belief(mu: real, k: real)

  function BeliefOf(policy: Policy, other: Stats): Belief
    requires ValidPolicy(policy)
  {
    var prior := policy.alpha + policy.beta;
    if SharedApplies(policy, other)
    then Belief(Ratio(policy.alpha + other.c as real, prior + other.n as real),
                if |other.apps| == 1 then policy.singleAppStrength else policy.sharedStrength)
    else Belief(Ratio(policy.alpha, prior), prior)
  }

  function ScoreOf(belief: Belief, local: Stats): real
    requires 0.0 < belief.k
  {
    Ratio(Scaled(belief.mu, belief.k) + local.c as real, belief.k + local.n as real)
  }

  function Assess(scope: Scope, c: Candidate, local: Stats, other: Stats): Assessed
    requires ValidPolicy(scope.setting.policy)
  {
    var policy := scope.setting.policy;
    var shared := SharedApplies(policy, other);
    Assessed(
      c,
      ScoreOf(BeliefOf(policy, other), local),
      if local.n > 0 then Local else if shared then Shared else Prior,
      if local.n > 0 then LocalEvidence
      else if shared then SharedPrior
      else if policy.sharing then InsufficientSharedEvidence else ColdStart)
  }

  function LocalKeyOf(scope: Scope, c: Candidate): Option<Key> {
    LocalKey(scope.kind, c.subjectId, c.entityRef)
  }

  function SharedKeyOf(scope: Scope, c: Candidate): Option<Key> {
    var subject := FindSubject(scope.setting.app.subjects, c.subjectId);
    if subject.Some? then SharedKey(scope.kind, subject.value, c.entityRef) else None
  }

  function StatsOf(rows: seq<Row>, classify: Row -> Option<Key>, key: Option<Key>): Stats {
    if key.Some? then Collect(rows, classify, key.value) else NoStats
  }

  function AssessIn(scope: Scope, rows: seq<Row>, c: Candidate): (assessed: Assessed)
    requires ValidPolicy(scope.setting.policy)
    ensures assessed.candidate == c
  {
    Assess(scope, c, StatsOf(rows, scope.Local, LocalKeyOf(scope, c)), StatsOf(rows, scope.Shared, SharedKeyOf(scope, c)))
  }

  function AssessAll(scope: Scope, rows: seq<Row>, cs: seq<Candidate>): (scores: seq<Assessed>)
    requires ValidPolicy(scope.setting.policy)
    ensures |scores| == |cs|
    ensures forall i :: 0 <= i < |cs| ==> scores[i] == AssessIn(scope, rows, cs[i])
  {
    if cs == [] then [] else [AssessIn(scope, rows, cs[0])] + AssessAll(scope, rows, cs[1..])
  }

  // ----- weights and ranks -----

  function TotalScore(scores: seq<Assessed>): real {
    if scores == [] then 0.0 else scores[0].score + TotalScore(scores[1..])
  }

  /** An entry's weight: its share of the scores, mixed with a uniform share for exploration. */
  function WeightOf(score: real, total: real, epsilon: real, n: nat): real
    requires 0 < n
  {
    if total > 0.0
    then Scaled(Ratio(score, total), 1.0 - epsilon) + Ratio(epsilon, n as real)
    else Ratio(1.0, n as real)
  }

  /** Higher scores come first, equal scores in the order of their keys. */
  predicate Ahead(a: Assessed, b: Assessed) {
    a.score > b.score || (a.score == b.score && Less(CandidateKey(a.candidate), CandidateKey(b.candidate)))
  }

  const AheadOf: (Assessed, Assessed) -> bool := (a, b) => Ahead(a, b)

  function IndexOf(ranked: seq<Assessed>, s: Assessed): (k: int)
    ensures s in ranked ==> 0 <= k < |ranked| && ranked[k] == s
    ensures s !in ranked ==> k == -1
  {
    if ranked == [] then -1
    else if ranked[0] == s then 0
    else
      var k := IndexOf(ranked[1..], s);
      if k < 0 then -1 else k + 1
  }

  function EntryOf(s: Assessed, ranked: seq<Assessed>, total: real, epsilon: real): Entry
    requires s in ranked
  {
    Entry(s.candidate, WeightOf(s.score, total, epsilon, |ranked|), IndexOf(ranked, s) + 1, s.confidence, s.why)
  }

  function Entries(scores: seq<Assessed>, ranked: seq<Assessed>, total: real, epsilon: real): (entries: seq<Entry>)
    requires forall s :: s in scores ==> s in ranked
    ensures |entries| == |scores|
    ensures forall i :: 0 <= i < |scores| ==> entries[i] == EntryOf(scores[i], ranked, total, epsilon)
  {
    if scores == [] then [] else [EntryOf(scores[0], ranked, total, epsilon)] + Entries(scores[1..], ranked, total, epsilon)
  }

  lemma RankedMembers(scores: seq<Assessed>)
    ensures forall s :: s in Arrange(scores, AheadOf) <==> s in scores
    ensures |Arrange(scores, AheadOf)| == |scores|
  {
    ArrangeKeeps(scores, AheadOf);
  }

  function EntriesOf(scores: seq<Assessed>, epsilon: real): (entries: seq<Entry>) {
    RankedMembers(scores);
    Entries(scores, Arrange(scores, AheadOf), TotalScore(scores), epsilon)
  }

  // ----- scoring a request -----

  ghost predicate Valid(config: Config, request: Request, model: Model) {
    ValidConfig(config) && ValidRequest(request) && ValidModel(model)
  }

  function ScopeOf(config: Config, setting: Setting, request: Request, model: Model): Scope {
    Scope(config, setting, request.kind, model.generatedAt)
  }

  /** Why a request cannot be scored, if so: checked in this order. */
  ghost function Refusal(config: Config, request: Request, model: Model, now: int): Option<Error> {
    var setting := ResolveRequest(config, request, now);
    if setting.Err? then Some(setting.error)
    else if model.generatedAt > now || now - model.generatedAt > Day then Some(StaleModel)
    else if !ModelRegistered(config, model) then Some(UnknownEvidence)
    else
      var scope := ScopeOf(config, setting.value, request, model);
      if Fits(model.rows, scope.Local) && Fits(model.rows, scope.Shared) then None else Some(Overflow)
  }

  /** The entries, in the order of the candidates' keys. */
  function ScoredEntries(scope: Scope, rows: seq<Row>, candidates: seq<Candidate>): seq<Entry>
    requires ValidPolicy(scope.setting.policy)
  {
    EntriesOf(AssessAll(scope, rows, Sort(candidates, KeyOf)), scope.setting.policy.epsilon)
  }

  function RowSet(rows: seq<Row>): set<Row> {
    set r | r in rows
  }

  function ResultOf(config: Config, setting: Setting, request: Request, model: Model, entries: seq<Entry>): Recommendation {
    Recommendation(
      request.requestId,
      DecisionId(DigestOf(request), config, model.modelGenerationId, model.generatedAt, RowSet(model.rows)),
      setting.app.appId, setting.app.appRevision, setting.policy.policyId, setting.policy.version,
      model.modelGenerationId, DigestOf(request), Max(request.generatedAt, model.generatedAt), request.expiresAt,
      setting.context.contextId, setting.context.measurementProfileId, request.kind, request.seed,
      if entries == [] then NoEligibleCandidates else Scored, entries)
  }

  lemma SettingIsValid(config: Config, request: Request, now: int)
    requires ValidConfig(config) && ResolveRequest(config, request, now).Ok?
    ensures var s := ResolveRequest(config, request, now).value;
            && ValidPolicy(s.policy)
            && s.app in config.apps && s.policy in config.policies && s.context in s.app.contexts
            && (forall c :: c in request.candidates ==> Registered(s.app, c))
  {}

  ghost function Score(config: Config, request: Request, model: Model, now: int): Result<Recommendation, Error>
    requires Valid(config, request, model)
  {
    var refusal := Refusal(config, request, model, now);
    if refusal.Some? then Err(refusal.value)
    else
      SettingIsValid(config, request, now);
      var setting := ResolveRequest(config, request, now).value;
      var scope := ScopeOf(config, setting, request, model);
      Ok(ResultOf(config, setting, request, model, ScoredEntries(scope, model.rows, request.candidates)))
  }

  method ScoreRecommendations(config: Config, request: Request, model: Model, now: int) returns (r: Result<Recommendation, Error>)
    requires Valid(config, request, model)
    ensures r == Score(config, request, model, now)
  {
    var resolved := ResolveRequest(config, request, now);
    if resolved.Err? {
      return Err(resolved.error);
    }
    var setting := resolved.value;
    if model.generatedAt > now || now - model.generatedAt > Day {
      return Err(StaleModel);
    }
    if !ModelRegistered(config, model) {
      return Err(UnknownEvidence);
    }
    var scope := ScopeOf(config, setting, request, model);
    var tables := CollectAll(scope, model.rows);
    if tables.Err? {
      return Err(tables.error);
    }
    SettingIsValid(config, request, now);
    var scores := AssessCandidates(scope, model.rows, tables.value, Sort(request.candidates, KeyOf));
    r := Ok(ResultOf(config, setting, request, model, EntriesOf(scores, setting.policy.epsilon)));
  }

  method AssessOne(scope: Scope, ghost rows: seq<Row>, tables: Tables, c: Candidate) returns (assessed: Assessed)
    requires ValidPolicy(scope.setting.policy)
    requires Tabulates(tables.local, rows, scope.Local) && Tabulates(tables.shared, rows, scope.Shared)
    ensures assessed == AssessIn(scope, rows, c)
  {
    var own, other := LocalKeyOf(scope, c), SharedKeyOf(scope, c);
    assessed := Assess(scope, c,
                       if own.Some? then At(tables.local, own.value) else NoStats,
                       if other.Some? then At(tables.shared, other.value) else NoStats);
  }

  method AssessCandidates(scope: Scope, ghost rows: seq<Row>, tables: Tables, cs: seq<Candidate>) returns (scores: seq<Assessed>)
    requires ValidPolicy(scope.setting.policy)
    requires Tabulates(tables.local, rows, scope.Local) && Tabulates(tables.shared, rows, scope.Shared)
    ensures scores == AssessAll(scope, rows, cs)
  {
    scores := [];
    var i := 0;
    while i < |cs|
      invariant 0 <= i <= |cs| && |scores| == i
      invariant forall j :: 0 <= j < i ==> scores[j] == AssessIn(scope, rows, cs[j])
    {
      var assessed := AssessOne(scope, rows, tables, cs[i]);
      scores := scores + [assessed];
      i := i + 1;
    }
  }
}
