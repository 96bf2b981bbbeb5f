/** What scoring guarantees about its result: probabilities, ranks, and acceptance by the consumer's own check. */
module ScoringResult {
  import opened Prelude
  import opened Ordering
  import opened Recommendations
  import opened Evidence
  import opened Scoring

  // ----- scores are probabilities -----

  lemma BeliefInside(policy: Policy, other: Stats)
    requires ValidPolicy(policy) && other.c <= other.n
    ensures 0.0 < BeliefOf(policy, other).mu < 1.0 && 0.0 < BeliefOf(policy, other).k
  {
    if SharedApplies(policy, other) {
      ProperFraction(policy.alpha + other.c as real, policy.alpha + policy.beta + other.n as real);
    } else {
      ProperFraction(policy.alpha, policy.alpha + policy.beta);
    }
  }

  lemma ScoreInside(policy: Policy, other: Stats, local: Stats)
    requires ValidPolicy(policy) && other.c <= other.n && local.c <= local.n
    ensures 0.0 < ScoreOf(BeliefOf(policy, other), local) < 1.0
  {
    var belief := BeliefOf(policy, other);
    BeliefInside(policy, other);
    BetweenZeroAndOne(belief.mu, belief.k);
    ProperFraction(Scaled(belief.mu, belief.k) + local.c as real, belief.k + local.n as real);
  }

  lemma StatsConsistent(rows: seq<Row>, classify: Row -> Option<Key>, key: Option<Key>)
    requires forall r :: r in rows ==> ValidRow(r)
    ensures Consistent(StatsOf(rows, classify, key))
  {
    if key.Some? {
      CollectConsistent(rows, classify, key.value);
    }
  }

  ghost predicate Inside(scores: seq<Assessed>) {
    forall s :: s in scores ==> 0.0 < s.score < 1.0
  }

  lemma AssessInside(scope: Scope, rows: seq<Row>, c: Candidate)
    requires ValidPolicy(scope.setting.policy) && forall r :: r in rows ==> ValidRow(r)
    ensures 0.0 < AssessIn(scope, rows, c).score < 1.0
  {
    var own, other := StatsOf(rows, scope.Local, LocalKeyOf(scope, c)), StatsOf(rows, scope.Shared, SharedKeyOf(scope, c));
    StatsConsistent(rows, scope.Local, LocalKeyOf(scope, c));
    StatsConsistent(rows, scope.Shared, SharedKeyOf(scope, c));
    ScoreInside(scope.setting.policy, other, own);
  }

  /** Every score lies strictly between zero and one, whatever the evidence. */
  lemma ScoresInside(scope: Scope, rows: seq<Row>, cs: seq<Candidate>)
    requires ValidPolicy(scope.setting.policy) && forall r :: r in rows ==> ValidRow(r)
    ensures Inside(AssessAll(scope, rows, cs))
  {
    var scores := AssessAll(scope, rows, cs);
    forall s | s in scores ensures 0.0 < s.score < 1.0 {
      var i :| 0 <= i < |scores| && scores[i] == s;
      AssessInside(scope, rows, cs[i]);
    }
  }

  // ----- weights -----

  lemma {:induction false} TotalPositive(scores: seq<Assessed>)
    requires Inside(scores)
    ensures 0.0 <= TotalScore(scores) && (scores != [] ==> 0.0 < TotalScore(scores))
    ensures forall s :: s in scores ==> s.score <= TotalScore(scores)
  {
    if scores != [] {
      assert scores[0] in scores;
      TotalPositive(scores[1..]);
    }
  }

  lemma RatioAtMostOne(part: real, whole: real)
    requires 0.0 < part <= whole
    ensures 0.0 < Ratio(part, whole) <= 1.0
  {
    if part == whole {
      Quotient(part, whole);
    } else {
      ProperFraction(part, whole);
    }
  }

  lemma MixBounds(x: real, epsilon: real)
    requires 0.0 <= x <= 1.0 && 0.0 <= epsilon <= 1.0
    ensures 0.0 <= Scaled(x, 1.0 - epsilon) <= 1.0 - epsilon
  {
    ScaledMonotone(0.0, x, 1.0 - epsilon);
    ScaledMonotone(x, 1.0, 1.0 - epsilon);
  }

  lemma ShareBounds(epsilon: real, n: nat)
    requires 0.0 <= epsilon && 0 < n
    ensures 0.0 <= Ratio(epsilon, n as real) <= epsilon
    ensures Scaled(Ratio(epsilon, n as real), n as real) == epsilon
  {
    Quotient(epsilon, n as real);
    SameSign(Ratio(epsilon, n as real), n as real);
    assert Scaled(Ratio(epsilon, n as real), n as real - 1.0) >= 0.0;
  }

  /** Exploration keeps every candidate alive: no weight falls below its uniform share. */
  lemma WeightBounds(score: real, total: real, epsilon: real, n: nat)
    requires 0.0 < score <= total && 0.0 <= epsilon <= 1.0 && 0 < n
    ensures Ratio(epsilon, n as real) <= WeightOf(score, total, epsilon, n) <= 1.0
  {
    RatioAtMostOne(score, total);
    MixBounds(Ratio(score, total), epsilon);
    ShareBounds(epsilon, n);
  }

  lemma RatioAdds(a: real, b: real, t: real)
    requires t != 0.0
    ensures Ratio(a + b, t) == Ratio(a, t) + Ratio(b, t)
  {}

  lemma ScaledAdds(a: real, b: real, c: real)
    ensures Scaled(a + b, c) == Scaled(a, c) + Scaled(b, c)
  {}

  lemma ScaledMonotone(a: real, b: real, c: real)
    requires a <= b && 0.0 <= c
    ensures Scaled(a, c) <= Scaled(b, c)
  {
    assert 0.0 <= (b - a) * c;
  }

  lemma RatioMonotone(a: real, b: real, t: real)
    requires a <= b && 0.0 < t
    ensures Ratio(a, t) <= Ratio(b, t)
  {
    Quotient(b - a, t);
    SameSign(Ratio(b - a, t), t);
    RatioAdds(a, b - a, t);
  }

  lemma WeightMonotone(x: real, y: real, total: real, epsilon: real, n: nat)
    requires x <= y && 0.0 < total && epsilon <= 1.0 && 0 < n
    ensures WeightOf(x, total, epsilon, n) <= WeightOf(y, total, epsilon, n)
  {
    RatioMonotone(x, y, total);
    ScaledMonotone(Ratio(x, total), Ratio(y, total), 1.0 - epsilon);
  }

  lemma OneMoreWeight(score: real, rest: real, count: nat, total: real, epsilon: real, n: nat)
    requires 0.0 < total && 0 < n
    ensures WeightOf(score, total, epsilon, n)
            + (Scaled(Ratio(rest, total), 1.0 - epsilon) + Scaled(Ratio(epsilon, n as real), count as real))
            == Scaled(Ratio(score + rest, total), 1.0 - epsilon) + Scaled(Ratio(epsilon, n as real), (count + 1) as real)
  {
    RatioAdds(score, rest, total);
    ScaledAdds(Ratio(score, total), Ratio(rest, total), 1.0 - epsilon);
    assert Scaled(Ratio(epsilon, n as real), (count + 1) as real)
        == Scaled(Ratio(epsilon, n as real), count as real) + Ratio(epsilon, n as real);
  }

  lemma {:induction false} WeightsOfSome(scores: seq<Assessed>, ranked: seq<Assessed>, total: real, epsilon: real)
    requires 0.0 < total && ranked != [] && forall s :: s in scores ==> s in ranked
    ensures Weights(Entries(scores, ranked, total, epsilon))
            == Scaled(Ratio(TotalScore(scores), total), 1.0 - epsilon)
               + Scaled(Ratio(epsilon, |ranked| as real), |scores| as real)
  {
    if scores != [] {
      WeightsOfSome(scores[1..], ranked, total, epsilon);
      assert scores[0] in ranked;
      var rest := Entries(scores[1..], ranked, total, epsilon);
      assert Entries(scores, ranked, total, epsilon) == [EntryOf(scores[0], ranked, total, epsilon)] + rest;
      assert ([EntryOf(scores[0], ranked, total, epsilon)] + rest)[1..] == rest;
      OneMoreWeight(scores[0].score, TotalScore(scores[1..]), |scores| - 1, total, epsilon, |ranked|);
    }
  }

  /** The weights of a result add up to exactly one. */
  lemma WeightsSumToOne(scores: seq<Assessed>, epsilon: real)
    requires scores != [] && Inside(scores) && 0.0 <= epsilon
    ensures Weights(EntriesOf(scores, epsilon)) == 1.0
  {
    var ranked, total := Arrange(scores, AheadOf), TotalScore(scores);
    RankedMembers(scores);
    TotalPositive(scores);
    WeightsOfSome(scores, ranked, total, epsilon);
    WholeShare(total, epsilon);
    ShareBounds(epsilon, |ranked|);
  }

  lemma WholeShare(total: real, epsilon: real)
    requires 0.0 < total
    ensures Scaled(Ratio(total, total), 1.0 - epsilon) == 1.0 - epsilon
  {
    assert Ratio(total, total) == 1.0;
  }

  // ----- ranks -----

  const ScoreKey: Assessed -> string := (s: Assessed) => CandidateKey(s.candidate)

  lemma AheadOrder()
    ensures WeakOrder(AheadOf)
  {
    forall a, b | AheadOf(a, b) ensures !AheadOf(b, a) {
      LessTotal(ScoreKey(a), ScoreKey(b));
    }
    forall a, b, c | !AheadOf(b, a) && !AheadOf(c, b) ensures !AheadOf(c, a) {
      KeysOrder(ScoreKey);
      assert !ByKey(ScoreKey)(b, a) && !ByKey(ScoreKey)(c, b) ==> !ByKey(ScoreKey)(c, a);
    }
  }

  lemma {:induction false} IndexAt(ranked: seq<Assessed>, k: nat)
    requires DistinctKeys(ranked, ScoreKey) && k < |ranked|
    ensures IndexOf(ranked, ranked[k]) == k
  {
    assert ranked[IndexOf(ranked, ranked[k])] == ranked[k];
  }

  lemma RankedDistinct(scores: seq<Assessed>)
    requires DistinctKeys(scores, ScoreKey)
    ensures DistinctKeys(Arrange(scores, AheadOf), ScoreKey)
  {
    ArrangeDistinct(scores, AheadOf, ScoreKey);
  }

  /** Ranks follow the scores: one entry ranks before another exactly if it is ahead of it. */
  lemma RankOrders(scores: seq<Assessed>, epsilon: real, i: nat, j: nat)
    requires DistinctKeys(scores, ScoreKey) && i < |scores| && j < |scores| && i != j
    ensures EntriesOf(scores, epsilon)[i].rank < EntriesOf(scores, epsilon)[j].rank <==> Ahead(scores[i], scores[j])
  {
    var ranked := Arrange(scores, AheadOf);
    RankedMembers(scores);
    AheadOrder();
    ArrangeArranges(scores, AheadOf);
    assert scores[i] in scores && scores[j] in scores;
    var a, b := IndexOf(ranked, scores[i]), IndexOf(ranked, scores[j]);
    assert ranked[a] == scores[i] && ranked[b] == scores[j];
    assert ScoreKey(scores[i]) != ScoreKey(scores[j]);
    LessTotal(ScoreKey(scores[i]), ScoreKey(scores[j]));
    if a < b {
      assert !AheadOf(ranked[b], ranked[a]);
    } else {
      assert a != b;
      assert !AheadOf(ranked[a], ranked[b]);
    }
  }

  ghost predicate Ranked(entries: seq<Entry>, i: int, rank: nat) {
    0 <= i < |entries| && entries[i].rank == rank
  }

  lemma RankOf(scores: seq<Assessed>, epsilon: real, i: nat, rank: nat)
    requires DistinctKeys(scores, ScoreKey) && 1 <= rank <= |scores| && i < |scores|
    ensures |Arrange(scores, AheadOf)| == |scores|
    ensures EntriesOf(scores, epsilon)[i].rank == rank <==> scores[i] == Arrange(scores, AheadOf)[rank - 1]
  {
    var ranked := Arrange(scores, AheadOf);
    RankedMembers(scores);
    RankedDistinct(scores);
    IndexAt(ranked, rank - 1);
    assert scores[i] in scores;
    assert ranked[IndexOf(ranked, scores[i])] == scores[i];
  }

  /** Every rank from one to the number of entries is given to exactly one entry. */
  lemma RanksPermute(scores: seq<Assessed>, epsilon: real, rank: nat)
    requires DistinctKeys(scores, ScoreKey) && 1 <= rank <= |scores|
    ensures exists i :: Ranked(EntriesOf(scores, epsilon), i, rank)
    ensures forall i, j :: Ranked(EntriesOf(scores, epsilon), i, rank) && Ranked(EntriesOf(scores, epsilon), j, rank) ==> i == j
  {
    var entries := EntriesOf(scores, epsilon);
    var i := WhoRanks(scores, rank);
    RankOf(scores, epsilon, i, rank);
    assert Ranked(entries, i, rank);
    forall j | Ranked(entries, j, rank) ensures j == i {
      RankOf(scores, epsilon, j, rank);
      assert ScoreKey(scores[i]) == ScoreKey(scores[j]);
    }
  }

  lemma WhoRanks(scores: seq<Assessed>, rank: nat) returns (i: nat)
    requires 1 <= rank <= |scores|
    ensures |Arrange(scores, AheadOf)| == |scores| && i < |scores| && scores[i] == Arrange(scores, AheadOf)[rank - 1]
  {
    RankedMembers(scores);
    assert Arrange(scores, AheadOf)[rank - 1] in scores;
    i :| 0 <= i < |scores| && scores[i] == Arrange(scores, AheadOf)[rank - 1];
  }

  // ----- the result -----

  /** What a maintainer expects of a scored list, beyond its schema. */
  ghost predicate Sound(entries: seq<Entry>, scores: seq<Assessed>, epsilon: real) {
    && |entries| == |scores|
    && Inside(scores)
    && (forall i :: 0 <= i < |scores| ==> SoundAt(entries, scores, epsilon, i))
  }

  ghost predicate SoundAt(entries: seq<Entry>, scores: seq<Assessed>, epsilon: real, i: nat)
    requires i < |entries| == |scores|
  {
    && entries[i].candidate == scores[i].candidate
    && Ratio(epsilon, |entries| as real) <= entries[i].weight <= 1.0
    && 1 <= entries[i].rank <= |entries|
    && (forall j :: 0 <= j < |scores| && scores[i].score <= scores[j].score ==> entries[i].weight <= entries[j].weight)
  }

  lemma EntriesSound(scores: seq<Assessed>, epsilon: real)
    requires Inside(scores) && 0.0 <= epsilon <= 1.0
    ensures Sound(EntriesOf(scores, epsilon), scores, epsilon)
  {
    var entries, ranked, total := EntriesOf(scores, epsilon), Arrange(scores, AheadOf), TotalScore(scores);
    RankedMembers(scores);
    TotalPositive(scores);
    forall i | 0 <= i < |scores| ensures SoundAt(entries, scores, epsilon, i) {
      assert scores[i] in scores;
      WeightBounds(scores[i].score, total, epsilon, |ranked|);
      forall j | 0 <= j < |scores| && scores[i].score <= scores[j].score ensures entries[i].weight <= entries[j].weight {
        WeightMonotone(scores[i].score, scores[j].score, total, epsilon, |ranked|);
      }
    }
  }

  lemma AssessedDistinct(scope: Scope, rows: seq<Row>, candidates: seq<Candidate>)
    requires ValidPolicy(scope.setting.policy) && DistinctKeys(candidates, KeyOf)
    ensures DistinctKeys(AssessAll(scope, rows, Sort(candidates, KeyOf)), ScoreKey)
  {
    SortDistinct(candidates, KeyOf);
  }

  lemma EntriesDistinct(scores: seq<Assessed>, epsilon: real)
    requires DistinctKeys(scores, ScoreKey)
    ensures var entries := EntriesOf(scores, epsilon);
            && DistinctKeys(entries, EntryKey)
            && forall i, j :: 0 <= i < j < |entries| ==> entries[i].rank != entries[j].rank
  {
    var entries := EntriesOf(scores, epsilon);
    forall i, j | 0 <= i < j < |entries| ensures entries[i].rank != entries[j].rank {
      RankOrders(scores, epsilon, i, j);
      RankOrders(scores, epsilon, j, i);
      LessTotal(ScoreKey(scores[i]), ScoreKey(scores[j]));
      assert ScoreKey(scores[i]) != ScoreKey(scores[j]);
    }
  }

  /** The scores behind a result, in the order of its entries. */
  function ScoresOf(config: Config, request: Request, model: Model, setting: Setting): seq<Assessed>
    requires ValidPolicy(setting.policy)
  {
    AssessAll(ScopeOf(config, setting, request, model), model.rows, Sort(request.candidates, KeyOf))
  }

  lemma ScoredFrom(config: Config, request: Request, model: Model, now: int)
    requires Valid(config, request, model) && Score(config, request, model, now).Ok?
    ensures var setting := ResolveRequest(config, request, now).value;
            && ValidPolicy(setting.policy)
            && Score(config, request, model, now).value
               == ResultOf(config, setting, request, model, EntriesOf(ScoresOf(config, request, model, setting), setting.policy.epsilon))
  {
    SettingIsValid(config, request, now);
  }

  /** What the entries of a result are: the assessed candidates, each once, soundly weighted and ranked. */
  lemma ScoresAreSound(config: Config, request: Request, model: Model, setting: Setting)
    requires Valid(config, request, model) && ValidPolicy(setting.policy)
    ensures var scores := ScoresOf(config, request, model, setting);
            && DistinctKeys(scores, ScoreKey)
            && |scores| == |request.candidates|
            && (forall s :: s in scores ==> s.candidate in request.candidates)
            && Sound(EntriesOf(scores, setting.policy.epsilon), scores, setting.policy.epsilon)
  {
    var scope := ScopeOf(config, setting, request, model);
    var sorted := Sort(request.candidates, KeyOf);
    var scores := AssessAll(scope, model.rows, sorted);
    SortAscends(request.candidates, KeyOf);
    ScoresInside(scope, model.rows, sorted);
    AssessedDistinct(scope, model.rows, request.candidates);
    EntriesSound(scores, setting.policy.epsilon);
    forall s | s in scores ensures s.candidate in request.candidates {
      var i :| 0 <= i < |scores| && scores[i] == s;
      assert s.candidate == sorted[i];
    }
  }

  lemma EntriesValid(scores: seq<Assessed>, epsilon: real)
    requires Inside(scores) && DistinctKeys(scores, ScoreKey) && 0.0 <= epsilon <= 1.0
    ensures var entries := EntriesOf(scores, epsilon);
            && DistinctKeys(entries, EntryKey)
            && (forall i, j :: 0 <= i < j < |entries| ==> entries[i].rank != entries[j].rank)
            && (forall e :: e in entries ==> e.rank <= |entries| && 0.0 <= e.weight <= 1.0)
            && (entries != [] ==> Weights(entries) == 1.0)
  {
    EntriesDistinct(scores, epsilon);
    EntriesWeighted(scores, epsilon);
  }

  /** Whatever is scored meets the result schema: weights are probabilities, ranks and keys are distinct. */
  lemma ResultIsValid(config: Config, request: Request, model: Model, now: int)
    requires Valid(config, request, model) && Score(config, request, model, now).Ok?
    ensures var r := Score(config, request, model, now).value;
            && ValidResult(r)
            && |r.entries| == |request.candidates|
            && (forall e :: e in r.entries ==> e.candidate in request.candidates)
  {
    ScoredFrom(config, request, model, now);
    SettingIsValid(config, request, now);
    var setting := ResolveRequest(config, request, now).value;
    var scores := ScoresOf(config, request, model, setting);
    ScoresAreSound(config, request, model, setting);
    EntriesValid(scores, setting.policy.epsilon);
    var entries := EntriesOf(scores, setting.policy.epsilon);
    forall e | e in entries ensures e.candidate in request.candidates {
      var i :| 0 <= i < |entries| && entries[i] == e;
      assert scores[i] in scores;
    }
  }

  lemma EntriesWeighted(scores: seq<Assessed>, epsilon: real)
    requires Inside(scores) && 0.0 <= epsilon <= 1.0
    ensures var entries := EntriesOf(scores, epsilon);
            && (entries != [] ==> Weights(entries) == 1.0)
            && forall e :: e in entries ==> e.rank <= |entries| && 0.0 <= e.weight <= 1.0
  {
    var entries := EntriesOf(scores, epsilon);
    EntriesSound(scores, epsilon);
    if scores != [] {
      WeightsSumToOne(scores, epsilon);
      ShareBounds(epsilon, |entries|);
    }
    forall e | e in entries ensures e.rank <= |entries| && 0.0 <= e.weight <= 1.0 {
      var i :| 0 <= i < |entries| && entries[i] == e;
      assert SoundAt(entries, scores, epsilon, i);
    }
  }

  // ----- the consumer's check -----

  /** A consumer binds a result to its exact request before using it. */
  function ValidateRecommendations(r: Recommendation, q: Request, now: int): Option<Recommendation> {
    if !ValidResult(r) || !ValidRequest(q) || now < 0
       || r.inputDigest != DigestOf(q)
       || r.generatedAt > now || r.generatedAt < q.generatedAt
       || r.expiresAt <= now || r.expiresAt > q.expiresAt
       || r.requestId != q.requestId || r.appId != q.appId || r.appRevision != q.appRevision
       || r.policyId != q.policyId || r.policyVersion != q.policyVersion
       || r.contextId != q.contextId || r.measurementProfileId != q.measurementProfileId
       || r.kind != q.kind || r.seed != q.seed
       || |r.entries| != |q.candidates|
       || (exists e :: e in r.entries && !Asked(q, e.candidate))
    then None
    else Some(r)
  }

  predicate Asked(q: Request, wanted: Candidate) {
    exists c :: c in q.candidates && CandidateKey(c) == CandidateKey(wanted) && c.ruleRevision == wanted.ruleRevision
  }

  /** What is scored for a request is accepted for that request exactly from its generation to its expiry. */
  lemma ScoredIsAccepted(config: Config, request: Request, model: Model, now: int, t: int)
    requires Valid(config, request, model) && Score(config, request, model, now).Ok?
    ensures var r := Score(config, request, model, now).value;
            && r.generatedAt <= now < r.expiresAt
            && (ValidateRecommendations(r, request, t) == Some(r) <==> r.generatedAt <= t < r.expiresAt)
  {
    var r := Score(config, request, model, now).value;
    ResultIsValid(config, request, model, now);
    AllAsked(r, request);
    ScoredRepeats(config, request, model, now);
    AcceptedIffCurrent(r, request, t);
  }

  /** The result repeats what its request says. */
  ghost predicate Repeats(r: Recommendation, q: Request) {
    && r.inputDigest == DigestOf(q)
    && r.requestId == q.requestId && r.appId == q.appId && r.appRevision == q.appRevision
    && r.policyId == q.policyId && r.policyVersion == q.policyVersion
    && r.contextId == q.contextId && r.measurementProfileId == q.measurementProfileId
    && r.kind == q.kind && r.seed == q.seed
  }

  lemma ScoredRepeats(config: Config, request: Request, model: Model, now: int)
    requires Valid(config, request, model) && Score(config, request, model, now).Ok?
    ensures var r := Score(config, request, model, now).value;
            Repeats(r, request) && 0 <= request.generatedAt <= r.generatedAt <= now < r.expiresAt <= request.expiresAt
  {
    SettingIsValid(config, request, now);
  }

  lemma AcceptedIffCurrent(r: Recommendation, q: Request, t: int)
    requires ValidResult(r) && ValidRequest(q) && Repeats(r, q) && |r.entries| == |q.candidates|
    requires 0 <= q.generatedAt <= r.generatedAt && r.expiresAt <= q.expiresAt
    requires forall e :: e in r.entries ==> Asked(q, e.candidate)
    ensures ValidateRecommendations(r, q, t) == Some(r) <==> r.generatedAt <= t < r.expiresAt
  {}

  lemma AllAsked(r: Recommendation, q: Request)
    requires forall e :: e in r.entries ==> e.candidate in q.candidates
    ensures forall e :: e in r.entries ==> Asked(q, e.candidate)
  {}

  /** A result that a consumer accepts answers every candidate of the request, exactly once. */
  lemma AcceptedAnswersAll(r: Recommendation, q: Request, now: int, c: Candidate)
    requires ValidateRecommendations(r, q, now) == Some(r) && c in q.candidates
    ensures exists e :: e in r.entries && e.candidate == c
  {
    var answered, asked := set e | e in r.entries :: e.candidate, set d | d in q.candidates;
    forall d | d in answered ensures d in asked {
      var e :| e in r.entries && e.candidate == d;
      assert Asked(q, d);
      var a :| a in q.candidates && CandidateKey(a) == CandidateKey(d) && a.ruleRevision == d.ruleRevision;
      KeyInjective(a, d);
    }
    EntryCount(r.entries);
    CandidateCount(q.candidates);
    if c !in answered {
      assert answered <= asked - {c};
      SubsetSize(answered, asked - {c});
      assert false;
    }
  }

  lemma {:induction false} EntryCount(entries: seq<Entry>)
    requires DistinctKeys(entries, EntryKey)
    ensures |(set e | e in entries :: e.candidate)| == |entries|
  {
    if entries != [] {
      var rest := entries[1..];
      assert entries == [entries[0]] + rest;
      DistinctCons(entries[0], rest, EntryKey);
      EntryCount(rest);
      var some := set e | e in rest :: e.candidate;
      assert (set e | e in entries :: e.candidate) == some + {entries[0].candidate};
    }
  }

  lemma {:induction false} CandidateCount(cs: seq<Candidate>)
    ensures |(set c | c in cs)| <= |cs|
  {
    if cs != [] {
      CandidateCount(cs[1..]);
      assert (set c | c in cs) == (set c | c in cs[1..]) + {cs[0]};
    }
  }
}
