/** The vocabulary of the recommendation learner: registrations, requests, evidence and results, with their schemas. */
module Recommendations {
  import opened Prelude
  import opened Ordering

  type Time = int

  const Day := 86_400_000
  const MaxSafe := 9_007_199_254_740_991

  predicate IdChar(c: char) {
    'a' <= c <= 'z' || '0' <= c <= '9' || c == '_' || c == '-'
  }

  predicate ValidId(s: string) {
    1 <= |s| <= 64 && s[0] != '_' && s[0] != '-' && forall i :: 0 <= i < |s| ==> IdChar(s[i])
  }

  type Id = s: string | ValidId(s) witness "a"

  type Count = n: nat | n <= MaxSafe

  // ----- registrations -----

  datatype Policy = Policy(
    policyId: Id,
    version: Positive,
    alpha: real,
    beta: real,
    epsilon: real,
    sharing: bool,
    minSharedExposures: Positive,
    minSharedDays: Positive,
    sharedStrength: real,
    singleAppStrength: real,
    maxAppShare: real)

  datatype Subject = Subject(
    subjectId: Id,
    ruleRevision: Positive,
    enabled: bool,
    canonicalSubjectId: Option<Id>,
    mappingVersion: Positive,
    entityRefs: seq<Id>)

  datatype Context = Context(
    contextId: Id,
    measurementProfileId: Id,
    learningGroupId: Option<Id>,
    cohortId: Option<Id>)

  datatype Entity = Entity(entityRef: Id, provider: Id, catalogScope: Id, productId: string)

  datatype App = App(appId: Id, appRevision: Positive, producerId: Id, contexts: seq<Context>, subjects: seq<Subject>)

  datatype Config = Config(policies: seq<Policy>, entities: seq<Entity>, apps: seq<App>)

  ghost predicate ValidPolicy(p: Policy) {
    && 0.0 < p.alpha <= 1000.0
    && 0.0 < p.beta <= 1000.0
    && 0.0 <= p.epsilon <= 1.0
    && 0.0 < p.singleAppStrength <= p.sharedStrength <= 100.0
    && 0.5 <= p.maxAppShare <= 1.0
    && p.minSharedDays <= 14
  }

  ghost predicate ValidApp(a: App, entities: seq<Entity>) {
    && (forall i, j :: 0 <= i < j < |a.subjects| ==> a.subjects[i].subjectId != a.subjects[j].subjectId)
    && (forall i, j :: 0 <= i < j < |a.contexts| ==> a.contexts[i].contextId != a.contexts[j].contextId)
    && (forall c :: c in a.contexts ==> (c.learningGroupId.Some? <==> c.cohortId.Some?))
    && (forall s, e :: s in a.subjects && e in s.entityRefs ==> HasEntity(entities, e))
  }

  ghost predicate ValidConfig(c: Config) {
    && (forall p :: p in c.policies ==> ValidPolicy(p))
    && (forall a :: a in c.apps ==> ValidApp(a, c.entities))
    && (forall i, j :: 0 <= i < j < |c.policies| ==> c.policies[i].policyId != c.policies[j].policyId)
    && (forall i, j :: 0 <= i < j < |c.apps| ==> c.apps[i].appId != c.apps[j].appId)
    && (forall i, j :: 0 <= i < j < |c.apps| ==> c.apps[i].producerId != c.apps[j].producerId)
    && (forall i, j :: 0 <= i < j < |c.entities| ==> c.entities[i].entityRef != c.entities[j].entityRef)
  }

  function FindPolicy(policies: seq<Policy>, id: Id): (found: Option<Policy>)
    ensures found.Some? ==> found.value in policies && found.value.policyId == id
    ensures found.None? ==> forall p :: p in policies ==> p.policyId != id
  {
    if policies == [] then None else if policies[0].policyId == id then Some(policies[0]) else FindPolicy(policies[1..], id)
  }

  function FindApp(apps: seq<App>, id: Id): (found: Option<App>)
    ensures found.Some? ==> found.value in apps && found.value.appId == id
    ensures found.None? ==> forall a :: a in apps ==> a.appId != id
  {
    if apps == [] then None else if apps[0].appId == id then Some(apps[0]) else FindApp(apps[1..], id)
  }

  function FindSubject(subjects: seq<Subject>, id: Id): (found: Option<Subject>)
    ensures found.Some? ==> found.value in subjects && found.value.subjectId == id
    ensures found.None? ==> forall s :: s in subjects ==> s.subjectId != id
  {
    if subjects == [] then None else if subjects[0].subjectId == id then Some(subjects[0]) else FindSubject(subjects[1..], id)
  }

  function FindContext(contexts: seq<Context>, id: Id): (found: Option<Context>)
    ensures found.Some? ==> found.value in contexts && found.value.contextId == id
    ensures found.None? ==> forall c :: c in contexts ==> c.contextId != id
  {
    if contexts == [] then None else if contexts[0].contextId == id then Some(contexts[0]) else FindContext(contexts[1..], id)
  }

  predicate HasEntity(entities: seq<Entity>, ref: Id) {
    exists e :: e in entities && e.entityRef == ref
  }

  /** The subject an app registers under an id. */
  function SubjectOf(c: Config, appId: Id, subjectId: Id): Option<Subject> {
    var app := FindApp(c.apps, appId);
    if app.None? then None else FindSubject(app.value.subjects, subjectId)
  }

  function ContextOf(c: Config, appId: Id, contextId: Id): Option<Context> {
    var app := FindApp(c.apps, appId);
    if app.None? then None else FindContext(app.value.contexts, contextId)
  }

  lemma OneSubject(app: App, entities: seq<Entity>, x: Subject, y: Subject)
    requires ValidApp(app, entities) && x in app.subjects && y in app.subjects && x.subjectId == y.subjectId
    ensures x == y
  {
    var i :| 0 <= i < |app.subjects| && app.subjects[i] == x;
    var j :| 0 <= j < |app.subjects| && app.subjects[j] == y;
  }

  lemma OneContext(app: App, entities: seq<Entity>, x: Context, y: Context)
    requires ValidApp(app, entities) && x in app.contexts && y in app.contexts && x.contextId == y.contextId
    ensures x == y
  {
    var i :| 0 <= i < |app.contexts| && app.contexts[i] == x;
    var j :| 0 <= j < |app.contexts| && app.contexts[j] == y;
  }

  lemma OneApp(config: Config, x: App, y: App)
    requires ValidConfig(config) && x in config.apps && y in config.apps && x.appId == y.appId
    ensures x == y
  {
    var i :| 0 <= i < |config.apps| && config.apps[i] == x;
    var j :| 0 <= j < |config.apps| && config.apps[j] == y;
  }

  /** An app of the configuration registers exactly this subject. */
  ghost predicate Registers(c: Config, appId: Id, x: Subject) {
    exists a :: a in c.apps && a.appId == appId && x in a.subjects
  }

  ghost predicate RegistersContext(c: Config, appId: Id, x: Context) {
    exists a :: a in c.apps && a.appId == appId && x in a.contexts
  }

  lemma SubjectOfIs(c: Config, appId: Id, subjectId: Id, x: Subject)
    requires ValidConfig(c)
    ensures SubjectOf(c, appId, subjectId) == Some(x) <==> Registers(c, appId, x) && x.subjectId == subjectId
  {
    if Registers(c, appId, x) && x.subjectId == subjectId {
      var a :| a in c.apps && a.appId == appId && x in a.subjects;
      OneApp(c, a, FindApp(c.apps, appId).value);
      assert ValidApp(a, c.entities);
      OneSubject(a, c.entities, x, FindSubject(a.subjects, subjectId).value);
    }
  }

  lemma ContextOfIs(c: Config, appId: Id, contextId: Id, x: Context)
    requires ValidConfig(c)
    ensures ContextOf(c, appId, contextId) == Some(x) <==> RegistersContext(c, appId, x) && x.contextId == contextId
  {
    if RegistersContext(c, appId, x) && x.contextId == contextId {
      var a :| a in c.apps && a.appId == appId && x in a.contexts;
      OneApp(c, a, FindApp(c.apps, appId).value);
      assert ValidApp(a, c.entities);
      OneContext(a, c.entities, x, FindContext(a.contexts, contextId).value);
    }
  }

  // ----- candidates and requests -----

  datatype Candidate = Candidate(subjectId: Id, ruleRevision: Positive, entityRef: Option<Id>)

  function Quoted(s: string): string {
    "\"" + s + "\""
  }

  /** The JSON text that identifies and orders candidates: `["subject","entity"]` or `["subject",null]`. */
  function CandidateKey(c: Candidate): string {
    "[" + Quoted(c.subjectId) + "," + (if c.entityRef.Some? then Quoted(c.entityRef.value) else "null") + "]"
  }

  datatype Kind = SubjectKind | ProductKind

  datatype Request = Request(
    requestId: Id,
    appId: Id,
    appRevision: Positive,
    policyId: Id,
    policyVersion: Positive,
    contextId: Id,
    measurementProfileId: Id,
    kind: Kind,
    generatedAt: nat,
    expiresAt: nat,
    seed: string,
    candidates: seq<Candidate>)

  const KeyOf: Candidate -> string := (c: Candidate) => CandidateKey(c)

  predicate ValidRequest(r: Request) {
    && 0 < r.expiresAt - r.generatedAt <= Day
    && |r.candidates| <= 1000
    && DistinctKeys(r.candidates, KeyOf)
    && (r.kind.SubjectKind? ==>
          forall i, j :: 0 <= i < j < |r.candidates| ==> r.candidates[i].subjectId != r.candidates[j].subjectId)
    && (r.kind.ProductKind? ==>
          && (forall c :: c in r.candidates ==> c.entityRef.Some?)
          && (forall i, j :: 0 <= i < j < |r.candidates| ==> r.candidates[i].subjectId == r.candidates[j].subjectId))
  }

  // ----- evidence -----

  datatype Experiment = Training | Holdout

  datatype Row = Row(
    appId: Id,
    subjectId: Id,
    ruleRevision: Positive,
    mappingVersion: Positive,
    entityRef: Option<Id>,
    contextId: Id,
    measurementProfileId: Id,
    day: nat,
    experiment: Experiment,
    exposures: Count,
    clicks: Count,
    dispatches: Count)

  datatype EvidenceKey = EvidenceKey(
    appId: Id,
    subjectId: Id,
    ruleRevision: Positive,
    mappingVersion: Positive,
    entityRef: Option<Id>,
    contextId: Id,
    measurementProfileId: Id,
    day: nat,
    experiment: Experiment)

  function KeyOfRow(r: Row): EvidenceKey {
    EvidenceKey(r.appId, r.subjectId, r.ruleRevision, r.mappingVersion, r.entityRef, r.contextId,
                r.measurementProfileId, r.day, r.experiment)
  }

  predicate ValidRow(r: Row) {
    r.day % Day == 0 && r.dispatches <= r.clicks <= r.exposures
  }

  /** A model is identified by its content: its id is a digest of what it was built from. */
  datatype Model = Model(modelGenerationId: ModelId, generatedAt: nat, rows: seq<Row>)

  datatype ModelId = ModelId(config: Config, builtAt: nat, rows: set<Row>)

  predicate ValidModel(m: Model) {
    && (forall r :: r in m.rows ==> ValidRow(r))
    && (forall i, j :: 0 <= i < j < |m.rows| ==> KeyOfRow(m.rows[i]) != KeyOfRow(m.rows[j]))
    && |m.rows| <= 100_000
  }

  // ----- results -----

  datatype Confidence = Prior | Local | Shared

  datatype Why = ColdStart | LocalEvidence | SharedPrior | InsufficientSharedEvidence

  datatype Entry = Entry(candidate: Candidate, weight: real, rank: Positive, confidence: Confidence, why: Why)

  /** The digest of a request does not depend on the order of its candidates. */
  datatype RequestDigest = RequestDigest(request: Request)

  function DigestOf(r: Request): RequestDigest {
    RequestDigest(r.(candidates := Sort(r.candidates, KeyOf)))
  }

  /** The digest of everything that a scoring depends on. */
  datatype DecisionId = DecisionId(input: RequestDigest, config: Config, modelId: ModelId, modelTime: nat, rows: set<Row>)

  datatype Reason = Scored | NoEligibleCandidates

  datatype Recommendation = Recommendation(
    requestId: Id,
    decisionId: DecisionId,
    appId: Id,
    appRevision: Positive,
    policyId: Id,
    policyVersion: Positive,
    modelGenerationId: ModelId,
    inputDigest: RequestDigest,
    generatedAt: nat,
    expiresAt: nat,
    contextId: Id,
    measurementProfileId: Id,
    kind: Kind,
    seed: string,
    reason: Reason,
    entries: seq<Entry>)

  const EntryKey: Entry -> string := (e: Entry) => CandidateKey(e.candidate)

  function Weights(entries: seq<Entry>): real {
    if entries == [] then 0.0 else entries[0].weight + Weights(entries[1..])
  }

  predicate ValidResult(v: Recommendation) {
    && |v.entries| <= 1000
    && DistinctKeys(v.entries, EntryKey)
    && (forall i, j :: 0 <= i < j < |v.entries| ==> v.entries[i].rank != v.entries[j].rank)
    && (forall e :: e in v.entries ==> e.rank <= |v.entries| && 0.0 <= e.weight <= 1.0)
    && v.generatedAt < v.expiresAt
    && (v.entries == [] <==> v.reason == NoEligibleCandidates)
    && (v.entries != [] ==> Weights(v.entries) == 1.0)
  }

  // ----- candidate keys are injective -----

  /** Reading a key back: the text up to the next quote. */
  function UpToQuote(s: string): string {
    if s == "" || s[0] == '\"' then "" else [s[0]] + UpToQuote(s[1..])
  }

  lemma {:induction false} ReadsBack(id: string, rest: string)
    requires forall i :: 0 <= i < |id| ==> id[i] != '\"'
    ensures UpToQuote(id + "\"" + rest) == id
  {
    if id != "" {
      ReadsBack(id[1..], rest);
      assert (id + "\"" + rest)[1..] == id[1..] + "\"" + rest;
    }
  }

  function EntityPart(c: Candidate): string {
    if c.entityRef.Some? then Quoted(c.entityRef.value) else "null"
  }

  lemma ReadSubject(c: Candidate)
    ensures |CandidateKey(c)| >= |c.subjectId| + 4
    ensures UpToQuote(CandidateKey(c)[2..]) == c.subjectId
    ensures CandidateKey(c)[|c.subjectId| + 4..] == EntityPart(c) + "]"
  {
    var rest := "," + EntityPart(c) + "]";
    assert CandidateKey(c)[2..] == c.subjectId + "\"" + rest;
    ReadsBack(c.subjectId, rest);
  }

  lemma ReadEntity(c: Candidate)
    ensures c.entityRef == if (EntityPart(c) + "]")[0] == '\"' then Some(UpToQuote((EntityPart(c) + "]")[1..])) else None
  {
    if c.entityRef.Some? {
      var id := c.entityRef.value;
      assert (EntityPart(c) + "]")[1..] == id + "\"" + "]";
      ReadsBack(id, "]");
    }
  }

  /** Two candidates have the same key exactly when they are the same subject and entity. */
  lemma KeyInjective(a: Candidate, b: Candidate)
    ensures CandidateKey(a) == CandidateKey(b) <==> a.subjectId == b.subjectId && a.entityRef == b.entityRef
  {
    ReadSubject(a);
    ReadSubject(b);
    if CandidateKey(a) == CandidateKey(b) {
      assert EntityPart(a) + "]" == EntityPart(b) + "]";
      ReadEntity(a);
      ReadEntity(b);
    }
  }
}
