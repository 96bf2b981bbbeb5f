/** Which evidence counts for a request, and what it adds up to. */
module Evidence {
  import opened Prelude
  import opened Ordering
  import opened Recommendations

  datatype Error =
    | ExpiredRequest
    | UnknownRegistration
    | UnknownCandidate
    | StaleModel
    | UnknownEvidence
    | Overflow

  /** The registrations a request resolves to. */
  datatype Setting = Setting(app: App, policy: Policy, context: Context)

  predicate Registered(app: App, c: Candidate) {
    var subject := FindSubject(app.subjects, c.subjectId);
    && subject.Some?
    && subject.value.enabled
    && subject.value.ruleRevision == c.ruleRevision
    && (c.entityRef.Some? ==> c.entityRef.value in subject.value.entityRefs)
  }

  function ResolveRequest(config: Config, request: Request, now: int): Result<Setting, Error> {
    if now < 0 || request.generatedAt > now || request.expiresAt <= now then Err(ExpiredRequest)
    else
      var app := FindApp(config.apps, request.appId);
      var policy := FindPolicy(config.policies, request.policyId);
      if app.None? || policy.None? || app.value.appRevision != request.appRevision || policy.value.version != request.policyVersion
      then Err(UnknownRegistration)
      else
        var context := FindContext(app.value.contexts, request.contextId);
        if context.None? || context.value.measurementProfileId != request.measurementProfileId then Err(UnknownRegistration)
        else if exists c :: c in request.candidates && !Registered(app.value, c) then Err(UnknownCandidate)
        else Ok(Setting(app.value, policy.value, context.value))
  }

  /** The last day that a model of this time has sealed: it ended at least two days before. */
  function LastDay(generatedAt: int): int {
    (generatedAt - 2 * Day) / Day * Day - Day
  }

  predicate InWindow(day: int, generatedAt: int) {
    LastDay(generatedAt) - 13 * Day <= day <= LastDay(generatedAt)
  }

  /** A row belongs to registrations that exist, and its day is sealed. */
  predicate RowRegistered(config: Config, generatedAt: int, row: Row) {
    var subject, context := SubjectOf(config, row.appId, row.subjectId), ContextOf(config, row.appId, row.contextId);
    && subject.Some?
    && context.Some?
    && context.value.measurementProfileId == row.measurementProfileId
    && (row.entityRef.Some? ==>
          && HasEntity(config.entities, row.entityRef.value)
          && (subject.value.ruleRevision == row.ruleRevision && subject.value.mappingVersion == row.mappingVersion ==>
                row.entityRef.value in subject.value.entityRefs))
    && row.day + Day <= generatedAt - 2 * Day
  }

  predicate ModelRegistered(config: Config, model: Model) {
    forall row :: row in model.rows ==> RowRegistered(config, model.generatedAt, row)
  }

  // ----- keys under which evidence is collected -----

  datatype Key = OfSubject(id: Id) | OfEntity(ref: Id) | OfCanonical(id: Id, mappingVersion: Positive)

  function LocalKey(kind: Kind, subjectId: Id, entityRef: Option<Id>): Option<Key> {
    match kind
    case SubjectKind => Some(OfSubject(subjectId))
    case ProductKind => if entityRef.Some? then Some(OfEntity(entityRef.value)) else None
  }

  function SharedKey(kind: Kind, subject: Subject, entityRef: Option<Id>): Option<Key> {
    match kind
    case SubjectKind =>
      if subject.canonicalSubjectId.Some? then Some(OfCanonical(subject.canonicalSubjectId.value, subject.mappingVersion)) else None
    case ProductKind => if entityRef.Some? then Some(OfEntity(entityRef.value)) else None
  }

  /** Training evidence of the window whose subject is still registered with the same lineage. */
  predicate Counted(config: Config, generatedAt: int, row: Row) {
    var subject := SubjectOf(config, row.appId, row.subjectId);
    && row.experiment == Training
    && InWindow(row.day, generatedAt)
    && subject.Some?
    && subject.value.enabled
    && subject.value.ruleRevision == row.ruleRevision
    && subject.value.mappingVersion == row.mappingVersion
  }

  /** Everything that decides where a row counts. */
  datatype Scope = Scope(config: Config, setting: Setting, kind: Kind, generatedAt: int) {
    /** The app's own evidence in the requested context. */
    function Local(row: Row): Option<Key> {
      if Counted(config, generatedAt, row) && row.appId == setting.app.appId && row.contextId == setting.context.contextId
         && row.measurementProfileId == setting.context.measurementProfileId
      then LocalKey(kind, row.subjectId, row.entityRef)
      else None
    }

    /** Evidence of other apps in contexts of the same learning group and cohort, when sharing is on. */
    function Shared(row: Row): Option<Key> {
      var subject, other := SubjectOf(config, row.appId, row.subjectId), ContextOf(config, row.appId, row.contextId);
      if Counted(config, generatedAt, row) && setting.policy.sharing && setting.context.learningGroupId.Some?
         && row.appId != setting.app.appId && row.measurementProfileId == setting.context.measurementProfileId
         && other.Some? && other.value.learningGroupId == setting.context.learningGroupId
         && other.value.cohortId == setting.context.cohortId
      then SharedKey(kind, subject.value, row.entityRef)
      else None
    }
  }

  // ----- statistics -----

  datatype Stats = Stats(n: nat, c: nat, apps: map<Id, nat>, days: set<nat>)

  const NoStats := Stats(0, 0, map[], {})

  function Bump(apps: map<Id, nat>, app: Id, more: nat): map<Id, nat> {
    if more == 0 then apps else apps[app := more + if app in apps then apps[app] else 0]
  }

  function AddRow(s: Stats, row: Row): Stats {
    Stats(s.n + row.exposures, s.c + row.clicks, Bump(s.apps, row.appId, row.exposures),
          if row.exposures > 0 then s.days + {row.day} else s.days)
  }

  /** The statistics of the rows that a classification puts under a key. */
  function Collect(rows: seq<Row>, classify: Row -> Option<Key>, key: Key): Stats {
    if rows == [] then NoStats
    else
      var last := rows[|rows| - 1];
      var rest := Collect(rows[..|rows| - 1], classify, key);
      if classify(last) == Some(key) then AddRow(rest, last) else rest
  }

  /** No total leaves the safe integers. */
  ghost predicate Fits(rows: seq<Row>, classify: Row -> Option<Key>) {
    forall key :: Collect(rows, classify, key).n <= MaxSafe
  }

  lemma CollectNext(rows: seq<Row>, row: Row, classify: Row -> Option<Key>, key: Key)
    ensures Collect(rows + [row], classify, key)
            == if classify(row) == Some(key) then AddRow(Collect(rows, classify, key), row) else Collect(rows, classify, key)
  {
    assert (rows + [row])[..|rows|] == rows;
  }

  /** Clicks and the exposures of any one app stay below all exposures, and only apps with exposures are listed. */
  ghost predicate Consistent(s: Stats) {
    && s.c <= s.n
    && (forall a :: a in s.apps ==> 0 < s.apps[a] <= s.n)
  }

  lemma {:induction false} CollectConsistent(rows: seq<Row>, classify: Row -> Option<Key>, key: Key)
    requires forall r :: r in rows ==> ValidRow(r)
    ensures Consistent(Collect(rows, classify, key))
  {
    if rows != [] {
      CollectConsistent(rows[..|rows| - 1], classify, key);
      assert rows[|rows| - 1] in rows;
    }
  }

  lemma {:induction false} CollectGrows(rows: seq<Row>, k: nat, classify: Row -> Option<Key>, key: Key)
    requires k <= |rows|
    ensures Collect(rows[..k], classify, key).n <= Collect(rows, classify, key).n
    decreases |rows|
  {
    if k == |rows| {
      assert rows[..k] == rows;
    } else {
      CollectGrows(rows[..|rows| - 1], k, classify, key);
      assert rows[..|rows| - 1][..k] == rows[..k];
    }
  }

  // ----- order independence -----

  lemma BumpCommutes(apps: map<Id, nat>, a: Id, m: nat, b: Id, n: nat)
    ensures Bump(Bump(apps, a, m), b, n) == Bump(Bump(apps, b, n), a, m)
  {}

  lemma AddRowCommutes(s: Stats, x: Row, y: Row)
    ensures AddRow(AddRow(s, x), y) == AddRow(AddRow(s, y), x)
  {
    BumpCommutes(s.apps, x.appId, x.exposures, y.appId, y.exposures);
    assert AddRow(AddRow(s, x), y).days == AddRow(AddRow(s, y), x).days;
  }

  lemma {:induction false} MoveToEnd(a: seq<Row>, r: Row, b: seq<Row>, classify: Row -> Option<Key>, key: Key)
    ensures Collect(a + [r] + b, classify, key) == Collect(a + b + [r], classify, key)
    decreases |b|
  {
    if b == [] {
      assert a + [r] + b == a + b + [r];
    } else {
      var init, last := b[..|b| - 1], b[|b| - 1];
      var common := Collect(a + init, classify, key);
      MoveToEnd(a, r, init, classify, key);
      assert a + [r] + b == (a + [r] + init) + [last];
      assert a + b + [r] == ((a + init) + [last]) + [r];
      CollectNext(a + [r] + init, last, classify, key);
      CollectNext(a + init, r, classify, key);
      CollectNext(a + init, last, classify, key);
      CollectNext((a + init) + [last], r, classify, key);
      AddRowCommutes(common, r, last);
    }
  }

  lemma FindLast(init: seq<Row>, r: Row, ys: seq<Row>) returns (a: seq<Row>, b: seq<Row>)
    requires multiset(init + [r]) == multiset(ys)
    ensures ys == a + [r] + b && multiset(init) == multiset(a + b)
  {
    assert r in multiset(ys);
    var i :| 0 <= i < |ys| && ys[i] == r;
    a, b := ys[..i], ys[i + 1..];
    assert ys == a + [r] + b;
    assert multiset(init) == multiset(ys) - multiset{r} == multiset(a + b);
  }

  /** Statistics do not depend on the order of rows. */
  lemma {:induction false} CollectOrder(xs: seq<Row>, ys: seq<Row>, classify: Row -> Option<Key>, key: Key)
    requires multiset(xs) == multiset(ys)
    ensures Collect(xs, classify, key) == Collect(ys, classify, key)
    decreases |xs|
  {
    assert |multiset(xs)| == |multiset(ys)|;
    if xs != [] {
      var init, r := xs[..|xs| - 1], xs[|xs| - 1];
      assert xs == init + [r];
      var a, b := FindLast(init, r, ys);
      MoveToEnd(a, r, b, classify, key);
      CollectNext(a + b, r, classify, key);
      CollectNext(init, r, classify, key);
      CollectOrder(init, a + b, classify, key);
    }
  }

  /** Only the rows that are classified matter. */
  function Relevant(rows: seq<Row>, counts: Row -> bool): seq<Row> {
    if rows == [] then []
    else Relevant(rows[..|rows| - 1], counts) + if counts(rows[|rows| - 1]) then [rows[|rows| - 1]] else []
  }

  lemma {:induction false} CollectRelevant(rows: seq<Row>, classify: Row -> Option<Key>, counts: Row -> bool, key: Key)
    requires forall r :: classify(r).Some? ==> counts(r)
    ensures Collect(rows, classify, key) == Collect(Relevant(rows, counts), classify, key)
  {
    if rows != [] {
      var init, r := rows[..|rows| - 1], rows[|rows| - 1];
      CollectRelevant(init, classify, counts, key);
      if counts(r) {
        CollectNext(Relevant(init, counts), r, classify, key);
      } else {
        assert classify(r).None?;
        assert Relevant(rows, counts) == Relevant(init, counts) + [] == Relevant(init, counts);
      }
    }
  }

  /** Models that agree, in any order, on the rows that can count have the same statistics. */
  lemma SameRelevant(xs: seq<Row>, ys: seq<Row>, classify: Row -> Option<Key>, counts: Row -> bool)
    requires forall r :: classify(r).Some? ==> counts(r)
    requires multiset(Relevant(xs, counts)) == multiset(Relevant(ys, counts))
    ensures forall key :: Collect(xs, classify, key) == Collect(ys, classify, key)
    ensures Fits(xs, classify) <==> Fits(ys, classify)
  {
    forall key ensures Collect(xs, classify, key) == Collect(ys, classify, key) {
      CollectRelevant(xs, classify, counts, key);
      CollectRelevant(ys, classify, counts, key);
      CollectOrder(Relevant(xs, counts), Relevant(ys, counts), classify, key);
    }
  }

  // ----- collecting into tables -----

  datatype Tables = Tables(local: map<Key, Stats>, shared: map<Key, Stats>)

  function At(table: map<Key, Stats>, key: Key): Stats {
    if key in table then table[key] else NoStats
  }

  ghost predicate Tabulates(table: map<Key, Stats>, rows: seq<Row>, classify: Row -> Option<Key>) {
    forall key :: At(table, key) == Collect(rows, classify, key)
  }

  lemma NextTabulated(table: map<Key, Stats>, rows: seq<Row>, k: nat, classify: Row -> Option<Key>)
    requires k < |rows| && Tabulates(table, rows[..k], classify)
    ensures classify(rows[k]).None? ==> Tabulates(table, rows[..k + 1], classify)
    ensures classify(rows[k]).Some? ==>
              var key := classify(rows[k]).value;
              Tabulates(table[key := AddRow(At(table, key), rows[k])], rows[..k + 1], classify)
  {
    assert rows[..k + 1] == rows[..k] + [rows[k]];
    forall key ensures Collect(rows[..k + 1], classify, key)
                       == if classify(rows[k]) == Some(key) then AddRow(At(table, key), rows[k]) else At(table, key) {
      CollectNext(rows[..k], rows[k], classify, key);
    }
  }

  lemma UnfitEarly(rows: seq<Row>, k: nat, classify: Row -> Option<Key>, key: Key)
    requires k <= |rows| && Collect(rows[..k], classify, key).n > MaxSafe
    ensures !Fits(rows, classify)
  {
    CollectGrows(rows, k, classify, key);
  }

  /** Add a row under a key; it fails when a total would leave the safe integers. */
  method AddStats(table: map<Key, Stats>, key: Key, row: Row) returns (r: Option<map<Key, Stats>>)
    requires ValidRow(row) && Consistent(At(table, key))
    ensures r == if At(table, key).n + row.exposures <= MaxSafe then Some(table[key := AddRow(At(table, key), row)]) else None
  {
    var stats := At(table, key);
    var n := stats.n + row.exposures;
    if n > MaxSafe {
      return None;
    }
    var c := stats.c + row.clicks;
    if c > MaxSafe {
      return None;
    }
    var apps, days := stats.apps, stats.days;
    if row.exposures > 0 {
      var own := row.exposures + if row.appId in apps then apps[row.appId] else 0;
      if own > MaxSafe {
        return None;
      }
      apps := apps[row.appId := own];
      days := days + {row.day};
    }
    r := Some(table[key := Stats(n, c, apps, days)]);
  }

  method CollectOne(table: map<Key, Stats>, classify: Row -> Option<Key>, rows: seq<Row>, k: nat) returns (r: Option<map<Key, Stats>>)
    requires k < |rows| && Tabulates(table, rows[..k], classify)
    requires forall row :: row in rows ==> ValidRow(row)
    ensures r.Some? ==> Tabulates(r.value, rows[..k + 1], classify)
    ensures r.None? ==> !Fits(rows, classify)
    ensures Fits(rows[..k], classify) && r.Some? ==> Fits(rows[..k + 1], classify)
  {
    NextTabulated(table, rows, k, classify);
    var key := classify(rows[k]);
    if key.None? {
      return Some(table);
    }
    CollectConsistent(rows[..k], classify, key.value);
    assert rows[k] in rows;
    r := AddStats(table, key.value, rows[k]);
    var next := table[key.value := AddRow(At(table, key.value), rows[k])];
    assert At(next, key.value) == Collect(rows[..k + 1], classify, key.value);
    if r.None? {
      UnfitEarly(rows, k + 1, classify, key.value);
    } else if Fits(rows[..k], classify) {
      ghost var done, longer := rows[..k], rows[..k + 1];
      forall other ensures Collect(longer, classify, other).n <= MaxSafe {
        assert At(next, other) == Collect(longer, classify, other);
        assert At(table, other) == Collect(done, classify, other);
      }
    }
  }

  /** One pass over the model: both tables, or a failure exactly when some total overflows. */
  method CollectAll(scope: Scope, rows: seq<Row>) returns (r: Result<Tables, Error>)
    requires forall row :: row in rows ==> ValidRow(row)
    ensures r.Ok? <==> Fits(rows, scope.Local) && Fits(rows, scope.Shared)
    ensures r.Ok? ==> Tabulates(r.value.local, rows, scope.Local) && Tabulates(r.value.shared, rows, scope.Shared)
    ensures r.Err? ==> r.error == Overflow
  {
    var local: map<Key, Stats>, shared: map<Key, Stats> := map[], map[];
    var k := 0;
    while k < |rows|
      invariant 0 <= k <= |rows|
      invariant Tabulates(local, rows[..k], scope.Local) && Tabulates(shared, rows[..k], scope.Shared)
      invariant Fits(rows[..k], scope.Local) && Fits(rows[..k], scope.Shared)
    {
      var l := CollectOne(local, scope.Local, rows, k);
      if l.None? {
        return Err(Overflow);
      }
      var s := CollectOne(shared, scope.Shared, rows, k);
      if s.None? {
        return Err(Overflow);
      }
      local, shared, k := l.value, s.value, k + 1;
    }
    assert rows[..k] == rows;
    r := Ok(Tables(local, shared));
  }
}
