/** Building a model: the sealed window of the snapshots, added up per evidence key. */
module LearningBuild {
  import opened Prelude
  import opened Ordering
  import opened Recommendations
  import opened LearningStore
  import Evidence
  import Registrations

  const MaxSources := 1_000_000
  const MaxRows := 100_000

  // ----- the sources of a model -----

  /** One observed row of one stored snapshot. */
  datatype Cell = Cell(key: SnapshotKey, index: nat)

  function Rows(s: State, key: SnapshotKey): seq<Observed> {
    if key in s.snapshots then s.snapshots[key].snapshot.rows else []
  }

  /** Every observed row whose day lies in the sealed window. */
  function Sources(s: State, now: nat): set<Cell> {
    set k, i | k in s.snapshots && Evidence.InWindow(k.day, now) && 0 <= i < |Rows(s, k)| :: Cell(k, i)
  }

  datatype Contribution = Skipped | Missing | Adds(row: Row)

  /** Whether a registered subject still has the lineage of an assignment. */
  predicate SameLineage(app: App, a: Assignment) {
    var subject, context := FindSubject(app.subjects, a.subjectId), FindContext(app.contexts, a.contextId);
    && subject.Some?
    && subject.value.enabled
    && subject.value.ruleRevision == a.ruleRevision
    && subject.value.mappingVersion == a.mappingVersion
    && context.Some?
    && context.value.measurementProfileId == a.measurementProfileId
    && (a.entityRef.Some? ==> a.entityRef.value in subject.value.entityRefs)
  }

  function RowOf(appId: Id, day: nat, a: Assignment, o: Observed): Row {
    Row(appId, a.subjectId, a.ruleRevision, a.mappingVersion, a.entityRef, a.contextId, a.measurementProfileId,
        day, a.experiment, o.exposures, o.clicks, o.dispatches)
  }

  /** What one source adds to the model, if its app and lineage are still registered. */
  function ContributionOf(s: State, config: Config, c: Cell): Contribution
    requires c.key in s.snapshots && c.index < |Rows(s, c.key)|
  {
    var app, observed := FindApp(config.apps, c.key.appId), Rows(s, c.key)[c.index];
    var id := AssignmentKey(c.key.appId, observed.assignmentId);
    if app.None? || app.value.producerId != s.snapshots[c.key].producerId then Skipped
    else if id !in s.assignments then Missing
    else if !SameLineage(app.value, s.assignments[id].assignment) then Skipped
    else Adds(RowOf(c.key.appId, c.key.day, s.assignments[id].assignment, observed))
  }

  function Contributes(s: State, config: Config, c: Cell): Contribution {
    if c.key in s.snapshots && c.index < |Rows(s, c.key)| then ContributionOf(s, config, c) else Skipped
  }

  predicate AddsTo(s: State, config: Config, c: Cell, key: EvidenceKey) {
    Contributes(s, config, c).Adds? && KeyOfRow(Contributes(s, config, c).row) == key
  }

  datatype Measure = Exposures | Clicks | Dispatches

  function Amount(row: Row, m: Measure): Count {
    match m
    case Exposures => row.exposures
    case Clicks => row.clicks
    case Dispatches => row.dispatches
  }

  /** What a source adds to one total of one key. */
  function AmountOf(s: State, config: Config, key: EvidenceKey, m: Measure): Cell -> nat {
    (c: Cell) => if AddsTo(s, config, c, key) then Amount(Contributes(s, config, c).row, m) else 0
  }

  ghost function Total(s: State, config: Config, cells: set<Cell>, key: EvidenceKey, m: Measure): nat {
    SumOver(cells, AmountOf(s, config, key, m))
  }

  function Keys(s: State, config: Config, cells: set<Cell>): set<EvidenceKey> {
    set c | c in cells && Contributes(s, config, c).Adds? :: KeyOfRow(Contributes(s, config, c).row)
  }

  /** Why no model can be built: an assignment is missing, a total overflows, or there is too much of it. */
  ghost predicate Unbuildable(s: State, config: Config, now: nat) {
    var cells := Sources(s, now);
    || |cells| > MaxSources
    || |Keys(s, config, cells)| > MaxRows
    || (exists c :: c in cells && Contributes(s, config, c) == Missing)
    || (exists key, m :: Total(s, config, cells, key, m) > MaxSafe)
  }

  /** The rows hold, per key with a source, exactly the totals over the window. */
  ghost predicate Exact(s: State, config: Config, cells: set<Cell>, rows: seq<Row>) {
    && (forall i, j :: 0 <= i < j < |rows| ==> KeyOfRow(rows[i]) != KeyOfRow(rows[j]))
    && (forall key :: key in Keys(s, config, cells) <==> exists r :: r in rows && KeyOfRow(r) == key)
    && (forall r, m :: r in rows ==> Amount(r, m) == Total(s, config, cells, KeyOfRow(r), m))
  }

  ghost predicate IsModel(s: State, config: Config, now: nat, model: Model) {
    && !Unbuildable(s, config, now)
    && Exact(s, config, Sources(s, now), model.rows)
    && model.generatedAt == now
    && model.modelGenerationId == ModelId(config, now, set r | r in model.rows)
  }

  function Regressed(s: State, now: nat): bool {
    s.current.Some? && s.current.value in s.models && s.models[s.current.value].createdAt > now
  }

  /** Store the model under its id, unless it is there, and make it the current one. */
  function WithModel(s: State, registry: Registrations.Registry, config: Config, model: Model, now: nat): State {
    var id := model.modelGenerationId;
    s.(registry := registry,
       models := if id in s.models then s.models else s.models[id := StoredModel(config, model, now)],
       current := Some(id))
  }

  // ----- adding up -----

  /** The index after some sources: one row per key, with the totals of those sources. */
  ghost predicate Indexed(s: State, config: Config, cells: set<Cell>, index: map<EvidenceKey, Row>) {
    && index.Keys == Keys(s, config, cells)
    && (forall key :: key in index ==> KeyOfRow(index[key]) == key)
    && (forall key, m :: key in index ==> Amount(index[key], m) == Total(s, config, cells, key, m))
  }

  lemma {:induction false} NoKeyNoTotal(s: State, config: Config, cells: set<Cell>, key: EvidenceKey, m: Measure)
    requires key !in Keys(s, config, cells)
    ensures Total(s, config, cells, key, m) == 0
    decreases |cells|
  {
    if c :| c in cells {
      SumRemove(cells, c, AmountOf(s, config, key, m));
      NoKeyNoTotal(s, config, cells - {c}, key, m);
    }
  }

  function Plus(row: Row, more: Row): Row
    requires row.exposures + more.exposures <= MaxSafe && row.clicks + more.clicks <= MaxSafe
    requires row.dispatches + more.dispatches <= MaxSafe
  {
    row.(exposures := row.exposures + more.exposures,
         clicks := row.clicks + more.clicks,
         dispatches := row.dispatches + more.dispatches)
  }

  predicate Overflows(row: Row, more: Row) {
    || row.exposures + more.exposures > MaxSafe
    || row.clicks + more.clicks > MaxSafe
    || row.dispatches + more.dispatches > MaxSafe
  }

  function Before(index: map<EvidenceKey, Row>, row: Row): Row {
    if KeyOfRow(row) in index then index[KeyOfRow(row)] else row.(exposures := 0, clicks := 0, dispatches := 0)
  }

  function AddTo(index: map<EvidenceKey, Row>, row: Row): map<EvidenceKey, Row>
    requires !Overflows(Before(index, row), row)
  {
    index[KeyOfRow(row) := Plus(Before(index, row), row)]
  }

  lemma NextTotal(s: State, config: Config, cells: set<Cell>, c: Cell, key: EvidenceKey, m: Measure)
    requires c !in cells
    ensures Total(s, config, cells + {c}, key, m) == Total(s, config, cells, key, m) + AmountOf(s, config, key, m)(c)
  {
    SumAdd(cells, c, AmountOf(s, config, key, m));
  }

  lemma SkipIndexed(s: State, config: Config, cells: set<Cell>, c: Cell, index: map<EvidenceKey, Row>)
    requires Indexed(s, config, cells, index) && c !in cells && !Contributes(s, config, c).Adds?
    ensures Indexed(s, config, cells + {c}, index)
  {
    assert Keys(s, config, cells + {c}) == Keys(s, config, cells);
    forall key, m | key in index ensures Amount(index[key], m) == Total(s, config, cells + {c}, key, m) {
      NextTotal(s, config, cells, c, key, m);
    }
  }

  lemma BeforeIsTotal(s: State, config: Config, cells: set<Cell>, index: map<EvidenceKey, Row>, row: Row, m: Measure)
    requires Indexed(s, config, cells, index)
    ensures Amount(Before(index, row), m) == Total(s, config, cells, KeyOfRow(row), m)
    ensures KeyOfRow(Before(index, row)) == KeyOfRow(row)
  {
    if KeyOfRow(row) !in index {
      NoKeyNoTotal(s, config, cells, KeyOfRow(row), m);
    }
  }

  lemma PlusAmount(row: Row, more: Row, m: Measure)
    requires !Overflows(row, more)
    ensures Amount(Plus(row, more), m) == Amount(row, m) + Amount(more, m)
    ensures KeyOfRow(Plus(row, more)) == KeyOfRow(row)
  {}

  lemma AddAmount(s: State, config: Config, cells: set<Cell>, c: Cell, index: map<EvidenceKey, Row>, row: Row, key: EvidenceKey, m: Measure)
    requires Indexed(s, config, cells, index) && c !in cells && Contributes(s, config, c) == Adds(row)
    requires !Overflows(Before(index, row), row) && key in AddTo(index, row)
    ensures KeyOfRow(AddTo(index, row)[key]) == key
    ensures Amount(AddTo(index, row)[key], m) == Total(s, config, cells + {c}, key, m)
  {
    NextTotal(s, config, cells, c, key, m);
    if key == KeyOfRow(row) {
      BeforeIsTotal(s, config, cells, index, row, m);
      PlusAmount(Before(index, row), row, m);
    } else {
      assert AddTo(index, row)[key] == index[key];
    }
  }

  lemma AddIndexed(s: State, config: Config, cells: set<Cell>, c: Cell, index: map<EvidenceKey, Row>, row: Row)
    requires Indexed(s, config, cells, index) && c !in cells && Contributes(s, config, c) == Adds(row)
    requires !Overflows(Before(index, row), row)
    ensures Indexed(s, config, cells + {c}, AddTo(index, row))
  {
    var next := AddTo(index, row);
    assert next.Keys == index.Keys + {KeyOfRow(row)};
    assert Keys(s, config, cells + {c}) == Keys(s, config, cells) + {KeyOfRow(row)};
    forall key, m | key in next
      ensures KeyOfRow(next[key]) == key && Amount(next[key], m) == Total(s, config, cells + {c}, key, m)
    {
      AddAmount(s, config, cells, c, index, row, key, m);
    }
  }

  lemma WhichOverflows(row: Row, more: Row) returns (m: Measure)
    requires Overflows(row, more)
    ensures Amount(row, m) + Amount(more, m) > MaxSafe
  {
    m := if row.exposures + more.exposures > MaxSafe then Exposures
         else if row.clicks + more.clicks > MaxSafe then Clicks else Dispatches;
  }

  /** A total that overflows on the way also overflows in the end, whatever the order. */
  lemma OverflowIsFinal(s: State, config: Config, now: nat, cells: set<Cell>, c: Cell, index: map<EvidenceKey, Row>, row: Row)
    requires Indexed(s, config, cells, index) && c !in cells && Contributes(s, config, c) == Adds(row)
    requires cells + {c} <= Sources(s, now) && Overflows(Before(index, row), row)
    ensures exists key, m :: Total(s, config, Sources(s, now), key, m) > MaxSafe
  {
    var m := WhichOverflows(Before(index, row), row);
    BeforeIsTotal(s, config, cells, index, row, m);
    NextTotal(s, config, cells, c, KeyOfRow(row), m);
    SumGrows(cells + {c}, Sources(s, now), AmountOf(s, config, KeyOfRow(row), m));
    assert Total(s, config, Sources(s, now), KeyOfRow(row), m) > MaxSafe;
  }

  lemma FewerKeys(s: State, config: Config, some: set<Cell>, all: set<Cell>)
    requires some <= all
    ensures |Keys(s, config, some)| <= |Keys(s, config, all)|
  {
    SubsetSize(Keys(s, config, some), Keys(s, config, all));
  }

  // ----- the scan -----

  /** One source of the scan: skip it, add it, or stop. */
  method AddSource(s: State, config: Config, ghost now: nat, ghost cells: set<Cell>, c: Cell, index: map<EvidenceKey, Row>)
    returns (r: Result<map<EvidenceKey, Row>, Error>)
    requires Indexed(s, config, cells, index) && c !in cells && cells + {c} <= Sources(s, now)
    ensures r.Ok? ==> Indexed(s, config, cells + {c}, r.value) && Contributes(s, config, c) != Missing
    ensures r.Err? ==> Unbuildable(s, config, now)
  {
    var contribution := Contributes(s, config, c);
    match contribution
    case Missing =>
      assert c in Sources(s, now);
      return Err(MissingEvidence);
    case Skipped =>
      SkipIndexed(s, config, cells, c, index);
      return Ok(index);
    case Adds(row) =>
      if Overflows(Before(index, row), row) {
        OverflowIsFinal(s, config, now, cells, c, index, row);
        return Err(TotalOverflow);
      }
      AddIndexed(s, config, cells, c, index, row);
      r := Ok(AddTo(index, row));
  }

  lemma TotalsFit(s: State, config: Config, cells: set<Cell>, index: map<EvidenceKey, Row>, key: EvidenceKey, m: Measure)
    requires Indexed(s, config, cells, index)
    ensures Total(s, config, cells, key, m) <= MaxSafe
  {
    if key !in index {
      NoKeyNoTotal(s, config, cells, key, m);
    } else {
      assert Amount(index[key], m) == Total(s, config, cells, key, m);
    }
  }

  ghost predicate Evident(s: State, config: Config, cells: set<Cell>, c: Cell) {
    c in cells ==> Contributes(s, config, c) != Missing
  }

  /** What holds after some sources were scanned without stopping. */
  ghost predicate Scanned(s: State, config: Config, cells: set<Cell>, index: map<EvidenceKey, Row>) {
    && Indexed(s, config, cells, index)
    && |cells| <= MaxSources
    && |index| <= MaxRows
    && forall c :: Evident(s, config, cells, c)
  }

  lemma ScannedAll(s: State, config: Config, now: nat, index: map<EvidenceKey, Row>)
    requires Scanned(s, config, Sources(s, now), index)
    ensures !Unbuildable(s, config, now)
  {
    var all := Sources(s, now);
    assert forall c :: Evident(s, config, all, c) ==> (c in all ==> Contributes(s, config, c) != Missing);
    forall key, m ensures Total(s, config, all, key, m) <= MaxSafe {
      TotalsFit(s, config, all, index, key, m);
    }
    assert |index.Keys| == |index|;
  }

  lemma OneMoreSource(sources: set<Cell>, cells: set<Cell>, c: Cell)
    requires c !in cells && cells + {c} <= sources
    ensures |cells| + 1 <= |sources|
  {
    SubsetSize(cells + {c}, sources);
  }

  method ScanOne(s: State, config: Config, ghost now: nat, ghost sources: set<Cell>, ghost cells: set<Cell>, c: Cell,
                 index: map<EvidenceKey, Row>, scanned: nat)
    returns (r: Result<map<EvidenceKey, Row>, Error>)
    requires sources == Sources(s, now) && cells + {c} <= sources
    requires Scanned(s, config, cells, index) && c !in cells && scanned == |cells|
    ensures r.Ok? ==> Scanned(s, config, cells + {c}, r.value)
    ensures r.Err? ==> Unbuildable(s, config, now)
  {
    OneMoreSource(sources, cells, c);
    if scanned + 1 > MaxSources {
      return Err(TooLarge);
    }
    r := AddSource(s, config, now, cells, c, index);
    if r.Ok? {
      assert forall d :: Evident(s, config, cells, d) ==> Evident(s, config, cells + {c}, d);
      FewerKeys(s, config, cells + {c}, sources);
      assert |r.value.Keys| == |r.value|;
      if |r.value| > MaxRows {
        return Err(TooLarge);
      }
    }
  }

  ghost predicate SplitAt(done: set<Cell>, rest: set<Cell>, all: set<Cell>, c: Cell) {
    c in all <==> (c in done) != (c in rest)
  }

  ghost predicate Splits(done: set<Cell>, rest: set<Cell>, all: set<Cell>) {
    (forall c :: SplitAt(done, rest, all, c)) && done !! rest
  }

  lemma AllMoved(done: set<Cell>, all: set<Cell>)
    requires Splits(done, {}, all)
    ensures done == all
  {
    assert forall c :: SplitAt(done, {}, all, c) ==> (c in done <==> c in all);
  }

  lemma MoveOne(done: set<Cell>, rest: set<Cell>, all: set<Cell>, c: Cell)
    requires Splits(done, rest, all) && c in rest
    ensures c !in done && done + {c} <= all && Splits(done + {c}, rest - {c}, all)
    ensures |done + {c}| == |done| + 1 && |rest - {c}| < |rest|
  {
    assert forall d :: SplitAt(done, rest, all, d) ==> SplitAt(done + {c}, rest - {c}, all, d);
    forall d | d in done + {c} ensures d in all {
      assert SplitAt(done, rest, all, d);
    }
  }

  method ScanRest(s: State, config: Config, now: nat, sources: set<Cell>) returns (r: Result<map<EvidenceKey, Row>, Error>)
    requires sources == Sources(s, now)
    ensures r.Ok? ==> Scanned(s, config, sources, r.value)
    ensures r.Err? ==> Unbuildable(s, config, now)
  {
    var rest := sources;
    ghost var done: set<Cell> := {};
    var index: map<EvidenceKey, Row>, scanned := map[], 0;
    while rest != {}
      invariant Splits(done, rest, sources) && scanned == |done|
      invariant Scanned(s, config, done, index)
      decreases |rest|
    {
      var c :| c in rest;
      MoveOne(done, rest, sources, c);
      var added := ScanOne(s, config, now, sources, done, c, index, scanned);
      if added.Err? {
        return added;
      }
      index, scanned := added.value, scanned + 1;
      done, rest := done + {c}, rest - {c};
    }
    AllMoved(done, sources);
    r := Ok(index);
  }

  /** Scan the sources in any order; whether it succeeds and what it yields do not depend on the order. */
  method Scan(s: State, config: Config, now: nat) returns (r: Result<map<EvidenceKey, Row>, Error>)
    ensures r.Ok? <==> !Unbuildable(s, config, now)
    ensures r.Ok? ==> Indexed(s, config, Sources(s, now), r.value)
  {
    r := ScanRest(s, config, now, Sources(s, now));
    if r.Ok? {
      ScannedAll(s, config, now, r.value);
    }
  }
}
