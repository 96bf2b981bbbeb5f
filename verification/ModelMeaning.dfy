/** What the rows of a built model are, spelled out over the stored snapshots and assignments. */
module ModelMeaning {
  import opened Prelude
  import opened Recommendations
  import opened LearningStore
  import opened LearningBuild
  import Evidence

  ghost predicate Stored(s: State, c: Cell) {
    c.key in s.snapshots && c.index < |s.snapshots[c.key].snapshot.rows|
  }

  ghost function ObservedAt(s: State, c: Cell): Observed
    requires Stored(s, c)
  {
    s.snapshots[c.key].snapshot.rows[c.index]
  }

  /** The fourteen days that end with the last day that was over two days before. */
  ghost predicate Sealed(day: int, now: nat) {
    var last := (now - 2 * 86_400_000) / 86_400_000 * 86_400_000 - 86_400_000;
    last - 13 * 86_400_000 <= day <= last
  }

  /** The configuration still registers the assignment's subject, rule, mapping, entity and context. */
  ghost predicate StillRegistered(app: App, a: Assignment) {
    && (exists x :: x in app.subjects && x.subjectId == a.subjectId && x.enabled && x.ruleRevision == a.ruleRevision
                    && x.mappingVersion == a.mappingVersion && (a.entityRef.Some? ==> a.entityRef.value in x.entityRefs))
    && (exists x :: x in app.contexts && x.contextId == a.contextId && x.measurementProfileId == a.measurementProfileId)
  }

  /** An observed row of a sealed day, sent by the app's registered producer, for an assignment that is still registered. */
  ghost predicate Usable(s: State, config: Config, now: nat, c: Cell) {
    && Stored(s, c)
    && Sealed(c.key.day, now)
    && var id := AssignmentKey(c.key.appId, ObservedAt(s, c).assignmentId);
       && id in s.assignments
       && exists app :: app in config.apps && app.appId == c.key.appId && app.producerId == s.snapshots[c.key].producerId
                        && StillRegistered(app, s.assignments[id].assignment)
  }

  /** The row carries exactly what the observed row's assignment and snapshot say, field by field. */
  ghost predicate Labelled(s: State, c: Cell, row: Row)
    requires Stored(s, c) && AssignmentKey(c.key.appId, ObservedAt(s, c).assignmentId) in s.assignments
  {
    var a := s.assignments[AssignmentKey(c.key.appId, ObservedAt(s, c).assignmentId)].assignment;
    && row.appId == c.key.appId
    && row.day == c.key.day
    && row.subjectId == a.subjectId
    && row.ruleRevision == a.ruleRevision
    && row.mappingVersion == a.mappingVersion
    && row.entityRef == a.entityRef
    && row.contextId == a.contextId
    && row.measurementProfileId == a.measurementProfileId
    && row.experiment == a.experiment
  }

  ghost predicate Feeds(s: State, config: Config, now: nat, c: Cell, row: Row) {
    Usable(s, config, now, c) && Labelled(s, c, row)
  }

  ghost function FedBy(s: State, config: Config, now: nat, row: Row): set<Cell> {
    set k, n | k in s.snapshots && 0 <= n < |s.snapshots[k].snapshot.rows| && Feeds(s, config, now, Cell(k, n), row) :: Cell(k, n)
  }

  function ExposuresAt(s: State): Cell -> nat {
    (c: Cell) => if c.key in s.snapshots && c.index < |s.snapshots[c.key].snapshot.rows|
                 then s.snapshots[c.key].snapshot.rows[c.index].exposures as nat else 0
  }

  function ClicksAt(s: State): Cell -> nat {
    (c: Cell) => if c.key in s.snapshots && c.index < |s.snapshots[c.key].snapshot.rows|
                 then s.snapshots[c.key].snapshot.rows[c.index].clicks as nat else 0
  }

  function DispatchesAt(s: State): Cell -> nat {
    (c: Cell) => if c.key in s.snapshots && c.index < |s.snapshots[c.key].snapshot.rows|
                 then s.snapshots[c.key].snapshot.rows[c.index].dispatches as nat else 0
  }

  // ----- the scan in these terms -----

  lemma LineageIs(app: App, entities: seq<Entity>, a: Assignment)
    requires ValidApp(app, entities)
    ensures SameLineage(app, a) <==> StillRegistered(app, a)
  {
    var subject, context := FindSubject(app.subjects, a.subjectId), FindContext(app.contexts, a.contextId);
    if StillRegistered(app, a) {
      var x :| x in app.subjects && x.subjectId == a.subjectId && x.enabled && x.ruleRevision == a.ruleRevision
               && x.mappingVersion == a.mappingVersion && (a.entityRef.Some? ==> a.entityRef.value in x.entityRefs);
      var y :| y in app.contexts && y.contextId == a.contextId && y.measurementProfileId == a.measurementProfileId;
      OneSubject(app, entities, x, subject.value);
      OneContext(app, entities, y, context.value);
    }
  }

  /** What the scan adds, and under which key, in terms of the stored tables. */
  lemma ScanMeans(s: State, config: Config, now: nat, c: Cell, row: Row)
    requires ValidConfig(config)
    ensures c in Sources(s, now) && AddsTo(s, config, c, KeyOfRow(row)) <==> Feeds(s, config, now, c, row)
    ensures Stored(s, c) && Contributes(s, config, c).Adds? ==>
              var added := Contributes(s, config, c).row;
              added.exposures == ExposuresAt(s)(c) && added.clicks == ClicksAt(s)(c) && added.dispatches == DispatchesAt(s)(c)
  {
    assert Sealed(c.key.day, now) <==> Evidence.InWindow(c.key.day, now);
    var app := FindApp(config.apps, c.key.appId);
    if app.Some? && Stored(s, c) {
      var id := AssignmentKey(c.key.appId, ObservedAt(s, c).assignmentId);
      assert ValidApp(app.value, config.entities);
      if id in s.assignments {
        LineageIs(app.value, config.entities, s.assignments[id].assignment);
      }
      if Usable(s, config, now, c) {
        var other :| other in config.apps && other.appId == c.key.appId && other.producerId == s.snapshots[c.key].producerId
                     && StillRegistered(other, s.assignments[id].assignment);
        OneApp(config, other, app.value);
      }
    }
  }

  lemma FedAreSources(s: State, config: Config, now: nat, row: Row)
    requires ValidConfig(config)
    ensures FedBy(s, config, now, row) <= Sources(s, now)
    ensures forall c :: c in FedBy(s, config, now, row) <==> Feeds(s, config, now, c, row)
  {
    forall c ensures c in FedBy(s, config, now, row) <==> Feeds(s, config, now, c, row) {
      if Feeds(s, config, now, c, row) {
        assert Cell(c.key, c.index) == c;
      }
    }
    forall c | c in FedBy(s, config, now, row) ensures c in Sources(s, now) {
      ScanMeans(s, config, now, c, row);
    }
  }

  lemma TotalIsSum(s: State, config: Config, now: nat, row: Row, m: Measure, at: Cell -> nat)
    requires ValidConfig(config)
    requires at == match m case Exposures => ExposuresAt(s) case Clicks => ClicksAt(s) case Dispatches => DispatchesAt(s)
    ensures Total(s, config, Sources(s, now), KeyOfRow(row), m) == SumOver(FedBy(s, config, now, row), at)
  {
    var all, some := Sources(s, now), FedBy(s, config, now, row);
    FedAreSources(s, config, now, row);
    var f := AmountOf(s, config, KeyOfRow(row), m);
    forall c | c in all ensures f(c) == if c in some then at(c) else 0 {
      ScanMeans(s, config, now, c, row);
    }
    SumSupport(all, some, f, at);
  }

  /**
   A row of a built model holds exactly the sums of what was observed, over the sealed window, for assignments
   with its very app, subject, rule, mapping, entity, context, profile, day and experiment that are still registered.
   */
  lemma RowsAreSums(s: State, config: Config, now: nat, model: Model, row: Row)
    requires IsModel(s, config, now, model) && ValidConfig(config) && row in model.rows
    ensures row.exposures == SumOver(FedBy(s, config, now, row), ExposuresAt(s))
    ensures row.clicks == SumOver(FedBy(s, config, now, row), ClicksAt(s))
    ensures row.dispatches == SumOver(FedBy(s, config, now, row), DispatchesAt(s))
    ensures FedBy(s, config, now, row) != {}
  {
    TotalIsSum(s, config, now, row, Exposures, ExposuresAt(s));
    TotalIsSum(s, config, now, row, Clicks, ClicksAt(s));
    TotalIsSum(s, config, now, row, Dispatches, DispatchesAt(s));
    assert Amount(row, Exposures) == Total(s, config, Sources(s, now), KeyOfRow(row), Exposures);
    assert Amount(row, Clicks) == Total(s, config, Sources(s, now), KeyOfRow(row), Clicks);
    assert Amount(row, Dispatches) == Total(s, config, Sources(s, now), KeyOfRow(row), Dispatches);
    assert KeyOfRow(row) in Keys(s, config, Sources(s, now));
    var c :| c in Sources(s, now) && Contributes(s, config, c).Adds? && KeyOfRow(Contributes(s, config, c).row) == KeyOfRow(row);
    ScanMeans(s, config, now, c, row);
    FedAreSources(s, config, now, row);
  }

  lemma CountedOnce(s: State, config: Config, now: nat, model: Model, c: Cell, x: Row, y: Row)
    requires IsModel(s, config, now, model) && x in model.rows && y in model.rows
    requires Feeds(s, config, now, c, x) && Feeds(s, config, now, c, y)
    ensures x == y
  {
    var i :| 0 <= i < |model.rows| && model.rows[i] == x;
    var j :| 0 <= j < |model.rows| && model.rows[j] == y;
    assert KeyOfRow(x) == KeyOfRow(y);
  }

  lemma UsableIsListed(s: State, config: Config, now: nat, c: Cell) returns (sample: Row)
    requires ValidConfig(config) && Usable(s, config, now, c)
    ensures Feeds(s, config, now, c, sample) && KeyOfRow(sample) in Keys(s, config, Sources(s, now))
  {
    var a := s.assignments[AssignmentKey(c.key.appId, ObservedAt(s, c).assignmentId)].assignment;
    sample := Row(c.key.appId, a.subjectId, a.ruleRevision, a.mappingVersion, a.entityRef, a.contextId, a.measurementProfileId,
                  c.key.day, a.experiment, 0, 0, 0);
    ScanMeans(s, config, now, c, sample);
  }

  /** No usable observation is left out of a built model, and none is counted twice. */
  lemma NothingIsLeftOut(s: State, config: Config, now: nat, model: Model, c: Cell)
    requires IsModel(s, config, now, model) && ValidConfig(config) && Usable(s, config, now, c)
    ensures exists row :: row in model.rows && Feeds(s, config, now, c, row)
    ensures forall x, y :: x in model.rows && y in model.rows && Feeds(s, config, now, c, x) && Feeds(s, config, now, c, y) ==> x == y
  {
    var sample := UsableIsListed(s, config, now, c);
    var row :| row in model.rows && KeyOfRow(row) == KeyOfRow(sample);
    assert Feeds(s, config, now, c, row);
    forall x, y | x in model.rows && y in model.rows && Feeds(s, config, now, c, x) && Feeds(s, config, now, c, y) ensures x == y {
      CountedOnce(s, config, now, model, c, x, y);
    }
  }
}
