/** A built model and its use: it passes every check that scoring makes, and scoring drops none of its evidence. */
module LearningModel {
  import opened Prelude
  import opened Ordering
  import opened Recommendations
  import opened LearningStore
  import opened LearningBuild
  import Evidence
  import Registrations
  import Scoring

  // ----- the rows of a model, in the order of their keys' texts -----

  function Digits(n: nat): string {
    var last := [('0' as int + n % 10) as char];
    if n < 10 then last else Digits(n / 10) + last
  }

  function RowText(r: Row): string {
    "[" + Quoted(r.appId) + "," + Quoted(r.subjectId) + "," + Digits(r.ruleRevision) + "," + Digits(r.mappingVersion) + ","
    + (if r.entityRef.Some? then Quoted(r.entityRef.value) else "null") + "," + Quoted(r.contextId) + ","
    + Quoted(r.measurementProfileId) + "," + Digits(r.day) + "," + (if r.experiment == Training then "\"training\"" else "\"holdout\"") + "]"
  }

  const TextOf: Row -> string := (r: Row) => RowText(r)

  /** The rows list the index: one row for each of some keys. */
  ghost predicate Lists(rows: seq<Row>, index: map<EvidenceKey, Row>, keys: set<EvidenceKey>) {
    && (forall i, j :: 0 <= i < j < |rows| ==> KeyOfRow(rows[i]) != KeyOfRow(rows[j]))
    && (forall r :: r in rows ==> KeyOfRow(r) in keys && KeyOfRow(r) in index && index[KeyOfRow(r)] == r)
    && (forall key :: key in keys ==> exists r :: r in rows && KeyOfRow(r) == key)
  }

  lemma ListOne(rows: seq<Row>, index: map<EvidenceKey, Row>, keys: set<EvidenceKey>, key: EvidenceKey)
    requires Lists(rows, index, keys) && key in index && key !in keys && KeyOfRow(index[key]) == key
    ensures Lists(rows + [index[key]], index, keys + {key})
  {
    var longer := rows + [index[key]];
    forall other | other in keys + {key} ensures exists r :: r in longer && KeyOfRow(r) == other {
      if other == key {
        assert index[key] in longer;
      } else {
        var r :| r in rows && KeyOfRow(r) == other;
        assert r in longer;
      }
    }
  }

  method RowsOf(index: map<EvidenceKey, Row>) returns (rows: seq<Row>)
    requires forall key :: key in index ==> KeyOfRow(index[key]) == key
    ensures Lists(rows, index, index.Keys)
  {
    rows := [];
    var rest := index.Keys;
    while rest != {}
      invariant rest <= index.Keys && Lists(rows, index, index.Keys - rest)
      decreases |rest|
    {
      var key :| key in rest;
      ListOne(rows, index, index.Keys - rest, key);
      assert index.Keys - (rest - {key}) == index.Keys - rest + {key};
      rows := rows + [index[key]];
      rest := rest - {key};
    }
    assert index.Keys - rest == index.Keys;
  }

  lemma KeysApart(rows: seq<Row>, sorted: seq<Row>)
    requires multiset(rows) == multiset(sorted)
    requires forall i, j :: 0 <= i < j < |rows| ==> KeyOfRow(rows[i]) != KeyOfRow(rows[j])
    ensures forall i, j :: 0 <= i < j < |sorted| ==> KeyOfRow(sorted[i]) != KeyOfRow(sorted[j])
  {
    forall i, j | 0 <= i < j < |sorted| ensures KeyOfRow(sorted[i]) != KeyOfRow(sorted[j]) {
      var x, y := sorted[i], sorted[j];
      assert x in multiset(sorted) && y in multiset(sorted);
      if KeyOfRow(x) == KeyOfRow(y) {
        var p :| 0 <= p < |rows| && rows[p] == x;
        var q :| 0 <= q < |rows| && rows[q] == y;
        assert x == y;
        Twice(sorted, i, j);
        Once(rows, p);
        assert false;
      }
    }
  }

  lemma Twice(xs: seq<Row>, i: nat, j: nat)
    requires i < j < |xs| && xs[i] == xs[j]
    ensures multiset(xs)[xs[i]] >= 2
  {
    assert xs == xs[..j] + [xs[j]] + xs[j + 1..];
    assert xs[..j][i] == xs[i];
    assert xs[i] in multiset(xs[..j]);
  }

  lemma Once(xs: seq<Row>, i: nat)
    requires i < |xs| && forall p, q :: 0 <= p < q < |xs| ==> KeyOfRow(xs[p]) != KeyOfRow(xs[q])
    ensures multiset(xs)[xs[i]] == 1
  {
    assert xs == xs[..i] + [xs[i]] + xs[i + 1..];
    assert xs[i] !in xs[..i] && xs[i] !in xs[i + 1..];
  }

  lemma ListedIsExact(s: State, config: Config, cells: set<Cell>, index: map<EvidenceKey, Row>, rows: seq<Row>)
    requires Indexed(s, config, cells, index) && Lists(rows, index, index.Keys)
    ensures Exact(s, config, cells, Sort(rows, TextOf))
  {
    var sorted := Sort(rows, TextOf);
    SortAscends(rows, TextOf);
    KeysApart(rows, sorted);
    forall key ensures key in Keys(s, config, cells) <==> exists r :: r in sorted && KeyOfRow(r) == key {
      if key in Keys(s, config, cells) {
        var r :| r in rows && KeyOfRow(r) == key;
        assert r in sorted;
      }
    }
  }

  function ModelOf(config: Config, now: nat, rows: seq<Row>): Model {
    Model(ModelId(config, now, set r | r in rows), now, rows)
  }

  method BuildModel(s: State, config: Config, now: nat) returns (r: Result<Model, Error>)
    ensures r.Ok? <==> !Unbuildable(s, config, now)
    ensures r.Ok? ==> IsModel(s, config, now, r.value)
  {
    var index := Scan(s, config, now);
    if index.Err? {
      return Err(index.error);
    }
    var rows := RowsOf(index.value);
    ListedIsExact(s, config, Sources(s, now), index.value, rows);
    r := Ok(ModelOf(config, now, Sort(rows, TextOf)));
  }

  // ----- build and score agree -----

  /** What the stored snapshots guarantee: whole days, and dispatches within clicks within exposures. */
  ghost predicate SoundSnapshots(s: State) {
    forall k :: k in s.snapshots ==>
      k.day % Day == 0 && forall r :: r in s.snapshots[k].snapshot.rows ==> r.dispatches <= r.clicks <= r.exposures
  }

  lemma CellOrdered(s: State, config: Config, c: Cell, key: EvidenceKey)
    requires SoundSnapshots(s)
    ensures AmountOf(s, config, key, Dispatches)(c) <= AmountOf(s, config, key, Clicks)(c)
    ensures AmountOf(s, config, key, Clicks)(c) <= AmountOf(s, config, key, Exposures)(c)
  {
    if AddsTo(s, config, c, key) {
      assert Rows(s, c.key)[c.index] in s.snapshots[c.key].snapshot.rows;
    }
  }

  lemma TotalsOrdered(s: State, config: Config, cells: set<Cell>, key: EvidenceKey)
    requires SoundSnapshots(s)
    ensures Total(s, config, cells, key, Dispatches) <= Total(s, config, cells, key, Clicks)
    ensures Total(s, config, cells, key, Clicks) <= Total(s, config, cells, key, Exposures)
  {
    forall c | c in cells
      ensures AmountOf(s, config, key, Dispatches)(c) <= AmountOf(s, config, key, Clicks)(c)
      ensures AmountOf(s, config, key, Clicks)(c) <= AmountOf(s, config, key, Exposures)(c)
    {
      CellOrdered(s, config, c, key);
    }
    SumBelow(cells, AmountOf(s, config, key, Dispatches), AmountOf(s, config, key, Clicks));
    SumBelow(cells, AmountOf(s, config, key, Clicks), AmountOf(s, config, key, Exposures));
  }

  /** Where a row of the model comes from. */
  lemma SourceOf(s: State, config: Config, now: nat, model: Model, row: Row) returns (c: Cell, from: Row)
    requires IsModel(s, config, now, model) && row in model.rows
    ensures c.key in s.snapshots && Evidence.InWindow(c.key.day, now) && Contributes(s, config, c) == Adds(from)
    ensures KeyOfRow(from) == KeyOfRow(row)
  {
    assert KeyOfRow(row) in Keys(s, config, Sources(s, now));
    c :| c in Sources(s, now) && Contributes(s, config, c).Adds? && KeyOfRow(Contributes(s, config, c).row) == KeyOfRow(row);
    from := Contributes(s, config, c).row;
  }

  lemma ContributionIsCurrent(s: State, config: Config, now: nat, c: Cell, from: Row)
    requires ValidConfig(config) && SoundSnapshots(s)
    requires c.key in s.snapshots && Evidence.InWindow(c.key.day, now) && Contributes(s, config, c) == Adds(from)
    ensures from.day % Day == 0
    ensures Evidence.RowRegistered(config, now, from)
    ensures from.experiment == Training ==> Evidence.Counted(config, now, from)
  {
    var app := FindApp(config.apps, c.key.appId).value;
    assert ValidApp(app, config.entities);
    assert now / Day * Day <= now;
  }

  lemma OnlyKeyMatters(config: Config, now: nat, row: Row, from: Row)
    requires KeyOfRow(row) == KeyOfRow(from)
    ensures Evidence.RowRegistered(config, now, row) <==> Evidence.RowRegistered(config, now, from)
    ensures Evidence.Counted(config, now, row) <==> Evidence.Counted(config, now, from)
  {}

  lemma {:induction false} RowCount(rows: seq<Row>)
    requires forall i, j :: 0 <= i < j < |rows| ==> KeyOfRow(rows[i]) != KeyOfRow(rows[j])
    ensures |set r | r in rows :: KeyOfRow(r)| == |rows|
  {
    if rows != [] {
      var front, last := rows[..|rows| - 1], rows[|rows| - 1];
      assert rows == front + [last];
      RowCount(front);
      assert (set r | r in rows :: KeyOfRow(r)) == (set r | r in front :: KeyOfRow(r)) + {KeyOfRow(last)};
    }
  }

  lemma RowsAreFew(s: State, config: Config, now: nat, model: Model)
    requires IsModel(s, config, now, model)
    ensures |model.rows| <= MaxRows
  {
    RowCount(model.rows);
    assert (set r | r in model.rows :: KeyOfRow(r)) == Keys(s, config, Sources(s, now));
  }

  lemma RowIsValid(s: State, config: Config, now: nat, model: Model, row: Row)
    requires IsModel(s, config, now, model) && row in model.rows && SoundSnapshots(s)
    requires row.day % Day == 0
    ensures ValidRow(row)
  {
    TotalsOrdered(s, config, Sources(s, now), KeyOfRow(row));
    assert Amount(row, Exposures) == Total(s, config, Sources(s, now), KeyOfRow(row), Exposures);
    assert Amount(row, Clicks) == Total(s, config, Sources(s, now), KeyOfRow(row), Clicks);
    assert Amount(row, Dispatches) == Total(s, config, Sources(s, now), KeyOfRow(row), Dispatches);
  }

  lemma RowIsCurrent(s: State, config: Config, now: nat, model: Model, row: Row)
    requires IsModel(s, config, now, model) && row in model.rows && ValidConfig(config) && SoundSnapshots(s)
    ensures row.day % Day == 0 && Evidence.RowRegistered(config, now, row)
    ensures row.experiment == Training ==> Evidence.Counted(config, now, row)
  {
    var c, from := SourceOf(s, config, now, model, row);
    ContributionIsCurrent(s, config, now, c, from);
    OnlyKeyMatters(config, now, row, from);
    assert row.day == KeyOfRow(row).day && row.experiment == KeyOfRow(row).experiment;
  }

  /**
   A built model meets the model schema and the registration check under its own configuration, and scoring
   drops none of its training rows: each lies in the window and carries the registered lineage.
   */
  lemma BuiltModelIsUsable(s: State, config: Config, now: nat, model: Model)
    requires IsModel(s, config, now, model) && ValidConfig(config) && SoundSnapshots(s)
    ensures ValidModel(model) && Evidence.ModelRegistered(config, model)
    ensures forall row :: row in model.rows && row.experiment == Training ==> Evidence.Counted(config, model.generatedAt, row)
  {
    forall row | row in model.rows
      ensures ValidRow(row) && Evidence.RowRegistered(config, now, row)
      ensures row.experiment == Training ==> Evidence.Counted(config, now, row)
    {
      RowIsCurrent(s, config, now, model, row);
      RowIsValid(s, config, now, model, row);
    }
    RowsAreFew(s, config, now, model);
  }

  /** For a day after a build, scoring with the built model and the same configuration can only refuse the request itself. */
  lemma BuiltModelIsAccepted(s: State, config: Config, now: nat, model: Model, request: Request, later: nat)
    requires IsModel(s, config, now, model) && ValidConfig(config) && SoundSnapshots(s) && ValidRequest(request)
    requires now <= later <= now + Day
    ensures Scoring.Refusal(config, request, model, later) != Some(Evidence.StaleModel)
    ensures Scoring.Refusal(config, request, model, later) != Some(Evidence.UnknownEvidence)
  {
    BuiltModelIsUsable(s, config, now, model);
  }
}
