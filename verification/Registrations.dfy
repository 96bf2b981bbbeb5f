/** The history of registrations: what a later configuration may change about an app, and what it may not. */
module Registrations {
  import opened Prelude
  import opened Recommendations

  datatype Error = ChangedWithoutRevision | StaleApp | ProducerRebound | ChangedContext | ChangedSubject

  datatype PolicyKey = PolicyKey(policyId: Id, version: Positive)

  /** The registration table: every accepted revision of an app in order, policies by version, entities. */
  datatype Registry = Registry(apps: map<Id, seq<App>>, policies: map<PolicyKey, Policy>, entities: map<Id, Entity>)

  const NoRegistrations := Registry(map[], map[], map[])

  function History(reg: Registry, appId: Id): seq<App> {
    if appId in reg.apps then reg.apps[appId] else []
  }

  function FindRevision(history: seq<App>, revision: Positive): (found: Option<App>)
    ensures found.Some? ==> found.value in history && found.value.appRevision == revision
    ensures found.None? ==> forall a :: a in history ==> a.appRevision != revision
  {
    if history == [] then None
    else if history[0].appRevision == revision then Some(history[0])
    else FindRevision(history[1..], revision)
  }

  /** The newest meaning that the history gives to a context. */
  function NewestContext(history: seq<App>, id: Id): (found: Option<Context>)
    ensures found.None? ==> forall a, c :: a in history && c in a.contexts ==> c.contextId != id
  {
    if history == [] then None
    else
      var last := FindContext(history[|history| - 1].contexts, id);
      if last.Some? then last else NewestContext(history[..|history| - 1], id)
  }

  function NewestSubject(history: seq<App>, id: Id): (found: Option<Subject>)
    ensures found.None? ==> forall a, s :: a in history && s in a.subjects ==> s.subjectId != id
  {
    if history == [] then None
    else
      var last := FindSubject(history[|history| - 1].subjects, id);
      if last.Some? then last else NewestSubject(history[..|history| - 1], id)
  }

  predicate ContextKept(history: seq<App>, c: Context) {
    var before := NewestContext(history, c.contextId);
    before.Some? ==> before.value == c
  }

  /** A subject may advance; giving it another canonical subject takes a new mapping version. */
  predicate Advances(before: Subject, after: Subject) {
    && before.ruleRevision <= after.ruleRevision
    && before.mappingVersion <= after.mappingVersion
    && (before.canonicalSubjectId != after.canonicalSubjectId ==> before.mappingVersion < after.mappingVersion)
  }

  predicate SubjectKept(history: seq<App>, s: Subject) {
    var before := NewestSubject(history, s.subjectId);
    before.Some? ==> Advances(before.value, s)
  }

  function AppRefusal(history: seq<App>, app: App): Option<Error> {
    var existing := FindRevision(history, app.appRevision);
    if existing.Some? && existing.value != app then Some(ChangedWithoutRevision)
    else if history == [] then None
    else
      var latest := history[|history| - 1];
      if latest.appRevision > app.appRevision then Some(StaleApp)
      else if latest.appRevision == app.appRevision then None
      else if latest.producerId != app.producerId then Some(ProducerRebound)
      else if exists c :: c in app.contexts && !ContextKept(history, c) then Some(ChangedContext)
      else if exists s :: s in app.subjects && !SubjectKept(history, s) then Some(ChangedSubject)
      else None
  }

  /** The history with the revision stored, if it was not there. */
  function Stored(history: seq<App>, app: App): seq<App> {
    if FindRevision(history, app.appRevision).Some? then history else history + [app]
  }

  function RegisterApp(reg: Registry, app: App): Result<Registry, Error> {
    var refusal := AppRefusal(History(reg, app.appId), app);
    if refusal.Some? then Err(refusal.value)
    else Ok(reg.(apps := reg.apps[app.appId := Stored(History(reg, app.appId), app)]))
  }

  function RegisterPolicy(reg: Registry, p: Policy): Result<Registry, Error> {
    var key := PolicyKey(p.policyId, p.version);
    if key in reg.policies && reg.policies[key] != p then Err(ChangedWithoutRevision)
    else Ok(reg.(policies := reg.policies[key := p]))
  }

  function RegisterEntity(reg: Registry, e: Entity): Result<Registry, Error> {
    if e.entityRef in reg.entities && reg.entities[e.entityRef] != e then Err(ChangedWithoutRevision)
    else Ok(reg.(entities := reg.entities[e.entityRef := e]))
  }

  function RegisterApps(reg: Registry, apps: seq<App>): Result<Registry, Error>
    decreases |apps|
  {
    if apps == [] then Ok(reg)
    else
      var first := RegisterApp(reg, apps[0]);
      if first.Err? then first else RegisterApps(first.value, apps[1..])
  }

  function RegisterPolicies(reg: Registry, policies: seq<Policy>): Result<Registry, Error>
    decreases |policies|
  {
    if policies == [] then Ok(reg)
    else
      var first := RegisterPolicy(reg, policies[0]);
      if first.Err? then first else RegisterPolicies(first.value, policies[1..])
  }

  function RegisterEntities(reg: Registry, entities: seq<Entity>): Result<Registry, Error>
    decreases |entities|
  {
    if entities == [] then Ok(reg)
    else
      var first := RegisterEntity(reg, entities[0]);
      if first.Err? then first else RegisterEntities(first.value, entities[1..])
  }

  /** Register a whole configuration: apps, then policies, then entities; the first refusal refuses it all. */
  function Register(reg: Registry, config: Config): Result<Registry, Error> {
    var apps := RegisterApps(reg, config.apps);
    if apps.Err? then apps
    else
      var policies := RegisterPolicies(apps.value, config.policies);
      if policies.Err? then policies else RegisterEntities(policies.value, config.entities)
  }

  // ----- sound histories -----

  ghost predicate UniqueParts(a: App) {
    && (forall i, j :: 0 <= i < j < |a.subjects| ==> a.subjects[i].subjectId != a.subjects[j].subjectId)
    && (forall i, j :: 0 <= i < j < |a.contexts| ==> a.contexts[i].contextId != a.contexts[j].contextId)
  }

  /** Between an earlier and a later revision: one producer, one meaning per context, subjects only advance. */
  ghost predicate Evolves(a: App, b: App) {
    && a.producerId == b.producerId
    && (forall c, d :: c in a.contexts && d in b.contexts && c.contextId == d.contextId ==> c == d)
    && (forall s, t :: s in a.subjects && t in b.subjects && s.subjectId == t.subjectId ==> Advances(s, t))
  }

  ghost predicate Sound(history: seq<App>) {
    && (forall a :: a in history ==> UniqueParts(a))
    && (forall i, j :: 0 <= i < j < |history| ==> history[i].appRevision < history[j].appRevision && Evolves(history[i], history[j]))
  }

  lemma {:induction false} NewestContextIs(history: seq<App>, id: Id, a: App, c: Context)
    requires Sound(history) && a in history && c in a.contexts && c.contextId == id
    ensures NewestContext(history, id) == Some(c)
  {
    var front, last := history[..|history| - 1], history[|history| - 1];
    assert history == front + [last];
    var found := FindContext(last.contexts, id);
    if found.Some? {
      if a == last {
        var i :| 0 <= i < |last.contexts| && last.contexts[i] == c;
        var j :| 0 <= j < |last.contexts| && last.contexts[j] == found.value;
        assert UniqueParts(last);
      } else {
        var i :| 0 <= i < |history| && history[i] == a;
        assert Evolves(history[i], last);
      }
    } else {
      assert a in front;
      NewestContextIs(front, id, a, c);
    }
  }

  lemma {:induction false} NewestSubjectIs(history: seq<App>, id: Id, a: App, s: Subject)
    requires Sound(history) && a in history && s in a.subjects && s.subjectId == id
    ensures NewestSubject(history, id).Some? && Advances(s, NewestSubject(history, id).value)
  {
    var front, last := history[..|history| - 1], history[|history| - 1];
    assert history == front + [last];
    var found := FindSubject(last.subjects, id);
    if found.Some? {
      if a == last {
        var i :| 0 <= i < |last.subjects| && last.subjects[i] == s;
        var j :| 0 <= j < |last.subjects| && last.subjects[j] == found.value;
        assert UniqueParts(last);
      } else {
        var i :| 0 <= i < |history| && history[i] == a;
        assert Evolves(history[i], last);
      }
    } else {
      assert a in front;
      NewestSubjectIs(front, id, a, s);
    }
  }

  lemma ContextsEvolve(history: seq<App>, a: App, c: Context, d: Context)
    requires Sound(history) && a in history && c in a.contexts && c.contextId == d.contextId && ContextKept(history, d)
    ensures c == d
  {
    NewestContextIs(history, c.contextId, a, c);
  }

  lemma SubjectsEvolve(history: seq<App>, a: App, s: Subject, t: Subject)
    requires Sound(history) && a in history && s in a.subjects && s.subjectId == t.subjectId && SubjectKept(history, t)
    ensures Advances(s, t)
  {
    NewestSubjectIs(history, s.subjectId, a, s);
  }

  lemma NotNewer(history: seq<App>, a: App)
    requires Sound(history) && a in history
    ensures var latest := history[|history| - 1];
            a == latest || (a.appRevision < latest.appRevision && a.producerId == latest.producerId)
  {
    var i :| 0 <= i < |history| && history[i] == a;
    assert i == |history| - 1 || Evolves(history[i], history[|history| - 1]);
  }

  /** A revision that is not refused evolves from every earlier one, also where something disappeared in between. */
  lemma AcceptedEvolves(history: seq<App>, app: App, a: App)
    requires Sound(history) && AppRefusal(history, app).None? && FindRevision(history, app.appRevision).None?
    requires a in history
    ensures a.appRevision < app.appRevision && Evolves(a, app)
  {
    NotNewer(history, a);
    assert history[|history| - 1] in history;
    forall c, d | c in a.contexts && d in app.contexts && c.contextId == d.contextId ensures c == d {
      ContextsEvolve(history, a, c, d);
    }
    forall s, t | s in a.subjects && t in app.subjects && s.subjectId == t.subjectId ensures Advances(s, t) {
      SubjectsEvolve(history, a, s, t);
    }
  }

  lemma AppendSound(history: seq<App>, app: App)
    requires Sound(history) && UniqueParts(app)
    requires forall a :: a in history ==> a.appRevision < app.appRevision && Evolves(a, app)
    ensures Sound(history + [app])
  {}

  lemma StoredSound(history: seq<App>, app: App)
    requires Sound(history) && AppRefusal(history, app).None? && UniqueParts(app)
    ensures Sound(Stored(history, app)) && history <= Stored(history, app)
    ensures Stored(history, app) != [] && Stored(history, app)[|Stored(history, app)| - 1] == app
  {
    if FindRevision(history, app.appRevision).None? {
      forall a | a in history ensures a.appRevision < app.appRevision && Evolves(a, app) {
        AcceptedEvolves(history, app, a);
      }
      AppendSound(history, app);
    } else {
      NotNewer(history, app);
    }
  }

  // ----- the registry over any sequence of configurations -----

  ghost predicate SoundRegistry(reg: Registry) {
    && (forall id :: id in reg.apps ==> Sound(reg.apps[id]))
    && (forall key :: key in reg.policies ==> PolicyKey(reg.policies[key].policyId, reg.policies[key].version) == key)
    && (forall ref :: ref in reg.entities ==> reg.entities[ref].entityRef == ref)
  }

  /** Nothing that is stored is ever changed or removed. */
  ghost predicate Extends(a: Registry, b: Registry) {
    && (forall id :: id in a.apps ==> id in b.apps && a.apps[id] <= b.apps[id])
    && (forall key :: key in a.policies ==> key in b.policies && a.policies[key] == b.policies[key])
    && (forall ref :: ref in a.entities ==> ref in b.entities && a.entities[ref] == b.entities[ref])
  }

  ghost predicate IsLatest(reg: Registry, app: App) {
    app.appId in reg.apps && reg.apps[app.appId] != [] && reg.apps[app.appId][|reg.apps[app.appId]| - 1] == app
  }

  lemma RegisterAppSound(reg: Registry, app: App)
    requires SoundRegistry(reg) && UniqueParts(app) && RegisterApp(reg, app).Ok?
    ensures SoundRegistry(RegisterApp(reg, app).value) && Extends(reg, RegisterApp(reg, app).value)
    ensures IsLatest(RegisterApp(reg, app).value, app)
  {
    StoredSound(History(reg, app.appId), app);
    WithHistorySound(reg, app.appId, Stored(History(reg, app.appId), app));
  }

  lemma WithHistorySound(reg: Registry, id: Id, history: seq<App>)
    requires SoundRegistry(reg) && Sound(history) && History(reg, id) <= history
    ensures SoundRegistry(reg.(apps := reg.apps[id := history])) && Extends(reg, reg.(apps := reg.apps[id := history]))
  {}

  lemma ExtendsTransitive(a: Registry, b: Registry, c: Registry)
    requires Extends(a, b) && Extends(b, c)
    ensures Extends(a, c)
  {}

  lemma {:induction false} RegisterAppsSound(reg: Registry, apps: seq<App>)
    requires SoundRegistry(reg) && (forall a :: a in apps ==> UniqueParts(a)) && RegisterApps(reg, apps).Ok?
    ensures SoundRegistry(RegisterApps(reg, apps).value) && Extends(reg, RegisterApps(reg, apps).value)
    decreases |apps|
  {
    if apps != [] {
      var next := RegisterApp(reg, apps[0]).value;
      assert RegisterApps(reg, apps) == RegisterApps(next, apps[1..]);
      RegisterAppSound(reg, apps[0]);
      RegisterAppsSound(next, apps[1..]);
      ExtendsTransitive(reg, next, RegisterApps(reg, apps).value);
    }
  }

  lemma {:induction false} OtherAppsKept(reg: Registry, apps: seq<App>, id: Id)
    requires RegisterApps(reg, apps).Ok? && forall a :: a in apps ==> a.appId != id
    ensures History(RegisterApps(reg, apps).value, id) == History(reg, id)
    ensures id in RegisterApps(reg, apps).value.apps <==> id in reg.apps
    decreases |apps|
  {
    if apps != [] {
      assert apps[0] in apps;
      OtherAppsKept(RegisterApp(reg, apps[0]).value, apps[1..], id);
    }
  }

  lemma {:induction false} AppsAreLatest(reg: Registry, apps: seq<App>, a: App)
    requires SoundRegistry(reg) && (forall b :: b in apps ==> UniqueParts(b)) && RegisterApps(reg, apps).Ok? && a in apps
    requires forall i, j :: 0 <= i < j < |apps| ==> apps[i].appId != apps[j].appId
    ensures IsLatest(RegisterApps(reg, apps).value, a)
    decreases |apps|
  {
    var next := RegisterApp(reg, apps[0]).value;
    assert RegisterApps(reg, apps) == RegisterApps(next, apps[1..]);
    RegisterAppSound(reg, apps[0]);
    if a == apps[0] {
      OtherAppsKept(next, apps[1..], a.appId);
    } else {
      AppsAreLatest(next, apps[1..], a);
    }
  }

  lemma {:induction false} RegisterPoliciesSound(reg: Registry, policies: seq<Policy>)
    requires SoundRegistry(reg) && RegisterPolicies(reg, policies).Ok?
    ensures var after := RegisterPolicies(reg, policies).value;
            SoundRegistry(after) && Extends(reg, after) && after.apps == reg.apps && after.entities == reg.entities
    decreases |policies|
  {
    if policies != [] {
      RegisterPoliciesSound(RegisterPolicy(reg, policies[0]).value, policies[1..]);
    }
  }

  lemma {:induction false} RegisterEntitiesSound(reg: Registry, entities: seq<Entity>)
    requires SoundRegistry(reg) && RegisterEntities(reg, entities).Ok?
    ensures var after := RegisterEntities(reg, entities).value;
            SoundRegistry(after) && Extends(reg, after) && after.apps == reg.apps && after.policies == reg.policies
    decreases |entities|
  {
    if entities != [] {
      RegisterEntitiesSound(RegisterEntity(reg, entities[0]).value, entities[1..]);
    }
  }

  lemma AppsUnique(config: Config)
    requires ValidConfig(config)
    ensures forall a :: a in config.apps ==> UniqueParts(a)
  {
    forall a | a in config.apps ensures UniqueParts(a) {
      assert ValidApp(a, config.entities);
    }
  }

  lemma RegisteredParts(reg: Registry, config: Config)
    requires Register(reg, config).Ok?
    ensures var apps := RegisterApps(reg, config.apps);
            && apps.Ok?
            && var policies := RegisterPolicies(apps.value, config.policies);
            && policies.Ok?
            && Register(reg, config) == RegisterEntities(policies.value, config.entities)
  {}

  /** An accepted configuration keeps the registry sound and only adds to it. */
  lemma RegisterSound(reg: Registry, config: Config)
    requires SoundRegistry(reg) && ValidConfig(config) && Register(reg, config).Ok?
    ensures SoundRegistry(Register(reg, config).value) && Extends(reg, Register(reg, config).value)
  {
    RegisteredParts(reg, config);
    AppsUnique(config);
    var apps := RegisterApps(reg, config.apps).value;
    RegisterAppsSound(reg, config.apps);
    var policies := RegisterPolicies(apps, config.policies).value;
    RegisterPoliciesSound(apps, config.policies);
    RegisterEntitiesSound(policies, config.entities);
    ExtendsTransitive(reg, apps, policies);
    ExtendsTransitive(reg, policies, Register(reg, config).value);
  }

  lemma OnlyApps(reg: Registry, config: Config)
    requires SoundRegistry(reg) && ValidConfig(config) && Register(reg, config).Ok?
    ensures RegisterApps(reg, config.apps).Ok? && Register(reg, config).value.apps == RegisterApps(reg, config.apps).value.apps
  {
    RegisteredParts(reg, config);
    AppsUnique(config);
    var apps := RegisterApps(reg, config.apps).value;
    RegisterAppsSound(reg, config.apps);
    RegisterPoliciesSound(apps, config.policies);
    RegisterEntitiesSound(RegisterPolicies(apps, config.policies).value, config.entities);
  }

  /** An accepted configuration holds the newest revision of each of its apps. */
  lemma RegisteredIsLatest(reg: Registry, config: Config, a: App)
    requires SoundRegistry(reg) && ValidConfig(config) && Register(reg, config).Ok? && a in config.apps
    ensures IsLatest(Register(reg, config).value, a)
  {
    RegisteredParts(reg, config);
    var apps := RegisterApps(reg, config.apps).value;
    AppsUnique(config);
    AppsAreLatest(reg, config.apps, a);
    OnlyApps(reg, config);
  }

  predicate Accepts(reg: Registry, config: Config) {
    Register(reg, config).Ok?
  }

  /** One registration: a refused configuration leaves the registry as it was. */
  ghost predicate Step(a: Registry, config: Config, b: Registry) {
    ValidConfig(config) && b == if Accepts(a, config) then Register(a, config).value else a
  }

  lemma StepSound(a: Registry, config: Config, b: Registry)
    requires SoundRegistry(a) && Step(a, config, b)
    ensures SoundRegistry(b) && Extends(a, b)
  {
    if Accepts(a, config) {
      RegisterSound(a, config);
    }
  }

  lemma StepLatest(a: Registry, config: Config, b: Registry, app: App)
    requires SoundRegistry(a) && Step(a, config, b) && Accepts(a, config) && app in config.apps
    ensures IsLatest(b, app)
  {
    RegisteredIsLatest(a, config, app);
  }

  ghost predicate Execution(registries: seq<Registry>, configs: seq<Config>) {
    && |registries| == |configs| + 1
    && registries[0] == NoRegistrations
    && (forall i :: 0 <= i < |configs| ==> StepAt(registries, configs, i))
  }

  ghost predicate StepAt(registries: seq<Registry>, configs: seq<Config>, i: nat)
    requires i < |configs| && |registries| == |configs| + 1
  {
    Step(registries[i], configs[i], registries[i + 1])
  }

  ghost predicate Accepted(registries: seq<Registry>, configs: seq<Config>, i: int) {
    0 <= i < |configs| && i < |registries| && Accepts(registries[i], configs[i])
  }

  lemma {:induction false} AlwaysSound(registries: seq<Registry>, configs: seq<Config>, i: nat)
    requires Execution(registries, configs) && i < |registries|
    ensures SoundRegistry(registries[i])
  {
    if i > 0 {
      AlwaysSound(registries, configs, i - 1);
      assert StepAt(registries, configs, i - 1);
      StepSound(registries[i - 1], configs[i - 1], registries[i]);
    }
  }

  lemma StepExtends(registries: seq<Registry>, configs: seq<Config>, i: nat)
    requires Execution(registries, configs) && i < |configs|
    ensures Extends(registries[i], registries[i + 1])
  {
    AlwaysSound(registries, configs, i);
    assert StepAt(registries, configs, i);
    StepSound(registries[i], configs[i], registries[i + 1]);
  }

  /** What is registered stays registered, unchanged. */
  lemma {:induction false} NeverForgets(registries: seq<Registry>, configs: seq<Config>, i: nat, j: nat)
    requires Execution(registries, configs) && i <= j < |registries|
    ensures Extends(registries[i], registries[j])
  {
    if i < j {
      NeverForgets(registries, configs, i, j - 1);
      StepExtends(registries, configs, j - 1);
      ExtendsTransitive(registries[i], registries[j - 1], registries[j]);
    }
  }

  lemma AcceptedIsLatest(registries: seq<Registry>, configs: seq<Config>, i: nat, a: App)
    requires Execution(registries, configs) && Accepted(registries, configs, i) && a in configs[i].apps
    ensures IsLatest(registries[i + 1], a) && SoundRegistry(registries[i + 1])
  {
    AlwaysSound(registries, configs, i);
    AlwaysSound(registries, configs, i + 1);
    assert StepAt(registries, configs, i);
    StepLatest(registries[i], configs[i], registries[i + 1], a);
  }

  lemma LatestEvolves(early: seq<App>, late: seq<App>)
    requires early != [] && early <= late && Sound(late)
    ensures var a, b := early[|early| - 1], late[|late| - 1];
            a == b || (a.appRevision < b.appRevision && Evolves(a, b))
  {
    assert late[|early| - 1] == early[|early| - 1];
  }

  /**
   Over any sequence of configurations, accepted and refused, two accepted revisions of an app agree on its
   producer and on every context they share, and no subject they share ever regresses, also if it was absent
   from revisions in between.
   */
  lemma AcceptedHistoriesEvolve(registries: seq<Registry>, configs: seq<Config>, i: nat, j: nat, a: App, b: App)
    requires Execution(registries, configs) && i < j
    requires Accepted(registries, configs, i) && Accepted(registries, configs, j)
    requires a in configs[i].apps && b in configs[j].apps && a.appId == b.appId
    ensures a == b || (a.appRevision < b.appRevision && Evolves(a, b))
  {
    AcceptedIsLatest(registries, configs, i, a);
    AcceptedIsLatest(registries, configs, j, b);
    NeverForgets(registries, configs, i + 1, j + 1);
    LatestEvolves(registries[i + 1].apps[a.appId], registries[j + 1].apps[a.appId]);
  }

  /** An app's subject and mapping version determine its canonical subject, whenever they were registered. */
  lemma MappingDeterminesCanonical(
    registries: seq<Registry>, configs: seq<Config>, i: nat, j: nat, a: App, b: App, s: Subject, t: Subject)
    requires Execution(registries, configs) && i <= j
    requires Accepted(registries, configs, i) && Accepted(registries, configs, j)
    requires a in configs[i].apps && b in configs[j].apps && a.appId == b.appId
    requires s in a.subjects && t in b.subjects && s.subjectId == t.subjectId && s.mappingVersion == t.mappingVersion
    ensures s.canonicalSubjectId == t.canonicalSubjectId
  {
    if i < j {
      AcceptedHistoriesEvolve(registries, configs, i, j, a, b);
    }
    if i == j || a == b {
      assert StepAt(registries, configs, i);
      SameSubject(configs[i], configs[j], a, b, s, t);
    }
  }

  lemma SameSubject(c: Config, d: Config, a: App, b: App, s: Subject, t: Subject)
    requires ValidConfig(c) && a in c.apps && b in d.apps && a.appId == b.appId && (c == d || a == b)
    requires s in a.subjects && t in b.subjects && s.subjectId == t.subjectId
    ensures s == t
  {
    var x :| 0 <= x < |c.apps| && c.apps[x] == a;
    if c == d {
      var y :| 0 <= y < |c.apps| && c.apps[y] == b;
    }
    assert a == b;
    assert ValidApp(a, c.entities);
    var k :| 0 <= k < |a.subjects| && a.subjects[k] == s;
    var m :| 0 <= m < |a.subjects| && a.subjects[m] == t;
  }
}
