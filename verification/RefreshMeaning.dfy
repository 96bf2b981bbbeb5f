/** What the numbers and orders of a refresh preview mean, in terms of its inputs alone. */
module RefreshMeaning {
  import opened Prelude
  import opened RefreshPreview
  import opened RefreshPlan
  import opened RefreshBudget
  import Budget = SharelinkBudget

  // ----- allowances -----

  ghost function WeightsOf(shares: seq<Share>): nat {
    SumOver(set s | s in shares, (s: Share) => s.weight as nat)
  }

  ghost function AppsOf(i: Inputs, accountId: string): set<App> {
    set a | a in i.config.apps && a.accountId == accountId
  }

  /** An app's weight within its account and the account's whole: the policy's shares, or one for every app. */
  ghost predicate Weighs(i: Inputs, app: App, weight: nat, whole: nat) {
    if exists s :: s in i.demand.policy.accountShares && s.accountId == app.accountId
    then exists s :: s in i.demand.policy.accountShares && s.accountId == app.accountId
                     && whole == WeightsOf(s.apps) && exists x :: x in s.apps && x.appId == app.appId && x.weight == weight
    else weight == 1 && whole == |AppsOf(i, app.accountId)|
  }

  /** What an account has left: what its status reports, or its configured budget without a status. */
  ghost predicate HasLeft(i: Inputs, accountId: string, products: nat, links: nat) {
    if exists s :: s in i.statuses && s.accountId == accountId
    then exists s :: s in i.statuses && s.accountId == accountId && s.remainingProducts == products && s.remainingLinks == links
    else exists a :: a in i.config.accounts && a.accountId == accountId && a.products == products && a.links == links
  }

  /** `part` is the exact share of an amount, rounded down. */
  ghost predicate FloorOf(part: nat, amount: nat, weight: nat, whole: nat) {
    part * whole <= amount * weight < (part + 1) * whole
  }

  lemma {:induction false} TotalIsSum(shares: seq<Share>)
    requires UniqueShares(shares)
    ensures TotalWeight(shares) == WeightsOf(shares)
  {
    if shares != [] {
      var rest := shares[1..];
      assert shares == [shares[0]] + rest;
      TotalIsSum(rest);
      var others := set s | s in rest;
      assert shares[0] !in others;
      SumAdd(others, shares[0], (s: Share) => s.weight as nat);
      assert (set s | s in shares) == others + {shares[0]};
    }
  }

  lemma {:induction false} EqualTotal(members: seq<App>)
    ensures TotalWeight(EqualShares(members)) == |members|
    ensures forall s :: s in EqualShares(members) ==> s.weight == 1
  {
    if members != [] {
      EqualTotal(members[1..]);
    }
  }

  lemma {:induction false} AppCount(apps: seq<App>)
    requires DistinctApps(apps)
    ensures |set a | a in apps| == |apps|
  {
    if apps != [] {
      var rest := apps[1..];
      assert apps == [apps[0]] + rest;
      AppCount(rest);
      assert apps[0] !in rest;
      assert (set a | a in apps) == (set a | a in rest) + {apps[0]};
    }
  }

  lemma {:induction false} NoShares(given: seq<AccountShares>, id: string)
    requires FindShares(given, id).None?
    ensures forall s :: s in given ==> s.accountId != id
  {
    if given != [] {
      NoShares(given[1..], id);
    }
  }

  lemma {:induction false} StatusFound(statuses: seq<Status>, id: string)
    ensures match FindStatus(statuses, id)
            case Some(s) => s in statuses && s.accountId == id
            case None => forall s :: s in statuses ==> s.accountId != id
  {
    if statuses != [] && statuses[0].accountId != id {
      StatusFound(statuses[1..], id);
    }
  }

  lemma {:induction false} AccountFound(accounts: seq<Budget.AccountBudget>, id: string)
    ensures FindAccount(accounts, id).Some? ==> FindAccount(accounts, id).value in accounts && FindAccount(accounts, id).value.accountId == id
  {
    if accounts != [] && accounts[0].accountId != id {
      AccountFound(accounts[1..], id);
    }
  }

  lemma WeightIs(i: Inputs, app: App)
    requires ValidInputs(i) && app in i.config.apps && AllowanceOf(i, app).Some?
    ensures var shares := SharesOf(i.config, i.demand, app.accountId);
            && FindShare(shares, app.appId).Some?
            && Weighs(i, app, FindShare(shares, app.appId).value.weight, TotalWeight(shares))
  {
    var given := FindShares(i.demand.policy.accountShares, app.accountId);
    FoundShares(i.demand.policy.accountShares, app.accountId);
    if given.Some? {
      TotalIsSum(given.value.apps);
    } else {
      NoShares(i.demand.policy.accountShares, app.accountId);
      var members := Members(i.config.apps, app.accountId);
      MembersAre(i.config.apps, app.accountId);
      EqualTotal(members);
      AppCount(members);
      assert (set a | a in members) == AppsOf(i, app.accountId);
    }
  }

  lemma LeftIs(i: Inputs, accountId: string)
    requires FindAccount(i.config.accounts, accountId).Some?
    ensures var view := ViewOf(FindAccount(i.config.accounts, accountId).value, FindStatus(i.statuses, accountId));
            HasLeft(i, accountId, view.remainingProducts, view.remainingLinks)
  {
    StatusFound(i.statuses, accountId);
    AccountFound(i.config.accounts, accountId);
  }

  lemma {:induction false} AsManyPreviews(i: Inputs, apps: seq<App>, previews: seq<AppPreview>)
    requires 0.0 <= i.demand.policy.explorationFraction && PreviewsOf(i, apps, previews)
    ensures |previews| == |apps|
  {
    if apps != [] {
      AsManyPreviews(i, apps[1..], previews[1..]);
    }
  }

  /** `preview` is what one app's allowance leads to. */
  ghost predicate IsPreview(i: Inputs, app: App, preview: AppPreview)
    requires 0.0 <= i.demand.policy.explorationFraction
  {
    AllowanceOf(i, app).Some? && preview == PreviewApp(i, app, AllowanceOf(i, app).value)
  }

  /** Each app with its own preview, in order. */
  ghost predicate Paired(apps: seq<App>, previews: seq<AppPreview>, fits: (App, AppPreview) -> bool) {
    |apps| == |previews| && forall k: nat :: k < |apps| ==> fits(apps[k], previews[k])
  }

  lemma PairedCons(apps: seq<App>, previews: seq<AppPreview>, fits: (App, AppPreview) -> bool)
    requires apps != [] && previews != [] && fits(apps[0], previews[0]) && Paired(apps[1..], previews[1..], fits)
    ensures Paired(apps, previews, fits)
  {
    forall k: nat | k < |apps| ensures fits(apps[k], previews[k]) {
      if k > 0 {
        assert apps[k] == apps[1..][k - 1] && previews[k] == previews[1..][k - 1];
      }
    }
  }

  ghost function Fits(i: Inputs): (App, AppPreview) -> bool
    requires 0.0 <= i.demand.policy.explorationFraction
  {
    (app, preview) => IsPreview(i, app, preview)
  }

  lemma FirstPreview(i: Inputs, apps: seq<App>, previews: seq<AppPreview>)
    requires 0.0 <= i.demand.policy.explorationFraction && PreviewsOf(i, apps, previews) && apps != []
    ensures previews != [] && Fits(i)(apps[0], previews[0]) && PreviewsOf(i, apps[1..], previews[1..])
  {}

  lemma {:induction false} PreviewsPair(i: Inputs, apps: seq<App>, previews: seq<AppPreview>)
    requires 0.0 <= i.demand.policy.explorationFraction && PreviewsOf(i, apps, previews)
    ensures Paired(apps, previews, Fits(i))
  {
    if apps != [] {
      FirstPreview(i, apps, previews);
      PreviewsPair(i, apps[1..], previews[1..]);
      PairedCons(apps, previews, Fits(i));
    }
  }

  lemma PreviewAt(i: Inputs, apps: seq<App>, previews: seq<AppPreview>, k: nat)
    requires 0.0 <= i.demand.policy.explorationFraction && PreviewsOf(i, apps, previews) && k < |apps| == |previews|
    ensures IsPreview(i, apps[k], previews[k])
  {
    PreviewsPair(i, apps, previews);
    assert Fits(i)(apps[k], previews[k]);
  }

  lemma AllowanceIsFloor(amount: nat, weight: nat, total: Positive)
    ensures FloorOf(Allowance(amount, weight, total), amount, weight, total)
  {}

  /** Every previewed app may plan with exactly its weighted share of what the account has left, rounded down. */
  lemma AllowancesAreFloors(i: Inputs, k: nat) returns (weight: nat, whole: nat, products: nat, links: nat)
    requires ValidInputs(i) && RefreshPriority(i).Ok? && k < |i.config.apps|
    ensures |RefreshPriority(i).value.apps| == |i.config.apps|
    ensures Weighs(i, i.config.apps[k], weight, whole) && HasLeft(i, i.config.apps[k].accountId, products, links)
    ensures var preview := RefreshPriority(i).value.apps[k];
            && preview.appId == i.config.apps[k].appId
            && FloorOf(preview.allowance.products, products, weight, whole)
            && FloorOf(preview.allowance.links, links, weight, whole)
  {
    var app := i.config.apps[k];
    PreviewIffValid(i);
    AsManyPreviews(i, i.config.apps, RefreshPriority(i).value.apps);
    PreviewAt(i, i.config.apps, RefreshPriority(i).value.apps, k);
    WeightIs(i, app);
    LeftIs(i, app.accountId);
    var shares := SharesOf(i.config, i.demand, app.accountId);
    var view := ViewOf(FindAccount(i.config.accounts, app.accountId).value, FindStatus(i.statuses, app.accountId));
    weight, whole := FindShare(shares, app.appId).value.weight, TotalWeight(shares);
    products, links := view.remainingProducts, view.remainingLinks;
    AllowanceIsFloor(products, weight, whole);
    AllowanceIsFloor(links, weight, whole);
  }

  lemma OneWeight(shares: seq<Share>, x: Share, y: Share)
    requires UniqueShares(shares) && x in shares && y in shares && x.appId == y.appId
    ensures x == y
  {
    var p :| 0 <= p < |shares| && shares[p] == x;
    var q :| 0 <= q < |shares| && shares[q] == y;
  }

  lemma OneGiven(given: seq<AccountShares>, a: AccountShares, b: AccountShares)
    requires forall i, j :: 0 <= i < j < |given| ==> given[i].accountId != given[j].accountId
    requires a in given && b in given && a.accountId == b.accountId
    ensures a == b
  {
    var p :| 0 <= p < |given| && given[p] == a;
    var q :| 0 <= q < |given| && given[q] == b;
  }

  /** The weight and the whole are determined by the inputs, so the allowance is as well. */
  lemma WeighsUniquely(i: Inputs, app: App, w1: nat, t1: nat, w2: nat, t2: nat)
    requires ValidInputs(i) && Weighs(i, app, w1, t1) && Weighs(i, app, w2, t2)
    ensures w1 == w2 && t1 == t2
  {
    var given := i.demand.policy.accountShares;
    if exists s :: s in given && s.accountId == app.accountId {
      var a :| a in given && a.accountId == app.accountId && t1 == WeightsOf(a.apps)
               && exists x :: x in a.apps && x.appId == app.appId && x.weight == w1;
      var b :| b in given && b.accountId == app.accountId && t2 == WeightsOf(b.apps)
               && exists x :: x in b.apps && x.appId == app.appId && x.weight == w2;
      OneGiven(given, a, b);
      var x :| x in a.apps && x.appId == app.appId && x.weight == w1;
      var y :| y in b.apps && y.appId == app.appId && y.weight == w2;
      OneWeight(a.apps, x, y);
    }
  }

  // ----- what a candidate says about its subject -----

  /** The offer that a current snapshot holds for the subject's current rule: its first ready entry, checked and unexpired. */
  ghost predicate Offered(i: Inputs, app: App, subject: Subject, offer: Offer) {
    exists s :: s in i.snapshots && s.appId == app.appId && s.appRevision == app.revision && s.generatedAt <= i.now
                && FirstReady(s.entries, subject, offer) && offer.checkedAt <= i.now < offer.expiresAt
  }

  ghost predicate ReadyFor(entry: Entry, subject: Subject) {
    entry.subjectId == subject.subjectId && entry.ruleRevision == subject.revision && entry.offer.Some?
  }

  ghost predicate FirstReady(entries: seq<Entry>, subject: Subject, offer: Offer) {
    exists k :: 0 <= k < |entries| && ReadyFor(entries[k], subject) && entries[k].offer.value == offer
                && forall j :: 0 <= j < k ==> !ReadyFor(entries[j], subject)
  }

  /** How much reach the demand asks for on a subject: zero when it does not ask. */
  ghost predicate Demands(i: Inputs, app: App, subjectId: string, reach: nat) {
    if exists d, a :: d in i.demand.apps && d.appId == app.appId && a in d.subjects && a.subjectId == subjectId
    then exists d, a :: d in i.demand.apps && d.appId == app.appId && a in d.subjects && a.subjectId == subjectId && a.estimatedReach == reach
    else reach == 0
  }

  /** A candidate describes an enabled subject of the app: its demand, its offer, and whether a manual review covers it. */
  ghost predicate Describes(i: Inputs, app: App, c: Candidate) {
    && c.subject in app.subjects && c.subject.enabled
    && Demands(i, app, c.subject.subjectId, c.reach)
    && (forall e :: c.expiresAt == Some(e) <==> exists o :: Offered(i, app, c.subject, o) && o.expiresAt == e)
    && (c.urgent <==> c.reach > 0 && forall o :: Offered(i, app, c.subject, o) ==> o.expiresAt <= i.now + i.demand.policy.urgentWithinMs)
    && (c.overdue <==> forall o :: Offered(i, app, c.subject, o) ==> i.now - o.checkedAt >= i.demand.policy.maxWaitMs)
    && (c.manual <==> c.subject.manual.Some? && c.subject.manual.value.reviewedAt <= i.now < c.subject.manual.value.reviewUntil)
  }

  lemma {:induction false} FoundOffer(entries: seq<Entry>, subject: Subject)
    ensures forall o :: FindOffer(entries, subject) == Some(o) <==> FirstReady(entries, subject, o)
  {
    if entries != [] {
      FoundOffer(entries[1..], subject);
      assert entries == [entries[0]] + entries[1..];
      forall o ensures FindOffer(entries, subject) == Some(o) <==> FirstReady(entries, subject, o) {
        if FindOffer(entries, subject) == Some(o) {
          if ReadyFor(entries[0], subject) {
            assert entries[0].offer.value == o;
          } else {
            var k :| 0 <= k < |entries[1..]| && ReadyFor(entries[1..][k], subject) && entries[1..][k].offer.value == o
                     && forall j :: 0 <= j < k ==> !ReadyFor(entries[1..][j], subject);
            assert ReadyFor(entries[k + 1], subject) && entries[k + 1].offer.value == o;
            forall j | 0 <= j < k + 1 ensures !ReadyFor(entries[j], subject) {
              assert j > 0 ==> entries[j] == entries[1..][j - 1];
            }
          }
        }
        if FirstReady(entries, subject, o) {
          var k :| 0 <= k < |entries| && ReadyFor(entries[k], subject) && entries[k].offer.value == o
                   && forall j :: 0 <= j < k ==> !ReadyFor(entries[j], subject);
          if k > 0 {
            assert entries[1..][k - 1] == entries[k];
            assert forall j :: 0 <= j < k - 1 ==> entries[1..][j] == entries[j + 1];
            assert FirstReady(entries[1..], subject, o);
          }
        }
      }
    }
  }

  lemma {:induction false} FoundSnapshot(snapshots: seq<Snapshot>, id: string)
    requires forall i, j :: 0 <= i < j < |snapshots| ==> snapshots[i].appId != snapshots[j].appId
    ensures forall s :: FindSnapshot(snapshots, id) == Some(s) <==> s in snapshots && s.appId == id
  {
    if snapshots != [] {
      FoundSnapshot(snapshots[1..], id);
      assert snapshots == [snapshots[0]] + snapshots[1..];
    }
  }

  lemma {:induction false} FoundDemand(apps: seq<AppDemand>, id: string)
    requires forall i, j :: 0 <= i < j < |apps| ==> apps[i].appId != apps[j].appId
    ensures forall d :: FindDemand(apps, id) == Some(d) <==> d in apps && d.appId == id
  {
    if apps != [] {
      FoundDemand(apps[1..], id);
      assert apps == [apps[0]] + apps[1..];
    }
  }

  lemma {:induction false} FoundAsked(asked: seq<Asked>, id: string)
    requires UniqueAsked(asked)
    ensures forall a :: FindAsked(asked, id) == Some(a) <==> a in asked && a.subjectId == id
  {
    if asked != [] {
      FoundAsked(asked[1..], id);
      assert asked == [asked[0]] + asked[1..];
    }
  }

  ghost predicate Validated(i: Inputs) {
    ValidInputs(i) && Validate(i.config, i.demand, i.snapshots, i.statuses, i.now).None?
  }

  /** The offer that the candidate of a subject is built from. */
  function OfferUsed(i: Inputs, app: App, subject: Subject): Option<Offer> {
    var snapshot := CurrentSnapshot(FindSnapshot(i.snapshots, app.appId), app, i.now);
    var offered := if snapshot.Some? then FindOffer(snapshot.value.entries, subject) else None;
    if offered.Some? && offered.value.checkedAt <= i.now < offered.value.expiresAt then offered else None
  }

  lemma OfferIs(i: Inputs, app: App, subject: Subject)
    requires Validated(i)
    ensures forall o :: OfferUsed(i, app, subject) == Some(o) <==> Offered(i, app, subject, o)
  {
    FoundSnapshot(i.snapshots, app.appId);
    var snapshot := FindSnapshot(i.snapshots, app.appId);
    if snapshot.Some? {
      FoundOffer(snapshot.value.entries, subject);
    }
    forall o ensures OfferUsed(i, app, subject) == Some(o) <==> Offered(i, app, subject, o) {
      if Offered(i, app, subject, o) {
        var s :| s in i.snapshots && s.appId == app.appId && s.appRevision == app.revision && s.generatedAt <= i.now
                 && FirstReady(s.entries, subject, o) && o.checkedAt <= i.now < o.expiresAt;
        assert snapshot == Some(s);
      }
    }
  }

  lemma ReachIs(i: Inputs, app: App, subjectId: string, reach: nat)
    requires ValidInputs(i)
    requires var asked := FindDemand(i.demand.apps, app.appId);
             var wanted := if asked.Some? then FindAsked(asked.value.subjects, subjectId) else None;
             reach == if wanted.Some? then wanted.value.estimatedReach else 0
    ensures Demands(i, app, subjectId, reach)
  {
    FoundDemand(i.demand.apps, app.appId);
    var asked := FindDemand(i.demand.apps, app.appId);
    if asked.Some? {
      assert UniqueAsked(asked.value.subjects);
      FoundAsked(asked.value.subjects, subjectId);
    }
    if d, a :| d in i.demand.apps && d.appId == app.appId && a in d.subjects && a.subjectId == subjectId {
      assert asked == Some(d);
      assert FindAsked(d.subjects, subjectId) == Some(a);
    }
  }

  lemma CandidateDescribes(i: Inputs, app: App, subject: Subject, tie: nat)
    requires Validated(i) && subject in app.subjects && subject.enabled
    ensures Describes(i, app, CandidateOf(subject, FindDemand(i.demand.apps, app.appId),
                                          CurrentSnapshot(FindSnapshot(i.snapshots, app.appId), app, i.now),
                                          i.demand.policy, tie, i.now))
  {
    var c := CandidateOf(subject, FindDemand(i.demand.apps, app.appId),
                         CurrentSnapshot(FindSnapshot(i.snapshots, app.appId), app, i.now), i.demand.policy, tie, i.now);
    OfferIs(i, app, subject);
    ReachIs(i, app, subject.subjectId, c.reach);
    var offer := OfferUsed(i, app, subject);
    assert c.expiresAt == if offer.Some? then Some(offer.value.expiresAt) else None;
    assert offer.Some? ==> Offered(i, app, subject, offer.value);
    assert forall o :: Offered(i, app, subject, o) ==> offer == Some(o);
  }

  lemma {:induction false} CandidatesDescribe(i: Inputs, app: App, subjects: seq<Subject>, c: Candidate)
    requires Validated(i) && forall s :: s in subjects ==> s in app.subjects
    requires c in Candidates(subjects, FindDemand(i.demand.apps, app.appId),
                             CurrentSnapshot(FindSnapshot(i.snapshots, app.appId), app, i.now), i.demand.policy,
                             TiesOf(i, app), i.now)
    ensures Describes(i, app, c)
  {
    if subjects[0].enabled {
      assert subjects[0] in app.subjects;
      CandidateDescribes(i, app, subjects[0], i.ties(app.appId, subjects[0].subjectId));
    }
    if c in Candidates(subjects[1..], FindDemand(i.demand.apps, app.appId),
                       CurrentSnapshot(FindSnapshot(i.snapshots, app.appId), app, i.now), i.demand.policy,
                       TiesOf(i, app), i.now) {
      CandidatesDescribe(i, app, subjects[1..], c);
    }
  }

  /** Every candidate of an app describes its subject by what the demand, the snapshot and the review say. */
  lemma CandidatesMean(i: Inputs, app: App, c: Candidate)
    requires Validated(i) && c in CandidatesOf(i, app)
    ensures Describes(i, app, c)
  {
    var asked := FindDemand(i.demand.apps, app.appId);
    var snapshot := CurrentSnapshot(FindSnapshot(i.snapshots, app.appId), app, i.now);
    assert CandidatesOf(i, app) == Candidates(app.subjects, asked, snapshot, i.demand.policy, TiesOf(i, app), i.now);
    CandidatesDescribe(i, app, app.subjects, c);
  }

  // ----- orders -----

  /** Demand order: urgent first, then overdue, then greater reach, then earlier expiry, then the tie. */
  ghost predicate Precedes(a: Candidate, b: Candidate) {
    var ea, eb := if a.expiresAt.Some? then a.expiresAt.value else 0, if b.expiresAt.Some? then b.expiresAt.value else 0;
    || (a.urgent && !b.urgent)
    || (a.urgent == b.urgent && a.overdue && !b.overdue)
    || (a.urgent == b.urgent && a.overdue == b.overdue && a.reach > b.reach)
    || (a.urgent == b.urgent && a.overdue == b.overdue && a.reach == b.reach && ea < eb)
    || (a.urgent == b.urgent && a.overdue == b.overdue && a.reach == b.reach && ea == eb && a.tie <= b.tie)
  }

  /** Exploration order: overdue first, then the tie. */
  ghost predicate ExploresBefore(a: Candidate, b: Candidate) {
    (a.overdue && !b.overdue) || (a.overdue == b.overdue && a.tie <= b.tie)
  }

  lemma OrdersMean(a: Candidate, b: Candidate)
    ensures DemandKey(a).AtMost(DemandKey(b)) <==> Precedes(a, b)
    ensures ExplorationKey(a).AtMost(ExplorationKey(b)) <==> ExploresBefore(a, b)
  {}

  /** The account is cooling down: its status says it is blocked until later. */
  ghost predicate Cooling(i: Inputs, accountId: string) {
    exists s :: s in i.statuses && s.accountId == accountId && s.blockedUntil > i.now
  }

  lemma CoolingIs(i: Inputs, accountId: string)
    requires Validated(i)
    ensures Cooling(i, accountId) <==> FindStatus(i.statuses, accountId).Some? && FindStatus(i.statuses, accountId).value.blockedUntil > i.now
  {
    StatusFound(i.statuses, accountId);
    if Cooling(i, accountId) {
      var s :| s in i.statuses && s.accountId == accountId && s.blockedUntil > i.now;
      var t := FindStatus(i.statuses, accountId).value;
      var p :| 0 <= p < |i.statuses| && i.statuses[p] == s;
      var q :| 0 <= q < |i.statuses| && i.statuses[q] == t;
    }
  }

  /** There was room for `c` when the plan was done: no cooldown in its way, and its cost within what is left of the allowance. */
  ghost predicate HadRoom(i: Inputs, app: App, preview: AppPreview, c: Candidate) {
    var cost := EstimateRefreshCost(c.subject, i.now);
    && (Cooling(i, app.accountId) ==> c.manual)
    && preview.estimated.products + cost.products <= preview.allowance.products
    && preview.estimated.links + cost.links <= preview.allowance.links
  }

  function ReservedOf(i: Inputs, app: App): nat
    requires 0.0 <= i.demand.policy.explorationFraction
  {
    ReservedSlots(i.demand.policy, |Exploration(CandidatesOf(i, app))|, i.draws(app.appId))
  }

  function PlanOf(i: Inputs, app: App, allowance: Cost): Picked
    requires 0.0 <= i.demand.policy.explorationFraction
  {
    PickAll(TermsOf(i, app, allowance), CandidatesOf(i, app), i.demand.policy, ReservedOf(i, app))
  }

  lemma PreviewOfPlan(i: Inputs, app: App, allowance: Cost)
    requires 0.0 <= i.demand.policy.explorationFraction
    ensures var preview, p := PreviewApp(i, app, allowance), PlanOf(i, app, allowance);
            && preview.allowance == allowance && preview.estimated == p.used && preview.reasons == p.reasons
            && |preview.selected| == |p.selected|
            && (forall c :: c in preview.selected <==> c in p.selected)
            && (forall c :: c in preview.deferred <==> c in CandidatesOf(i, app) && Id(c) !in p.reasons)
            && SortedBy(preview.selected, SelectedKey(p.reasons)) && SortedBy(preview.deferred, DemandKey)
  {
    var p := PlanOf(i, app, allowance);
    SortMembers(p.selected, SelectedKey(p.reasons));
    SortSorts(p.selected, SelectedKey(p.reasons));
    SortMembers(Only(CandidatesOf(i, app), Unpicked(p)), DemandKey);
    SortSorts(Only(CandidatesOf(i, app), Unpicked(p)), DemandKey);
    OnlyMembers(CandidatesOf(i, app), Unpicked(p));
  }

  lemma RoomMeansCapacity(i: Inputs, app: App, allowance: Cost, c: Candidate)
    requires Validated(i) && c in PreviewApp(i, app, allowance).deferred && HadRoom(i, app, PreviewApp(i, app, allowance), c)
    ensures OutOfCapacity(TermsOf(i, app, allowance), CandidatesOf(i, app), PlanOf(i, app, allowance), c)
  {
    PreviewOfPlan(i, app, allowance);
    CoolingIs(i, app.accountId);
    PlanDraws(TermsOf(i, app, allowance), CandidatesOf(i, app), i.demand.policy, ReservedOf(i, app));
    CapacityMeansAffordable(TermsOf(i, app, allowance), PlanOf(i, app, allowance), c);
  }

  /** A wanted subject that was deferred although there was room: the workset is full of wanted subjects before it and of exploration. */
  lemma WantedInOrder(i: Inputs, app: App, allowance: Cost, c: Candidate)
    requires Validated(i) && c in PreviewApp(i, app, allowance).deferred && HadRoom(i, app, PreviewApp(i, app, allowance), c)
    requires c.reach > 0
    ensures |PreviewApp(i, app, allowance).selected| == i.demand.policy.maxSubjectsPerApp
    ensures forall d :: d in PreviewApp(i, app, allowance).selected && d.reach > 0 ==> Precedes(d, c)
  {
    var terms, cs, p := TermsOf(i, app, allowance), CandidatesOf(i, app), PlanOf(i, app, allowance);
    RoomMeansCapacity(i, app, allowance, c);
    PreviewOfPlan(i, app, allowance);
    DemandIsGreedy(terms, cs, i.demand.policy, ReservedOf(i, app), c);
    PlanDraws(terms, cs, i.demand.policy, ReservedOf(i, app));
    forall d | d in PreviewApp(i, app, allowance).selected && d.reach > 0 ensures Precedes(d, c) {
      assert DemandKey(d).AtMost(DemandKey(c));
      OrdersMean(d, c);
    }
  }

  lemma ExplorationFull(i: Inputs, app: App, allowance: Cost, c: Candidate)
    requires Validated(i) && c in PreviewApp(i, app, allowance).deferred && HadRoom(i, app, PreviewApp(i, app, allowance), c)
    requires c.reach == 0
    ensures i.demand.policy.explorationFraction > 0.0 ==> |PlanOf(i, app, allowance).selected| == i.demand.policy.maxSubjectsPerApp
    ensures NoneAfter(PlanOf(i, app, allowance), ForExploration, ExplorationKey, c)
  {
    var terms, cs := TermsOf(i, app, allowance), CandidatesOf(i, app);
    RoomMeansCapacity(i, app, allowance, c);
    ReservedSlotsRound(i.demand.policy, |Exploration(cs)|, i.draws(app.appId));
    ExplorationIsGreedy(terms, cs, i.demand.policy, ReservedOf(i, app), c);
  }

  lemma ExploredBefore(i: Inputs, app: App, allowance: Cost, c: Candidate, d: Candidate)
    requires Validated(i) && NoneAfter(PlanOf(i, app, allowance), ForExploration, ExplorationKey, c)
    requires d in PlanOf(i, app, allowance).selected && d.reach == 0
    ensures ExploresBefore(d, c)
  {
    PlanDraws(TermsOf(i, app, allowance), CandidatesOf(i, app), i.demand.policy, ReservedOf(i, app));
    OrdersMean(d, c);
  }

  /** An unwanted subject that was deferred although there was room: explored subjects come before it, and with exploration on the workset is full. */
  lemma ExplorationInOrder(i: Inputs, app: App, allowance: Cost, c: Candidate)
    requires Validated(i) && c in PreviewApp(i, app, allowance).deferred && HadRoom(i, app, PreviewApp(i, app, allowance), c)
    requires c.reach == 0
    ensures i.demand.policy.explorationFraction > 0.0 ==> |PreviewApp(i, app, allowance).selected| == i.demand.policy.maxSubjectsPerApp
    ensures forall d :: d in PreviewApp(i, app, allowance).selected && d.reach == 0 ==> ExploresBefore(d, c)
  {
    ExplorationFull(i, app, allowance, c);
    PreviewOfPlan(i, app, allowance);
    forall d | d in PreviewApp(i, app, allowance).selected && d.reach == 0 ensures ExploresBefore(d, c) {
      ExploredBefore(i, app, allowance, c, d);
    }
  }

  /** A plan lists what is wanted before what is explored, each in demand order. */
  lemma SelectedIsOrdered(i: Inputs, app: App, allowance: Cost, x: nat, y: nat)
    requires Validated(i) && x < y < |PreviewApp(i, app, allowance).selected|
    ensures var a, b := PreviewApp(i, app, allowance).selected[x], PreviewApp(i, app, allowance).selected[y];
            (a.reach > 0 && b.reach == 0) || ((a.reach > 0 <==> b.reach > 0) && Precedes(a, b))
  {
    var selected, p := PreviewApp(i, app, allowance).selected, PlanOf(i, app, allowance);
    PreviewOfPlan(i, app, allowance);
    PlanDraws(TermsOf(i, app, allowance), CandidatesOf(i, app), i.demand.policy, ReservedOf(i, app));
    var a, b := selected[x], selected[y];
    assert a in selected && b in selected;
    assert SelectedKey(p.reasons)(a).AtMost(SelectedKey(p.reasons)(b));
    OrdersMean(a, b);
  }

  /** What is deferred is listed in demand order. */
  lemma DeferredIsOrdered(i: Inputs, app: App, allowance: Cost, x: nat, y: nat)
    requires Validated(i) && x < y < |PreviewApp(i, app, allowance).deferred|
    ensures Precedes(PreviewApp(i, app, allowance).deferred[x], PreviewApp(i, app, allowance).deferred[y])
  {
    PreviewOfPlan(i, app, allowance);
    OrdersMean(PreviewApp(i, app, allowance).deferred[x], PreviewApp(i, app, allowance).deferred[y]);
  }

  /** While an account cools down nothing is selected for it but subjects under a current manual review. */
  lemma CooldownIsHonoured(i: Inputs, app: App, allowance: Cost, c: Candidate)
    requires Validated(i) && Cooling(i, app.accountId) && c in PreviewApp(i, app, allowance).selected
    ensures c.manual
  {
    CoolingIs(i, app.accountId);
    PreviewOfPlan(i, app, allowance);
    PlanDraws(TermsOf(i, app, allowance), CandidatesOf(i, app), i.demand.policy, ReservedOf(i, app));
  }

  // ----- expiry, budgets and demand -----

  /** The preview lasts as long as its demand, a quarter of an hour and the day allow, whichever is least. */
  lemma PreviewExpiryIsLeast(i: Inputs)
    ensures PreviewExpiry(i) <= i.demand.expiresAt && PreviewExpiry(i) <= i.now + 900_000
    ensures PreviewExpiry(i) <= Budget.NextKstDay(i.now)
    ensures PreviewExpiry(i) in {i.demand.expiresAt, i.now + 900_000, Budget.NextKstDay(i.now)}
  {}

  /** A workset lasts as long as the preview, unless the manual review of a selected subject runs out before. */
  lemma {:induction false} WorksetExpiryIsLeast(expiresAt: Time, selected: seq<Candidate>)
    ensures WorksetExpiry(expiresAt, selected) == expiresAt
            || exists c :: c in selected && c.manual && c.subject.manual.Some?
                           && c.subject.manual.value.reviewUntil == WorksetExpiry(expiresAt, selected)
  {
    if selected != [] {
      WorksetExpiryIsLeast(expiresAt, selected[1..]);
    }
  }

  lemma LeftWithinBudget(i: Inputs, account: Budget.AccountBudget)
    requires Validated(i) && FindAccount(i.config.accounts, account.accountId) == Some(account)
    ensures var view := ViewOf(account, FindStatus(i.statuses, account.accountId));
            view.remainingProducts <= account.products && view.remainingLinks <= account.links
  {
    StatusFound(i.statuses, account.accountId);
    var status := FindStatus(i.statuses, account.accountId);
    assert status.Some? ==> StatusCurrent(i.config, status.value, i.now);
  }

  /** What a preview plans for an account never exceeds the account's configured budget, whatever its status claims. */
  lemma PreviewFitsBudget(i: Inputs, account: Budget.AccountBudget)
    requires Validated(i) && RefreshPriority(i).Ok? && FindAccount(i.config.accounts, account.accountId) == Some(account)
    ensures var planned := PlannedFor(i.config.apps, RefreshPriority(i).value.apps, account.accountId);
            planned.products <= account.products && planned.links <= account.links
  {
    LeftWithinBudget(i, account);
    PreviewFitsAccount(i, account.accountId);
  }

  lemma {:induction false} AppFound(apps: seq<App>, id: string)
    ensures FindApp(apps, id).Some? ==> FindApp(apps, id).value in apps && FindApp(apps, id).value.appId == id
  {
    if apps != [] && apps[0].appId != id {
      AppFound(apps[1..], id);
    }
  }

  /** Every subject that a validated demand asks for is a candidate of its app, at the revision and with the reach asked for. */
  lemma DemandedAreCandidates(i: Inputs, d: AppDemand, asked: Asked)
    requires Validated(i) && d in i.demand.apps && asked in d.subjects
    ensures exists app, c ::
              && app in i.config.apps && app.appId == d.appId && app.revision == d.appRevision
              && c in CandidatesOf(i, app)
              && c.subject.subjectId == asked.subjectId && c.subject.revision == asked.ruleRevision && c.reach == asked.estimatedReach
  {
    assert DemandRegistered(i.config, d);
    var app := FindApp(i.config.apps, d.appId).value;
    AppFound(i.config.apps, d.appId);
    var subject :| subject in app.subjects && subject.enabled && subject.subjectId == asked.subjectId && subject.revision == asked.ruleRevision;
    CandidatesAre(app.subjects, FindDemand(i.demand.apps, app.appId),
                  CurrentSnapshot(FindSnapshot(i.snapshots, app.appId), app, i.now), i.demand.policy,
                  TiesOf(i, app), i.now);
    var c :| c in CandidatesOf(i, app) && c.subject == subject;
    CandidatesMean(i, app, c);
    FoundDemand(i.demand.apps, d.appId);
    FoundAsked(d.subjects, asked.subjectId);
    DemandsIs(i, app, d, asked, c.reach);
  }

  lemma DemandsIs(i: Inputs, app: App, d: AppDemand, asked: Asked, reach: nat)
    requires ValidInputs(i) && d in i.demand.apps && d.appId == app.appId && asked in d.subjects
    requires Demands(i, app, asked.subjectId, reach)
    ensures reach == asked.estimatedReach
  {
    var e, a :| e in i.demand.apps && e.appId == app.appId && a in e.subjects && a.subjectId == asked.subjectId && a.estimatedReach == reach;
    FoundDemand(i.demand.apps, app.appId);
    assert UniqueAsked(d.subjects);
    FoundAsked(d.subjects, asked.subjectId);
  }
}
