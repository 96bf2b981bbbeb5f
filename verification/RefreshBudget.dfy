/** The refresh preview across apps and over time: floor shares fit the account, estimates hold until the workset expires. */
module RefreshBudget {
  import opened Prelude
  import opened RefreshPreview
  import opened RefreshPlan
  import Budget = SharelinkBudget

  // ----- floor shares -----

  function SumOfShares(amount: nat, shares: seq<Share>, total: Positive): nat {
    if shares == [] then 0 else Allowance(amount, shares[0].weight, total) + SumOfShares(amount, shares[1..], total)
  }

  lemma FloorShare(amount: nat, weight: nat, total: Positive)
    ensures Allowance(amount, weight, total) * total <= amount * weight
  {}

  lemma AddShare(amount: nat, w: nat, weights: nat, part: nat, parts: nat, total: Positive)
    requires part * total <= amount * w && parts * total <= amount * weights
    ensures (part + parts) * total <= amount * (w + weights)
  {}

  lemma {:induction false} SharesWithin(amount: nat, shares: seq<Share>, total: Positive)
    ensures SumOfShares(amount, shares, total) * total <= amount * TotalWeight(shares)
  {
    if shares != [] {
      var w := shares[0].weight;
      SharesWithin(amount, shares[1..], total);
      FloorShare(amount, w, total);
      AddShare(amount, w, TotalWeight(shares[1..]), Allowance(amount, w, total), SumOfShares(amount, shares[1..], total), total);
    }
  }

  /** Rounding every share down never hands out more than there is. */
  lemma SharesFit(amount: nat, shares: seq<Share>)
    requires 0 < TotalWeight(shares)
    ensures SumOfShares(amount, shares, TotalWeight(shares)) <= amount
  {
    var total: Positive := TotalWeight(shares);
    SharesWithin(amount, shares, total);
    var sum := SumOfShares(amount, shares, total);
    Cancel(sum, amount, total);
  }

  lemma Cancel(a: nat, b: nat, factor: Positive)
    requires a * factor <= b * factor
    ensures a <= b
  {}

  ghost predicate DistinctApps(apps: seq<App>) {
    forall i, j :: 0 <= i < j < |apps| ==> apps[i].appId != apps[j].appId
  }

  function Grant(amount: nat, shares: seq<Share>, total: Positive, appId: string): nat {
    var share := FindShare(shares, appId);
    if share.None? then 0 else Allowance(amount, share.value.weight, total)
  }

  function Grants(apps: seq<App>, accountId: string, amount: nat, shares: seq<Share>, total: Positive): nat {
    if apps == [] then 0
    else
      (if apps[0].accountId == accountId then Grant(amount, shares, total, apps[0].appId) else 0)
      + Grants(apps[1..], accountId, amount, shares, total)
  }

  lemma {:induction false} OneMoreShare(apps: seq<App>, accountId: string, amount: nat, shares: seq<Share>, total: Positive)
    requires DistinctApps(apps) && shares != []
    ensures var extra := if exists a :: a in apps && a.appId == shares[0].appId
                         then Allowance(amount, shares[0].weight, total) else 0;
            Grants(apps, accountId, amount, shares, total) <= extra + Grants(apps, accountId, amount, shares[1..], total)
  {
    if apps != [] {
      OneMoreShare(apps[1..], accountId, amount, shares, total);
      assert apps[0] in apps;
      assert forall a :: a in apps[1..] ==> a in apps && a.appId != apps[0].appId;
    }
  }

  lemma {:induction false} GrantsWithinShares(
    apps: seq<App>, accountId: string, amount: nat, shares: seq<Share>, total: Positive)
    requires DistinctApps(apps)
    ensures Grants(apps, accountId, amount, shares, total) <= SumOfShares(amount, shares, total)
    decreases |shares|
  {
    if shares == [] {
      NoGrants(apps, accountId, amount, total);
    } else {
      OneMoreShare(apps, accountId, amount, shares, total);
      GrantsWithinShares(apps, accountId, amount, shares[1..], total);
    }
  }

  lemma {:induction false} NoGrants(apps: seq<App>, accountId: string, amount: nat, total: Positive)
    ensures Grants(apps, accountId, amount, [], total) == 0
  {
    if apps != [] {
      NoGrants(apps[1..], accountId, amount, total);
    }
  }

  // ----- every app of a valid input has a share -----

  ghost predicate ValidInputs(i: Inputs) {
    && ValidConfig(i.config)
    && ValidDemand(i.demand)
    && (forall id :: 0.0 <= i.draws(id) < 1.0)
  }

  lemma {:induction false} FoundShare(shares: seq<Share>, id: string)
    ensures FindShare(shares, id).Some? <==> exists s :: s in shares && s.appId == id
  {
    if shares != [] {
      FoundShare(shares[1..], id);
      assert shares[0] in shares;
      assert forall s :: s in shares ==> s == shares[0] || s in shares[1..];
      assert forall s :: s in shares[1..] ==> s in shares;
    }
  }

  lemma {:induction false} MembersAre(apps: seq<App>, accountId: string)
    requires DistinctApps(apps)
    ensures forall a :: a in Members(apps, accountId) <==> a in apps && a.accountId == accountId
    ensures DistinctApps(Members(apps, accountId))
  {
    if apps != [] {
      MembersAre(apps[1..], accountId);
      var rest := Members(apps[1..], accountId);
      assert apps == [apps[0]] + apps[1..];
      forall j | 0 <= j < |rest| ensures rest[j].appId != apps[0].appId {
        assert rest[j] in apps[1..];
      }
    }
  }

  lemma {:induction false} EqualSharesCover(members: seq<App>, app: App)
    requires app in members
    ensures exists s :: s in EqualShares(members) && s.appId == app.appId
  {
    if members[0] == app {
      assert EqualShares(members)[0] == Share(app.appId, 1);
      assert EqualShares(members)[0] in EqualShares(members);
    } else {
      EqualSharesCover(members[1..], app);
      var s :| s in EqualShares(members[1..]) && s.appId == app.appId;
      assert s in EqualShares(members);
    }
  }

  function ShareIds(shares: seq<Share>): set<string> {
    set s | s in shares :: s.appId
  }

  function AppIds(apps: seq<App>): set<string> {
    set a | a in apps :: a.appId
  }

  lemma {:induction false} DistinctShareIds(shares: seq<Share>)
    requires UniqueShares(shares)
    ensures |ShareIds(shares)| == |shares|
  {
    if shares != [] {
      DistinctShareIds(shares[1..]);
      assert shares == [shares[0]] + shares[1..];
      assert ShareIds(shares) == {shares[0].appId} + ShareIds(shares[1..]);
    }
  }

  lemma {:induction false} AppIdsBound(apps: seq<App>)
    ensures |AppIds(apps)| <= |apps|
  {
    if apps != [] {
      AppIdsBound(apps[1..]);
      assert apps == [apps[0]] + apps[1..];
      assert AppIds(apps) == {apps[0].appId} + AppIds(apps[1..]);
    }
  }

  /** As many distinct shares as members, all of them members: then every member has one. */
  lemma CompleteSharesCover(shares: seq<Share>, members: seq<App>, app: App)
    requires UniqueShares(shares) && |shares| == |members| && app in members
    requires forall s :: s in shares ==> exists m :: m in members && m.appId == s.appId
    ensures exists s :: s in shares && s.appId == app.appId
  {
    DistinctShareIds(shares);
    AppIdsBound(members);
    var missing := AppIds(members) - ShareIds(shares);
    assert ShareIds(shares) <= AppIds(members);
    assert |missing| == |AppIds(members)| - |ShareIds(shares)|;
    assert app.appId in AppIds(members);
    assert missing == {};
  }

  lemma {:induction false} FoundShares(given: seq<AccountShares>, id: string)
    ensures FindShares(given, id).Some? ==> FindShares(given, id).value in given && FindShares(given, id).value.accountId == id
  {
    if given != [] && given[0].accountId != id {
      FoundShares(given[1..], id);
    }
  }

  /** The failure "missing app allowance" cannot happen: every configured app has its account and its share. */
  lemma EveryAppHasAShare(i: Inputs, app: App)
    requires ValidInputs(i) && Validate(i.config, i.demand, i.snapshots, i.statuses, i.now).None? && app in i.config.apps
    ensures AllowanceOf(i, app).Some?
  {
    var members := Members(i.config.apps, app.accountId);
    MembersAre(i.config.apps, app.accountId);
    var given := FindShares(i.demand.policy.accountShares, app.accountId);
    FoundShares(i.demand.policy.accountShares, app.accountId);
    if given.Some? {
      assert SharesComplete(i.config, given.value);
      CompleteSharesCover(given.value.apps, members, app);
    } else {
      EqualSharesCover(members, app);
    }
    FoundShare(SharesOf(i.config, i.demand, app.accountId), app.appId);
  }

  /** The previews of a list of apps, one for each, in order. */
  ghost predicate PreviewsOf(i: Inputs, apps: seq<App>, previews: seq<AppPreview>)
    requires 0.0 <= i.demand.policy.explorationFraction
  {
    if apps == [] then previews == []
    else
      var allowance := AllowanceOf(i, apps[0]);
      && previews != []
      && allowance.Some?
      && previews[0] == PreviewApp(i, apps[0], allowance.value)
      && PreviewsOf(i, apps[1..], previews[1..])
  }

  lemma {:induction false} AppsArePreviewed(i: Inputs, apps: seq<App>)
    requires 0.0 <= i.demand.policy.explorationFraction
    requires forall a :: a in apps ==> AllowanceOf(i, a).Some?
    ensures PreviewApps(i, apps).Ok? && PreviewsOf(i, apps, PreviewApps(i, apps).value)
  {
    if apps != [] {
      AppsArePreviewed(i, apps[1..]);
      var rest := PreviewApps(i, apps[1..]).value;
      assert PreviewApps(i, apps).value[1..] == rest;
    }
  }

  /** A preview is produced exactly for validated inputs, for every configured app. */
  lemma PreviewIffValid(i: Inputs)
    requires ValidInputs(i)
    ensures RefreshPriority(i).Ok? <==> Validate(i.config, i.demand, i.snapshots, i.statuses, i.now).None?
    ensures RefreshPriority(i).Ok? ==> PreviewsOf(i, i.config.apps, RefreshPriority(i).value.apps)
  {
    if Validate(i.config, i.demand, i.snapshots, i.statuses, i.now).None? {
      forall a | a in i.config.apps ensures AllowanceOf(i, a).Some? {
        EveryAppHasAShare(i, a);
      }
      AppsArePreviewed(i, i.config.apps);
    }
  }

  // ----- the account's budget -----

  function PlannedFor(apps: seq<App>, previews: seq<AppPreview>, accountId: string): Cost
  {
    if apps == [] || previews == [] then Cost(0, 0)
    else
      var rest := PlannedFor(apps[1..], previews[1..], accountId);
      if apps[0].accountId == accountId then Plus(previews[0].estimated, rest) else rest
  }

  lemma PreviewWithinAllowance(i: Inputs, app: App, allowance: Cost)
    requires 0.0 <= i.demand.policy.explorationFraction
    ensures var preview := PreviewApp(i, app, allowance);
            && preview.estimated.products <= allowance.products && preview.estimated.links <= allowance.links
            && |preview.selected| <= i.demand.policy.maxSubjectsPerApp
            && preview.estimated == TotalCost(preview.selected, PriceAt(i.now))
  {
    var cs, terms := CandidatesOf(i, app), TermsOf(i, app, allowance);
    var reserved := ReservedSlots(i.demand.policy, |Exploration(cs)|, i.draws(app.appId));
    PlanDraws(terms, cs, i.demand.policy, reserved);
    var p := PickAll(terms, cs, i.demand.policy, reserved);
    SortCost(p.selected, Earlier(SelectedKey(p.reasons)), terms.price);
    SortMembers(p.selected, SelectedKey(p.reasons));
  }

  lemma {:induction false} PlansWithinGrants(i: Inputs, apps: seq<App>, previews: seq<AppPreview>, accountId: string, view: AccountView)
    requires 0.0 <= i.demand.policy.explorationFraction && PreviewsOf(i, apps, previews)
    requires FindAccount(i.config.accounts, accountId).Some?
    requires view == ViewOf(FindAccount(i.config.accounts, accountId).value, FindStatus(i.statuses, accountId))
    requires 0 < TotalWeight(SharesOf(i.config, i.demand, accountId))
    ensures var shares := SharesOf(i.config, i.demand, accountId);
            var planned := PlannedFor(apps, previews, accountId);
            && planned.products <= Grants(apps, accountId, view.remainingProducts, shares, TotalWeight(shares))
            && planned.links <= Grants(apps, accountId, view.remainingLinks, shares, TotalWeight(shares))
  {
    if apps != [] {
      PlansWithinGrants(i, apps[1..], previews[1..], accountId, view);
      PreviewWithinAllowance(i, apps[0], AllowanceOf(i, apps[0]).value);
    }
  }

  lemma {:induction false} NothingPlanned(apps: seq<App>, previews: seq<AppPreview>, accountId: string)
    requires forall a :: a in apps ==> a.accountId != accountId
    ensures PlannedFor(apps, previews, accountId) == Cost(0, 0)
    decreases |apps|
  {
    if apps != [] && previews != [] {
      assert apps[0] in apps;
      NothingPlanned(apps[1..], previews[1..], accountId);
    }
  }

  /** The estimates of all selected subjects of all apps of an account fit what the account has left. */
  lemma PreviewFitsAccount(i: Inputs, accountId: string)
    requires ValidInputs(i) && RefreshPriority(i).Ok? && FindAccount(i.config.accounts, accountId).Some?
    ensures var view := ViewOf(FindAccount(i.config.accounts, accountId).value, FindStatus(i.statuses, accountId));
            var planned := PlannedFor(i.config.apps, RefreshPriority(i).value.apps, accountId);
            planned.products <= view.remainingProducts && planned.links <= view.remainingLinks
  {
    PreviewIffValid(i);
    var previews := RefreshPriority(i).value.apps;
    var shares := SharesOf(i.config, i.demand, accountId);
    var view := ViewOf(FindAccount(i.config.accounts, accountId).value, FindStatus(i.statuses, accountId));
    if app :| app in i.config.apps && app.accountId == accountId {
      EveryAppHasAShare(i, app);
      PlansWithinGrants(i, i.config.apps, previews, accountId, view);
      GrantsWithinShares(i.config.apps, accountId, view.remainingProducts, shares, TotalWeight(shares));
      GrantsWithinShares(i.config.apps, accountId, view.remainingLinks, shares, TotalWeight(shares));
      SharesFit(view.remainingProducts, shares);
      SharesFit(view.remainingLinks, shares);
    } else {
      NothingPlanned(i.config.apps, previews, accountId);
    }
  }

  // ----- from candidates to subjects -----

  /** Exactly the enabled subjects are candidates, each once, and zero-cost ones are those under a current manual review. */
  lemma {:induction false} CandidatesAre(
    subjects: seq<Subject>, asked: Option<AppDemand>, snapshot: Option<Snapshot>, policy: Policy, ties: string -> nat, now: Time)
    requires UniqueSubjects(subjects)
    ensures var cs := Candidates(subjects, asked, snapshot, policy, ties, now);
            && UniqueIds(cs)
            && (forall c :: c in cs ==> c.subject in subjects && c.subject.enabled && (c.manual <==> ManualNow(c.subject, now)))
            && (forall s :: s in subjects && s.enabled ==> exists c :: c in cs && c.subject == s)
  {
    if subjects != [] {
      CandidatesAre(subjects[1..], asked, snapshot, policy, ties, now);
      var rest := Candidates(subjects[1..], asked, snapshot, policy, ties, now);
      assert subjects == [subjects[0]] + subjects[1..];
      var cs := Candidates(subjects, asked, snapshot, policy, ties, now);
      forall j | 0 <= j < |rest| ensures Id(rest[j]) != subjects[0].subjectId {
        assert rest[j] in rest;
      }
      assert UniqueIds(cs);
      forall s | s in subjects && s.enabled ensures exists c :: c in cs && c.subject == s {
        if s == subjects[0] {
          assert cs[0] in cs;
        } else {
          var c :| c in rest && c.subject == s;
          assert c in cs;
        }
      }
    }
  }

  lemma {:induction false} ExpiryCaps(expiresAt: Time, selected: seq<Candidate>)
    ensures WorksetExpiry(expiresAt, selected) <= expiresAt
    ensures forall c :: c in selected && c.manual && c.subject.manual.Some? ==>
              WorksetExpiry(expiresAt, selected) <= c.subject.manual.value.reviewUntil
  {
    if selected != [] {
      ExpiryCaps(expiresAt, selected[1..]);
    }
  }

  /** Estimates only fall with time, except when a manual review runs out. */
  lemma EstimateLater(subject: Subject, now: Time, later: Time)
    requires now <= later && (ManualNow(subject, now) ==> later < subject.manual.value.reviewUntil)
    ensures EstimateRefreshCost(subject, later).products <= EstimateRefreshCost(subject, now).products
    ensures EstimateRefreshCost(subject, later).links <= EstimateRefreshCost(subject, now).links
  {}

  /** Until the workset expires, every selected subject costs at most what the preview estimated. */
  lemma EstimatesHold(i: Inputs, app: App, allowance: Cost, c: Candidate, later: Time)
    requires 0.0 <= i.demand.policy.explorationFraction && UniqueSubjects(app.subjects)
    requires c in PreviewApp(i, app, allowance).selected
    requires i.now <= later < PreviewApp(i, app, allowance).worksetExpiresAt
    ensures EstimateRefreshCost(c.subject, later).products <= EstimateRefreshCost(c.subject, i.now).products
    ensures EstimateRefreshCost(c.subject, later).links <= EstimateRefreshCost(c.subject, i.now).links
    ensures c.subject in app.subjects && c.subject.enabled && later < Budget.NextKstDay(i.now)
  {
    SelectedAreCandidates(i, app, allowance);
    ExpiryCaps(PreviewExpiry(i), PreviewApp(i, app, allowance).selected);
    EstimateLater(c.subject, i.now, later);
  }

  lemma SelectedAreCandidates(i: Inputs, app: App, allowance: Cost)
    requires 0.0 <= i.demand.policy.explorationFraction && UniqueSubjects(app.subjects)
    ensures forall c :: c in PreviewApp(i, app, allowance).selected ==>
              c.subject in app.subjects && c.subject.enabled && (c.manual <==> ManualNow(c.subject, i.now))
  {
    var cs, terms := CandidatesOf(i, app), TermsOf(i, app, allowance);
    var reserved := ReservedSlots(i.demand.policy, |Exploration(cs)|, i.draws(app.appId));
    PlanDraws(terms, cs, i.demand.policy, reserved);
    var p := PickAll(terms, cs, i.demand.policy, reserved);
    SortMembers(p.selected, SelectedKey(p.reasons));
    CandidatesAre(app.subjects, FindDemand(i.demand.apps, app.appId),
                  CurrentSnapshot(FindSnapshot(i.snapshots, app.appId), app, i.now), i.demand.policy,
                  TiesOf(i, app), i.now);
  }

  /** In every app's preview, selected and deferred together are exactly its enabled subjects, each once. */
  lemma PreviewPartitions(i: Inputs, app: App, allowance: Cost)
    requires 0.0 <= i.demand.policy.explorationFraction && UniqueSubjects(app.subjects)
    ensures var preview := PreviewApp(i, app, allowance);
            multiset(preview.selected) + multiset(preview.deferred) == multiset(CandidatesOf(i, app))
    ensures UniqueIds(CandidatesOf(i, app))
    ensures forall s :: s in app.subjects && s.enabled <==> exists c :: c in CandidatesOf(i, app) && c.subject == s
  {
    var reserved := ReservedSlots(i.demand.policy, |Exploration(CandidatesOf(i, app))|, i.draws(app.appId));
    CandidatesAre(app.subjects, FindDemand(i.demand.apps, app.appId),
                  CurrentSnapshot(FindSnapshot(i.snapshots, app.appId), app, i.now), i.demand.policy,
                  TiesOf(i, app), i.now);
    PlanPartitions(TermsOf(i, app, allowance), CandidatesOf(i, app), i.demand.policy, reserved);
  }

  /** With exploration on, a subject deferred for capacity means that the app's workset is full. */
  lemma CapacityDeferralMeansFull(i: Inputs, app: App, allowance: Cost, c: Candidate)
    requires 0.0 < i.demand.policy.explorationFraction <= 0.5 && 0.0 <= i.draws(app.appId)
    requires UniqueSubjects(app.subjects) && c in PreviewApp(i, app, allowance).deferred
    ensures var terms := TermsOf(i, app, allowance);
            var preview := PreviewApp(i, app, allowance);
            ReasonDeferred(terms, Picked(preview.selected, preview.reasons, preview.estimated), c) == Capacity <==>
              && |preview.selected| == i.demand.policy.maxSubjectsPerApp
              && Affordable(terms, preview.estimated, c)
  {
    var cs, terms := CandidatesOf(i, app), TermsOf(i, app, allowance);
    var reserved := ReservedSlots(i.demand.policy, |Exploration(cs)|, i.draws(app.appId));
    var p := PickAll(terms, cs, i.demand.policy, reserved);
    SortMembers(p.selected, SelectedKey(p.reasons));
    SortMembers(Only(cs, Unpicked(p)), DemandKey);
    OnlyMembers(cs, Unpicked(p));
    ReservedSlotsRound(i.demand.policy, |Exploration(cs)|, i.draws(app.appId));
    CapacityMeansFull(terms, cs, i.demand.policy, reserved, c);
  }
}
