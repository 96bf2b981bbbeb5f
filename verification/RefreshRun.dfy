/** From plan to work: refreshing what the preview selected never meets the daily budget. */
module RefreshRun {
  import opened Prelude
  import Preview = RefreshPreview
  import Plan = RefreshPlan
  import Shares = RefreshBudget
  import Ledger = SharelinkBudget
  import opened SharelinkProvider
  import opened ResolveSubject

  function Estimated(subjects: seq<Preview.Subject>, price: Preview.Subject -> Preview.Cost): Preview.Cost {
    if subjects == [] then Preview.Cost(0, 0) else Plan.Plus(price(subjects[0]), Estimated(subjects[1..], price))
  }

  ghost predicate NoDearer(subject: Preview.Subject, now: Instant, later: Instant) {
    && Preview.EstimateRefreshCost(subject, later).products <= Preview.EstimateRefreshCost(subject, now).products
    && Preview.EstimateRefreshCost(subject, later).links <= Preview.EstimateRefreshCost(subject, now).links
  }

  /** While the clock shows only times the estimates are good for. */
  ghost predicate EstimatesGood(world: nat -> Reply, subjects: seq<Preview.Subject>, now: Instant) {
    forall step: nat, s :: s in subjects ==> NoDearer(s, now, world(step).at)
  }

  lemma {:induction false} EstimatedSplit(subjects: seq<Preview.Subject>, k: nat, price: Preview.Subject -> Preview.Cost)
    requires k < |subjects|
    ensures Estimated(subjects[..k + 1], price)
            == Plan.Plus(Estimated(subjects[..k], price), price(subjects[k]))
  {
    if k > 0 {
      EstimatedSplit(subjects[1..], k - 1, price);
      assert subjects[..k + 1][1..] == subjects[1..][..k];
      assert subjects[..k][1..] == subjects[1..][..k - 1];
    } else {
      assert subjects[..1][1..] == [];
    }
  }

  lemma {:induction false} EstimatedPrefix(subjects: seq<Preview.Subject>, k: nat, price: Preview.Subject -> Preview.Cost)
    requires k <= |subjects|
    ensures Estimated(subjects[..k], price).products <= Estimated(subjects, price).products
    ensures Estimated(subjects[..k], price).links <= Estimated(subjects, price).links
    decreases |subjects| - k
  {
    if k == |subjects| {
      assert subjects[..k] == subjects;
    } else {
      EstimatedSplit(subjects, k, price);
      EstimatedPrefix(subjects, k + 1, price);
    }
  }

  /** Refresh subjects one after the other; the first failure ends the run. */
  method RefreshAll(provider: Provider, rules: Rules, subjects: seq<Preview.Subject>, subTagId: string, ghost now: Instant)
    returns (r: Result<seq<Outcome>, Failure>)
    requires provider.Valid() && EstimatesGood(provider.world, subjects, now)
    modifies provider`step, provider`rows, provider`asks, provider`details, provider`links, provider`pages
    ensures provider.Valid()
    ensures provider.Did(old(provider.State()), Estimated(subjects, Preview.PriceAt(now)), r == Err(LocalDailyBudget))
    ensures r.Ok? ==> |r.value| == |subjects| && forall k :: 0 <= k < |subjects| ==> (r.value[k] == Disabled <==> !subjects[k].enabled)
  {
    var outcomes: seq<Outcome> := [];
    ghost var start := provider.State();
    NothingRan(provider.world, provider.budget, start, Estimated([], Preview.PriceAt(now)));
    var k := 0;
    while k < |subjects|
      invariant 0 <= k <= |subjects| && |outcomes| == k && provider.Valid()
      invariant forall j :: 0 <= j < k ==> (outcomes[j] == Disabled <==> !subjects[j].enabled)
      invariant provider.Did(start, Estimated(subjects[..k], Preview.PriceAt(now)), false)
    {
      ghost var before := provider.State();
      ghost var began := provider.world(provider.step).at;
      var subject := subjects[k];
      assert subject in subjects && NoDearer(subject, now, began);
      var outcome, _, _ := Resolve(provider, rules, subject, subTagId);
      RanWithin(provider.world, provider.budget, before, provider.State(), Preview.EstimateRefreshCost(subject, began),
                Preview.PriceAt(now)(subject), outcome == Err(LocalDailyBudget));
      RunOneMore(provider.world, provider.budget, start, before, provider.State(), subjects, k, Preview.PriceAt(now),
                 outcome == Err(LocalDailyBudget));
      if outcome.Err? {
        return Err(outcome.error);
      }
      outcomes := outcomes + [outcome.value];
      k := k + 1;
    }
    assert subjects[..k] == subjects;
    r := Ok(outcomes);
  }

  lemma RunOneMore(world: nat -> Reply, budget: Ledger.AccountBudget, start: Account, before: Account, after: Account,
                   subjects: seq<Preview.Subject>, k: nat, price: Preview.Subject -> Preview.Cost, refused: bool)
    requires k < |subjects|
    requires Ran(world, budget, start, before, Estimated(subjects[..k], price), false)
    requires Ran(world, budget, before, after, price(subjects[k]), refused)
    ensures Ran(world, budget, start, after, Estimated(subjects[..k + 1], price), refused)
    ensures Ran(world, budget, start, after, Estimated(subjects, price), refused)
  {
    var cost, more, both := Estimated(subjects[..k], price), price(subjects[k]), Estimated(subjects[..k + 1], price);
    EstimatedSplit(subjects, k, price);
    EstimatedPrefix(subjects, k + 1, price);
    assert both == Preview.Cost(cost.products + more.products, cost.links + more.links);
    RanThen(world, budget, start, before, after, cost, more, refused);
    RanWithin(world, budget, start, after, both, Estimated(subjects, price), refused);
  }

  /** The clock stays within the day of the preview. */
  ghost predicate SameDay(world: nat -> Reply, now: Instant) {
    forall step: nat :: now <= world(step).at < Ledger.NextKstDay(now)
  }

  function SubjectsOf(cs: seq<Preview.Candidate>): seq<Preview.Subject> {
    if cs == [] then [] else [cs[0].subject] + SubjectsOf(cs[1..])
  }

  lemma {:induction false} EstimatedIsTotal(cs: seq<Preview.Candidate>, at: Instant)
    ensures Estimated(SubjectsOf(cs), Preview.PriceAt(at)) == Plan.TotalCost(cs, Preview.PriceAt(at))
    ensures forall s :: s in SubjectsOf(cs) ==> exists c :: c in cs && c.subject == s
  {
    if cs != [] {
      EstimatedIsTotal(cs[1..], at);
      assert cs[0] in cs;
      assert SubjectsOf(cs)[1..] == SubjectsOf(cs[1..]);
    }
  }

  /** Before a workset expires its subjects meet what `RefreshAll` asks for, at the preview's own estimate. */
  lemma WorksetIsRunnable(i: Preview.Inputs, app: Preview.App, allowance: Preview.Cost, world: nat -> Reply)
    requires 0.0 <= i.demand.policy.explorationFraction && Preview.UniqueSubjects(app.subjects)
    requires forall step: nat :: i.now <= world(step).at < Preview.PreviewApp(i, app, allowance).worksetExpiresAt
    ensures var preview := Preview.PreviewApp(i, app, allowance);
            && EstimatesGood(world, SubjectsOf(preview.selected), i.now)
            && Estimated(SubjectsOf(preview.selected), Preview.PriceAt(i.now)) == preview.estimated
            && (forall s :: s in SubjectsOf(preview.selected) ==> s.enabled)
    ensures SameDay(world, i.now)
  {
    var preview := Preview.PreviewApp(i, app, allowance);
    EstimatedIsTotal(preview.selected, i.now);
    Shares.PreviewWithinAllowance(i, app, allowance);
    forall step: nat, s | s in SubjectsOf(preview.selected) ensures NoDearer(s, i.now, world(step).at) && s.enabled {
      var c :| c in preview.selected && c.subject == s;
      Shares.EstimatesHold(i, app, allowance, c, world(step).at);
    }
    Shares.ExpiryCaps(Preview.PreviewExpiry(i), preview.selected);
    Shares.SelectedAreCandidates(i, app, allowance);
  }

  // ----- the whole account -----

  /** An estimate asks for products exactly when it asks for links. */
  ghost predicate Paired(cost: Preview.Cost) {
    cost.products == 0 <==> cost.links == 0
  }

  lemma {:induction false} TotalsPaired(cs: seq<Preview.Candidate>, at: Instant)
    ensures Paired(Plan.TotalCost(cs, Preview.PriceAt(at)))
  {
    if cs != [] {
      TotalsPaired(cs[1..], at);
    }
  }

  lemma {:induction false} PlansPaired(i: Preview.Inputs, apps: seq<Preview.App>, previews: seq<Preview.AppPreview>, accountId: string)
    requires 0.0 <= i.demand.policy.explorationFraction && Shares.PreviewsOf(i, apps, previews)
    ensures Paired(Shares.PlannedFor(apps, previews, accountId))
  {
    if apps != [] {
      PlansPaired(i, apps[1..], previews[1..], accountId);
      Shares.PreviewWithinAllowance(i, apps[0], Preview.AllowanceOf(i, apps[0]).value);
      TotalsPaired(previews[0].selected, i.now);
    }
  }

  lemma {:induction false} NothingAsked(rows: map<Ledger.DayKey, Ledger.BudgetRow>, budget: Ledger.AccountBudget, asks: seq<Ledger.Ask>)
    requires Ledger.AskedProducts(asks) == 0 && Ledger.AskedLinks(asks) == 0
    ensures Ledger.AllAccepted(rows, budget, asks)
    decreases |asks|
  {
    if asks != [] {
      NothingAsked(rows, budget, asks[1..]);
    }
  }

  /** Work that asks for no more than was left at the preview is not refused that day. */
  lemma WithinRemainderIsAccepted(
    world: nat -> Reply, budget: Ledger.AccountBudget, a: Account, b: Account, cost: Preview.Cost, refused: bool, now: Instant)
    requires SameDay(world, now) && Paired(cost) && Ran(world, budget, a, b, cost, refused)
    requires cost.products <= Ledger.RemainingProducts(a.rows, budget, now)
    requires cost.links <= Ledger.RemainingLinks(a.rows, budget, now)
    ensures !refused
  {
    var asks: seq<Ledger.Ask> :| Asked(world, budget, a, b, asks, cost, refused);
    if cost.products == 0 {
      NothingAsked(a.rows, budget, asks);
    } else {
      Ledger.RemainderShowsSolvency(a.rows, budget, now);
      forall k | 0 <= k < |asks| ensures now <= asks[k].at < Ledger.NextKstDay(now) {
        assert ObservedAt(world, asks, k);
      }
      Ledger.PlannedWorkIsNeverRefused(a.rows, budget, asks, now);
    }
  }

  /** The status given to the preview is what the account's ledger reports at that time. */
  ghost predicate Reported(i: Preview.Inputs, budget: Ledger.AccountBudget, rows: map<Ledger.DayKey, Ledger.BudgetRow>) {
    var status := Preview.FindStatus(i.statuses, budget.accountId);
    && Preview.FindAccount(i.config.accounts, budget.accountId) == Some(budget)
    && status.Some?
    && status.value.remainingProducts == Ledger.RemainingProducts(rows, budget, i.now)
    && status.value.remainingLinks == Ledger.RemainingLinks(rows, budget, i.now)
  }

  /** One run per app of the account, one after the other, each within its own workset's estimate. */
  ghost predicate RunsOf(world: nat -> Reply, budget: Ledger.AccountBudget, apps: seq<Preview.App>, previews: seq<Preview.AppPreview>,
                         states: seq<Account>, refused: seq<bool>)
  {
    && |previews| == |apps| == |refused|
    && |states| == |apps| + 1
    && (apps != [] ==>
          && (if apps[0].accountId == budget.accountId
              then Ran(world, budget, states[0], states[1], previews[0].estimated, refused[0])
              else states[1] == states[0] && !refused[0])
          && RunsOf(world, budget, apps[1..], previews[1..], states[1..], refused[1..]))
  }

  lemma {:induction false} NoRunIsRefused(
    world: nat -> Reply, budget: Ledger.AccountBudget, apps: seq<Preview.App>, previews: seq<Preview.AppPreview>,
    states: seq<Account>, refused: seq<bool>, start: Account, spent: Preview.Cost, whole: Preview.Cost, now: Instant)
    requires RunsOf(world, budget, apps, previews, states, refused) && Ran(world, budget, start, states[0], spent, false)
    requires var planned := Shares.PlannedFor(apps, previews, budget.accountId);
             && spent.products + planned.products <= whole.products && spent.links + planned.links <= whole.links
    requires SameDay(world, now) && Paired(whole)
    requires whole.products <= Ledger.RemainingProducts(start.rows, budget, now)
    requires whole.links <= Ledger.RemainingLinks(start.rows, budget, now)
    ensures forall k :: 0 <= k < |refused| ==> !refused[k]
    decreases |apps|
  {
    if apps != [] {
      var cost := spent;
      if apps[0].accountId == budget.accountId {
        var more := previews[0].estimated;
        cost := Preview.Cost(spent.products + more.products, spent.links + more.links);
        RanThen(world, budget, start, states[0], states[1], spent, more, refused[0]);
        RanWithin(world, budget, start, states[1], cost, whole, refused[0]);
        WithinRemainderIsAccepted(world, budget, start, states[1], whole, refused[0], now);
      }
      NoRunIsRefused(world, budget, apps[1..], previews[1..], states[1..], refused[1..], start, cost, whole, now);
    }
  }

  /**
   End to end: take a preview made from the account's reported remainder and run every app's workset the same
   day. Whatever the caches hold and the provider answers, no reservation is refused by the daily budget.
   */
  lemma AccountRefreshIsNeverRefused(
    i: Preview.Inputs, world: nat -> Reply, budget: Ledger.AccountBudget, states: seq<Account>, refused: seq<bool>)
    requires Shares.ValidInputs(i) && Preview.RefreshPriority(i).Ok? && |states| > 0 && Reported(i, budget, states[0].rows)
    requires SameDay(world, i.now)
    requires RunsOf(world, budget, i.config.apps, Preview.RefreshPriority(i).value.apps, states, refused)
    ensures forall k :: 0 <= k < |refused| ==> !refused[k]
  {
    var previews := Preview.RefreshPriority(i).value.apps;
    var whole := Shares.PlannedFor(i.config.apps, previews, budget.accountId);
    Shares.PreviewIffValid(i);
    Shares.PreviewFitsAccount(i, budget.accountId);
    PlansPaired(i, i.config.apps, previews, budget.accountId);
    NothingRan(world, budget, states[0], Preview.Cost(0, 0));
    NoRunIsRefused(world, budget, i.config.apps, previews, states, refused, states[0], Preview.Cost(0, 0), whole, i.now);
  }
}
