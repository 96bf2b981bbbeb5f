/** The refresh priority preview: which subjects of each app the next refresh should work on, within the account's budget. */
module RefreshPreview {
  import opened Prelude
  import Ordering
  import Budget = SharelinkBudget

  type Time = int

  const PreviewMs := 900_000

  datatype Manual = Manual(productId: string, title: string, url: string, reviewedAt: Time, reviewUntil: Time)

  datatype CatalogSource = CategoryBest | TodayDeals | OverallBest

  datatype Subject = Subject(
    subjectId: string,
    revision: Positive,
    enabled: bool,
    categoryId: string,
    catalogSource: CatalogSource,
    pinnedProductId: Option<string>,
    maxCatalogPages: Option<Positive>,
    manual: Option<Manual>)

  datatype App = App(appId: string, accountId: string, revision: Positive, subjects: seq<Subject>)

  datatype Config = Config(accounts: seq<Budget.AccountBudget>, apps: seq<App>)

  datatype Share = Share(appId: string, weight: Positive)

  datatype AccountShares = AccountShares(accountId: string, apps: seq<Share>)

  datatype Policy = Policy(
    maxSubjectsPerApp: Positive,
    explorationFraction: real,
    urgentWithinMs: nat,
    maxWaitMs: nat,
    accountShares: seq<AccountShares>)

  datatype Asked = Asked(subjectId: string, ruleRevision: Positive, estimatedReach: nat)

  datatype AppDemand = AppDemand(appId: string, appRevision: Positive, subjects: seq<Asked>)

  datatype Demand = Demand(generatedAt: Time, expiresAt: Time, policy: Policy, apps: seq<AppDemand>)

  datatype Status = Status(
    accountId: string,
    blockedUntil: nat,
    leasedUntil: nat,
    resetAt: nat,
    remainingProducts: nat,
    remainingLinks: nat)

  datatype Offer = Offer(checkedAt: Time, expiresAt: Time)

  datatype Entry = Entry(subjectId: string, ruleRevision: Positive, offer: Option<Offer>)

  datatype Snapshot = Snapshot(appId: string, appRevision: Positive, generatedAt: Time, entries: seq<Entry>)

  datatype Error = ExpiredDemand | StaleRegistration | IncompleteShares | DuplicateStatus | StaleStatus | UnknownSnapshot | MissingAllowance

  // ----- what the schemas guarantee -----

  ghost predicate ValidConfig(config: Config) {
    && (forall i, j :: 0 <= i < j < |config.apps| ==> config.apps[i].appId != config.apps[j].appId)
    && (forall i, j :: 0 <= i < j < |config.accounts| ==> config.accounts[i].accountId != config.accounts[j].accountId)
    && (forall a :: a in config.apps ==> UniqueSubjects(a.subjects) && FindAccount(config.accounts, a.accountId).Some?)
  }

  ghost predicate UniqueSubjects(subjects: seq<Subject>) {
    forall i, j :: 0 <= i < j < |subjects| ==> subjects[i].subjectId != subjects[j].subjectId
  }

  ghost predicate ValidDemand(demand: Demand) {
    && 0.0 <= demand.policy.explorationFraction <= 0.5
    && (forall s :: s in demand.policy.accountShares ==> UniqueShares(s.apps) && s.apps != [])
    && (forall i, j :: 0 <= i < j < |demand.policy.accountShares| ==>
          demand.policy.accountShares[i].accountId != demand.policy.accountShares[j].accountId)
    && (forall i, j :: 0 <= i < j < |demand.apps| ==> demand.apps[i].appId != demand.apps[j].appId)
    && (forall a :: a in demand.apps ==> UniqueAsked(a.subjects))
  }

  ghost predicate UniqueAsked(asked: seq<Asked>) {
    forall i, j :: 0 <= i < j < |asked| ==> asked[i].subjectId != asked[j].subjectId
  }

  ghost predicate UniqueShares(shares: seq<Share>) {
    forall i, j :: 0 <= i < j < |shares| ==> shares[i].appId != shares[j].appId
  }

  // ----- lookups -----

  function FindAccount(accounts: seq<Budget.AccountBudget>, id: string): Option<Budget.AccountBudget> {
    if accounts == [] then None
    else if accounts[0].accountId == id then Some(accounts[0])
    else FindAccount(accounts[1..], id)
  }

  function FindApp(apps: seq<App>, id: string): Option<App> {
    if apps == [] then None else if apps[0].appId == id then Some(apps[0]) else FindApp(apps[1..], id)
  }

  function FindDemand(apps: seq<AppDemand>, id: string): Option<AppDemand> {
    if apps == [] then None else if apps[0].appId == id then Some(apps[0]) else FindDemand(apps[1..], id)
  }

  function FindAsked(asked: seq<Asked>, id: string): Option<Asked> {
    if asked == [] then None else if asked[0].subjectId == id then Some(asked[0]) else FindAsked(asked[1..], id)
  }

  function FindStatus(statuses: seq<Status>, id: string): Option<Status> {
    if statuses == [] then None else if statuses[0].accountId == id then Some(statuses[0]) else FindStatus(statuses[1..], id)
  }

  function FindShares(shares: seq<AccountShares>, id: string): Option<AccountShares> {
    if shares == [] then None else if shares[0].accountId == id then Some(shares[0]) else FindShares(shares[1..], id)
  }

  function FindShare(shares: seq<Share>, id: string): (share: Option<Share>)
    ensures share.Some? ==> share.value in shares && share.value.appId == id && share.value.weight <= TotalWeight(shares)
  {
    if shares == [] then None else if shares[0].appId == id then Some(shares[0]) else FindShare(shares[1..], id)
  }

  function FindSnapshot(snapshots: seq<Snapshot>, id: string): Option<Snapshot> {
    if snapshots == [] then None else if snapshots[0].appId == id then Some(snapshots[0]) else FindSnapshot(snapshots[1..], id)
  }

  /** The first ready offer of a subject at its current revision. */
  function FindOffer(entries: seq<Entry>, subject: Subject): Option<Offer> {
    if entries == [] then None
    else if entries[0].subjectId == subject.subjectId && entries[0].ruleRevision == subject.revision && entries[0].offer.Some?
    then entries[0].offer
    else FindOffer(entries[1..], subject)
  }

  function Members(apps: seq<App>, accountId: string): seq<App> {
    if apps == [] then []
    else (if apps[0].accountId == accountId then [apps[0]] else []) + Members(apps[1..], accountId)
  }

  // ----- validation -----

  predicate DemandRegistered(config: Config, asked: AppDemand) {
    var app := FindApp(config.apps, asked.appId);
    && app.Some?
    && app.value.revision == asked.appRevision
    && forall s :: s in asked.subjects ==>
         exists r :: r in app.value.subjects && r.enabled && r.subjectId == s.subjectId && r.revision == s.ruleRevision
  }

  predicate SharesComplete(config: Config, shares: AccountShares) {
    var members := Members(config.apps, shares.accountId);
    && FindAccount(config.accounts, shares.accountId).Some?
    && |shares.apps| == |members|
    && forall a :: a in shares.apps ==> exists m :: m in members && m.appId == a.appId
  }

  predicate StatusCurrent(config: Config, status: Status, now: Time) {
    var account := FindAccount(config.accounts, status.accountId);
    && account.Some?
    && status.resetAt == Budget.NextKstDay(now)
    && status.remainingProducts <= account.value.products
    && status.remainingLinks <= account.value.links
  }

  function Validate(config: Config, demand: Demand, snapshots: seq<Snapshot>, statuses: seq<Status>, now: Time): Option<Error> {
    if now < 0 || demand.generatedAt > now || demand.expiresAt <= now then Some(ExpiredDemand)
    else if exists d :: d in demand.apps && !DemandRegistered(config, d) then Some(StaleRegistration)
    else if exists s :: s in demand.policy.accountShares && !SharesComplete(config, s) then Some(IncompleteShares)
    else if exists i, j | 0 <= i < j < |statuses| :: statuses[i].accountId == statuses[j].accountId then Some(DuplicateStatus)
    else if exists s :: s in statuses && !StatusCurrent(config, s, now) then Some(StaleStatus)
    else if (exists i, j | 0 <= i < j < |snapshots| :: snapshots[i].appId == snapshots[j].appId)
            || (exists s :: s in snapshots && FindApp(config.apps, s.appId).None?) then Some(UnknownSnapshot)
    else None
  }

  // ----- budgets -----

  datatype Cost = Cost(products: nat, links: nat)

  predicate ManualNow(subject: Subject, now: Time) {
    subject.manual.Some? && subject.manual.value.reviewedAt <= now < subject.manual.value.reviewUntil
  }

  function PageLimit(subject: Subject): nat {
    match subject.maxCatalogPages
    case Some(pages) => pages
    case None => 1
  }

  function EstimateRefreshCost(subject: Subject, now: Time): Cost {
    if ManualNow(subject, now) then Cost(0, 0)
    else if subject.pinnedProductId.Some? then Cost(1, 1)
    else Cost(30 * PageLimit(subject) + 3, 3)
  }

  function SharesOf(config: Config, demand: Demand, accountId: string): seq<Share> {
    var given := FindShares(demand.policy.accountShares, accountId);
    if given.Some? then given.value.apps else EqualShares(Members(config.apps, accountId))
  }

  function EqualShares(members: seq<App>): seq<Share> {
    if members == [] then [] else [Share(members[0].appId, 1)] + EqualShares(members[1..])
  }

  function TotalWeight(shares: seq<Share>): nat {
    if shares == [] then 0 else shares[0].weight + TotalWeight(shares[1..])
  }

  /** One app's part of an amount: the exact share rounded down. */
  function Allowance(amount: nat, weight: nat, total: Positive): nat {
    amount * weight / total
  }

  datatype AccountView = AccountView(remainingProducts: nat, remainingLinks: nat, blockedUntil: nat)

  function ViewOf(account: Budget.AccountBudget, status: Option<Status>): AccountView {
    if status.Some?
    then AccountView(status.value.remainingProducts, status.value.remainingLinks, status.value.blockedUntil)
    else AccountView(account.products, account.links, 0)
  }

  // ----- candidates and their order -----

  datatype Candidate = Candidate(
    subject: Subject,
    reach: nat,
    expiresAt: Option<Time>,
    urgent: bool,
    overdue: bool,
    manual: bool,
    tie: nat)

  /** `tie` is the digest of the demand's seed, the five-minute bucket, the app and the subject. */
  function CandidateOf(subject: Subject, asked: Option<AppDemand>, snapshot: Option<Snapshot>, policy: Policy, tie: nat, now: Time)
    : Candidate
  {
    var offered := if snapshot.Some? then FindOffer(snapshot.value.entries, subject) else None;
    var offer := if offered.Some? && offered.value.checkedAt <= now < offered.value.expiresAt then offered else None;
    var wanted := if asked.Some? then FindAsked(asked.value.subjects, subject.subjectId) else None;
    var reach := if wanted.Some? then wanted.value.estimatedReach else 0;
    Candidate(
      subject, reach,
      if offer.Some? then Some(offer.value.expiresAt) else None,
      reach > 0 && (offer.None? || offer.value.expiresAt <= now + policy.urgentWithinMs),
      offer.None? || now - offer.value.checkedAt >= policy.maxWaitMs,
      EstimateRefreshCost(subject, now).products == 0,
      tie)
  }

  function CurrentSnapshot(snapshot: Option<Snapshot>, app: App, now: Time): Option<Snapshot> {
    if snapshot.Some? && snapshot.value.appRevision == app.revision && snapshot.value.generatedAt <= now then snapshot else None
  }

  function Candidates(subjects: seq<Subject>, asked: Option<AppDemand>, snapshot: Option<Snapshot>, policy: Policy,
                      ties: string -> nat, now: Time): seq<Candidate>
  {
    if subjects == [] then []
    else
      var rest := Candidates(subjects[1..], asked, snapshot, policy, ties, now);
      if subjects[0].enabled
      then [CandidateOf(subjects[0], asked, snapshot, policy, ties(subjects[0].subjectId), now)] + rest
      else rest
  }

  function Flag(b: bool): int {
    if b then 0 else 1
  }

  /** Sort keys: smaller comes first, compared component by component. */
  datatype Key = Key(group: int, urgency: int, age: int, reach: int, expiry: int, tie: int) {
    predicate AtMost(k: Key) {
      if group != k.group then group < k.group
      else if urgency != k.urgency then urgency < k.urgency
      else if age != k.age then age < k.age
      else if reach != k.reach then reach < k.reach
      else if expiry != k.expiry then expiry < k.expiry
      else tie <= k.tie
    }
  }

  function DemandKey(c: Candidate): Key {
    Key(0, Flag(c.urgent), Flag(c.overdue), 0 - c.reach, c.expiresAt.GetOr(0), c.tie)
  }

  function ExplorationKey(c: Candidate): Key {
    Key(0, 0, Flag(c.overdue), 0, 0, c.tie)
  }

  function Earlier(key: Candidate -> Key): (Candidate, Candidate) -> bool {
    (a, b) => !key(b).AtMost(key(a))
  }

  function Sort(cs: seq<Candidate>, key: Candidate -> Key): seq<Candidate> {
    Ordering.Arrange(cs, Earlier(key))
  }

  function Only(cs: seq<Candidate>, keep: Candidate -> bool): seq<Candidate> {
    if cs == [] then [] else (if keep(cs[0]) then [cs[0]] else []) + Only(cs[1..], keep)
  }

  const IsWanted := (c: Candidate) => c.reach > 0
  const IsExploration := (c: Candidate) => c.reach == 0

  function Wanted(cs: seq<Candidate>): seq<Candidate> {
    Sort(Only(cs, IsWanted), DemandKey)
  }

  function Exploration(cs: seq<Candidate>): seq<Candidate> {
    Sort(Only(cs, IsExploration), ExplorationKey)
  }

  // ----- picking -----

  datatype Reason = ForDemand | ForExploration

  datatype Picked = Picked(selected: seq<Candidate>, reasons: map<string, Reason>, used: Cost)

  /** What an app may pick with; `price` is the estimated cost of each subject at the time of the preview. */
  datatype Terms = Terms(allowance: Cost, cooling: bool, most: Positive, price: Subject -> Cost)

  function PriceAt(now: Time): Subject -> Cost {
    (subject: Subject) => EstimateRefreshCost(subject, now)
  }

  const NothingPicked := Picked([], map[], Cost(0, 0))

  predicate Affordable(terms: Terms, used: Cost, c: Candidate) {
    var cost := terms.price(c.subject);
    && (terms.cooling ==> c.manual)
    && used.products + cost.products <= terms.allowance.products
    && used.links + cost.links <= terms.allowance.links
  }

  function Take(p: Picked, c: Candidate, reason: Reason, cost: Cost): Picked {
    Picked(p.selected + [c], p.reasons[c.subject.subjectId := reason],
           Cost(p.used.products + cost.products, p.used.links + cost.links))
  }

  /** One greedy pass over a pool, taking at most `limit` more. */
  function Pass(terms: Terms, p: Picked, pool: seq<Candidate>, limit: int, reason: Reason): Picked
    decreases |pool|
  {
    if pool == [] || limit <= 0 || |p.selected| >= terms.most then p
    else if pool[0].subject.subjectId in p.reasons || !Affordable(terms, p.used, pool[0])
    then Pass(terms, p, pool[1..], limit, reason)
    else Pass(terms, Take(p, pool[0], reason, terms.price(pool[0].subject)), pool[1..], limit - 1, reason)
  }

  /** How many slots exploration gets first: the exact fraction, rounded up with the probability of its remainder. */
  function ReservedSlots(policy: Policy, exploration: nat, draw: real): nat
    requires 0.0 <= policy.explorationFraction
  {
    var exact := policy.maxSubjectsPerApp as real * policy.explorationFraction;
    if exploration == 0 then 0
    else exact.Floor + if draw < exact - exact.Floor as real then 1 else 0
  }

  function PickReserved(terms: Terms, cs: seq<Candidate>, reserved: nat): Picked {
    Pass(terms, NothingPicked, Exploration(cs), reserved, ForExploration)
  }

  function PickDemand(terms: Terms, cs: seq<Candidate>, reserved: nat): Picked {
    var p := PickReserved(terms, cs, reserved);
    Pass(terms, p, Wanted(cs), terms.most - |p.selected|, ForDemand)
  }

  /** The three passes: reserved exploration, then demand, then exploration again in what is left. */
  function PickAll(terms: Terms, cs: seq<Candidate>, policy: Policy, reserved: nat): Picked {
    var p := PickDemand(terms, cs, reserved);
    if policy.explorationFraction > 0.0
    then Pass(terms, p, Exploration(cs), terms.most - |p.selected|, ForExploration)
    else p
  }

  /** Demand picks before exploration picks, each in demand order. */
  function SelectedKey(reasons: map<string, Reason>): Candidate -> Key {
    (c: Candidate) =>
      var explores := c.subject.subjectId in reasons && reasons[c.subject.subjectId].ForExploration?;
      DemandKey(c).(group := if explores then 1 else 0)
  }

  datatype DeferReason = AccountCooldownNow | ShareBudget | Capacity

  function ReasonDeferred(terms: Terms, p: Picked, c: Candidate): DeferReason {
    var cost := terms.price(c.subject);
    if terms.cooling && !c.manual then AccountCooldownNow
    else if cost.products > terms.allowance.products - p.used.products || cost.links > terms.allowance.links - p.used.links
    then ShareBudget
    else Capacity
  }

  function Unpicked(p: Picked): Candidate -> bool {
    (c: Candidate) => c.subject.subjectId !in p.reasons
  }

  function Deferred(p: Picked, cs: seq<Candidate>): seq<Candidate> {
    Sort(Only(cs, Unpicked(p)), DemandKey)
  }

  /** When the workset stops being usable: with the preview, or when a selected manual review runs out. */
  function WorksetExpiry(expiresAt: Time, selected: seq<Candidate>): Time {
    if selected == [] then expiresAt
    else
      var rest := WorksetExpiry(expiresAt, selected[1..]);
      if selected[0].manual && selected[0].subject.manual.Some?
      then Min(rest, selected[0].subject.manual.value.reviewUntil)
      else rest
  }

  // ----- the preview of one app and of all -----

  datatype AppPreview = AppPreview(
    appId: string,
    allowance: Cost,
    estimated: Cost,
    explorationReserved: nat,
    selected: seq<Candidate>,
    reasons: map<string, Reason>,
    deferred: seq<Candidate>,
    worksetExpiresAt: Time)

  datatype Preview = Preview(apps: seq<AppPreview>, expiresAt: Time)

  /** Everything the preview reads; `ties` and `draws` are digests of the seed, the time bucket and their arguments. */
  datatype Inputs = Inputs(
    config: Config,
    demand: Demand,
    snapshots: seq<Snapshot>,
    statuses: seq<Status>,
    ties: (string, string) -> nat,
    draws: string -> real,
    now: Time)

  function PreviewExpiry(i: Inputs): Time {
    Min(i.demand.expiresAt, Min(i.now + PreviewMs, Budget.NextKstDay(i.now)))
  }

  /** The account's remaining budget and the share of it that an app may plan with, if the app has one. */
  function AllowanceOf(i: Inputs, app: App): Option<Cost> {
    var account := FindAccount(i.config.accounts, app.accountId);
    var shares := SharesOf(i.config, i.demand, app.accountId);
    var share := FindShare(shares, app.appId);
    if account.None? || share.None? then None
    else
      var view := ViewOf(account.value, FindStatus(i.statuses, app.accountId));
      var total := TotalWeight(shares);
      Some(Cost(Allowance(view.remainingProducts, share.value.weight, total),
                Allowance(view.remainingLinks, share.value.weight, total)))
  }

  function TermsOf(i: Inputs, app: App, allowance: Cost): Terms {
    var status := FindStatus(i.statuses, app.accountId);
    Terms(allowance, status.Some? && status.value.blockedUntil > i.now, i.demand.policy.maxSubjectsPerApp, PriceAt(i.now))
  }

  function CandidatesOf(i: Inputs, app: App): seq<Candidate> {
    Candidates(app.subjects, FindDemand(i.demand.apps, app.appId),
               CurrentSnapshot(FindSnapshot(i.snapshots, app.appId), app, i.now), i.demand.policy,
               TiesOf(i, app), i.now)
  }

  function TiesOf(i: Inputs, app: App): string -> nat {
    (subjectId: string) => i.ties(app.appId, subjectId)
  }

  function PreviewApp(i: Inputs, app: App, allowance: Cost): AppPreview
    requires 0.0 <= i.demand.policy.explorationFraction
  {
    var cs, terms := CandidatesOf(i, app), TermsOf(i, app, allowance);
    var reserved := ReservedSlots(i.demand.policy, |Exploration(cs)|, i.draws(app.appId));
    var p := PickAll(terms, cs, i.demand.policy, reserved);
    var selected := Sort(p.selected, SelectedKey(p.reasons));
    AppPreview(app.appId, allowance, p.used, reserved, selected, p.reasons, Deferred(p, cs),
               WorksetExpiry(PreviewExpiry(i), selected))
  }

  function PreviewApps(i: Inputs, apps: seq<App>): Result<seq<AppPreview>, Error>
    requires 0.0 <= i.demand.policy.explorationFraction
  {
    if apps == [] then Ok([])
    else
      var allowance := AllowanceOf(i, apps[0]);
      if allowance.None? then Err(MissingAllowance)
      else
        var rest := PreviewApps(i, apps[1..]);
        if rest.Err? then rest else Ok([PreviewApp(i, apps[0], allowance.value)] + rest.value)
  }

  function EarliestExpiry(expiresAt: Time, apps: seq<AppPreview>): Time {
    if apps == [] then expiresAt else Min(apps[0].worksetExpiresAt, EarliestExpiry(expiresAt, apps[1..]))
  }

  function RefreshPriority(i: Inputs): Result<Preview, Error>
    requires 0.0 <= i.demand.policy.explorationFraction
  {
    var invalid := Validate(i.config, i.demand, i.snapshots, i.statuses, i.now);
    if invalid.Some? then Err(invalid.value)
    else
      var apps := PreviewApps(i, i.config.apps);
      if apps.Err? then Err(apps.error) else Ok(Preview(apps.value, EarliestExpiry(PreviewExpiry(i), apps.value)))
  }

  /** The mutable part of the preview: what has been picked so far for one app. */
  class Picker {
    const terms: Terms
    var selected: seq<Candidate>
    var reasons: map<string, Reason>
    var used: Cost

    ghost function State(): Picked
      reads this
    {
      Picked(selected, reasons, used)
    }

    constructor (terms: Terms)
      ensures this.terms == terms && State() == NothingPicked
    {
      this.terms := terms;
      selected, reasons, used := [], map[], Cost(0, 0);
    }

    method Pick(pool: seq<Candidate>, limit: int, reason: Reason)
      modifies this
      ensures State() == Pass(terms, old(State()), pool, limit, reason)
    {
      var taken := 0;
      var k := 0;
      while k < |pool|
        invariant 0 <= k <= |pool|
        invariant Pass(terms, State(), pool[k..], limit - taken, reason) == Pass(terms, old(State()), pool, limit, reason)
      {
        if taken >= limit || |selected| >= terms.most {
          break;
        }
        var c := pool[k];
        assert pool[k..][0] == c && pool[k..][1..] == pool[k + 1..];
        k := k + 1;
        if c.subject.subjectId in reasons {
          continue;
        }
        var cost := terms.price(c.subject);
        if (terms.cooling && !c.manual) || used.products + cost.products > terms.allowance.products
           || used.links + cost.links > terms.allowance.links {
          continue;
        }
        selected := selected + [c];
        reasons := reasons[c.subject.subjectId := reason];
        used := Cost(used.products + cost.products, used.links + cost.links);
        taken := taken + 1;
      }
    }
  }

  method PickForApp(terms: Terms, cs: seq<Candidate>, policy: Policy, reserved: nat) returns (p: Picked)
    ensures p == PickAll(terms, cs, policy, reserved)
  {
    var exploration, wanted := Exploration(cs), Wanted(cs);
    var picker := new Picker(terms);
    picker.Pick(exploration, reserved, ForExploration);
    picker.Pick(wanted, terms.most - |picker.selected|, ForDemand);
    if policy.explorationFraction > 0.0 {
      picker.Pick(exploration, terms.most - |picker.selected|, ForExploration);
    }
    p := Picked(picker.selected, picker.reasons, picker.used);
  }
}
