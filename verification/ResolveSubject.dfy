/**
 Resolving one subject to an offer: a bounded search over provider pages, whatever the provider answers.

 The methods return, besides their result, a ghost trace of what they did: the pages they read, the products
 they tried and what became of each. The predicates on traces say what the result owes to the answers.
 */
module ResolveSubject {
  import opened Prelude
  import opened Preview = RefreshPreview
  import Ledger = SharelinkBudget
  import opened SharelinkProvider

  const MaxCandidates := 3

  /** The rules that pick products from a page: an arbitrary filter, and the optional learned order. */
  datatype Rules = Rules(suits: (Product, Instant) -> bool, learned: bool, rank: (seq<Product>, Instant) -> seq<Product>)

  datatype Offer = Offer(productId: string, title: string, url: string, manual: bool, checkedAt: Instant, expiresAt: Instant)

  datatype Outcome = Disabled | NoMatch | Ready(offer: Offer)

  datatype StopReason = Exhausted | PinnedUnavailable | CandidateLimit | PageLimitReached

  datatype Inspection = Inspection(pages: nat, candidates: nat, reason: StopReason)

  /** What a search is about; a pinned subject comes with its product's detail, if the provider has one. */
  datatype Query = Query(world: nat -> Reply, rules: Rules, subject: Subject, subTagId: string, pinned: Option<Fresh>)

  // ----- one candidate -----

  /** Whether a resolution is over after a candidate, and with which offer. */
  datatype Tried = Skip | Found(offer: Offer)

  datatype Verdict = NoDetail | Stale | Unsuitable | ItemRefused | TooShort | Offered(offer: Offer) | Broke(failure: Failure)

  /** What became of one candidate: its detail, the link asked for it, and the verdict. */
  datatype Trial = Trial(
    candidate: Product,
    before: Moment,
    detail: Result<Option<Fresh>, Failure>,
    known: Moment,
    linked: Moment,
    after: Moment,
    verdict: Verdict)

  function Told(verdict: Verdict): Result<Tried, Failure> {
    match verdict
    case Offered(offer) => Ok(Found(offer))
    case Broke(failure) => Err(failure)
    case _ => Ok(Skip)
  }

  /** The detail at hand: the pinned product's own, and otherwise the candidate's. */
  ghost predicate Looked(world: nat -> Reply, pinned: Option<Fresh>, a: Moment, b: Moment, id: string, detail: Result<Option<Fresh>, Failure>) {
    if pinned.Some? then b == a && detail == Ok(pinned)
    else
      match detail
      case Ok(read) => DetailRead(world, a, b, id, read)
      case Err(failure) => DetailFails(world, a, b, id, failure)
  }

  /** The offer made of a detail and its link. */
  ghost predicate OfferOf(offer: Offer, known: Fresh, url: string, endAt: Option<Instant>) {
    && !offer.manual
    && offer.productId == known.product.id && offer.title == known.product.title && offer.url == url
    && offer.checkedAt == known.checkedAt
    && Soonest(offer.expiresAt, known.expiresAt, endAt)
  }

  /** No more than a minute is left of the detail or of the listed product. */
  ghost predicate EndsSoon(known: Fresh, endAt: Option<Instant>, now: Instant) {
    known.expiresAt <= now + Minute || (endAt.Some? && endAt.value <= now + Minute)
  }

  /** The end of a trial whose detail is good: the link is issued between `a` and `linked`. */
  ghost predicate Closed(world: nat -> Reply, key: LinkKey, known: Fresh, endAt: Option<Instant>,
                         a: Moment, linked: Moment, b: Moment, verdict: Verdict)
  {
    var now := world(linked.step).at;
    match verdict
    case ItemRefused => LinkFails(world, a, linked, key, ItemUnavailable) && b == linked
    case TooShort =>
      (exists url :: LinkIssued(world, a, linked, key, url)) && EndsSoon(known, endAt, now) && b == linked.(step := linked.step + 1)
    case Offered(offer) =>
      && LinkIssued(world, a, linked, key, offer.url) && OfferOf(offer, known, offer.url, endAt)
      && !EndsSoon(known, endAt, now) && b == linked.(step := linked.step + 1)
    case Broke(failure) =>
      || (LinkFails(world, a, linked, key, failure) && failure != ItemUnavailable && b == linked)
      || (failure == InvalidOffer && !EndsSoon(known, endAt, now) && now < known.checkedAt && b == linked.(step := linked.step + 1))
    case _ => false
  }

  /** The verdict on a candidate whose detail is known at `a`. */
  ghost predicate Weighed(world: nat -> Reply, rules: Rules, key: LinkKey, known: Fresh, endAt: Option<Instant>,
                          a: Moment, linked: Moment, b: Moment, verdict: Verdict)
  {
    var now, next := world(a.step).at, a.(step := a.step + 1);
    if known.expiresAt <= now + Minute then verdict == Stale && b == next
    else if !rules.suits(known.product, now) then verdict == Unsuitable && b == next
    else Closed(world, key, known, endAt, next, linked, b, verdict)
  }

  /** The verdict is the one that the answers call for. */
  ghost predicate Judged(q: Query, t: Trial) {
    && Looked(q.world, q.pinned, t.before, t.known, t.candidate.id, t.detail)
    && if t.detail.Err? then t.verdict == Broke(t.detail.error) && t.after == t.known
       else if t.detail.value.None? then t.verdict == NoDetail && t.after == t.known
       else Weighed(q.world, q.rules, LinkKey(q.subTagId, t.candidate.id), t.detail.value.value, t.candidate.endAt, t.known, t.linked, t.after, t.verdict)
  }

  /** What inspecting some candidates costs: a detail and a link each, or only a link when the detail is at hand. */
  function InspectionCost(pinned: Option<Fresh>, count: nat): Cost {
    Cost(if pinned.Some? then 0 else count, count)
  }

  function LookCost(pinned: Option<Fresh>): Cost {
    Cost(if pinned.Some? then 0 else 1, 0)
  }

  method Look(provider: Provider, pinned: Option<Fresh>, id: string) returns (detail: Result<Option<Fresh>, Failure>)
    requires provider.Valid() && (pinned.Some? ==> Checked(pinned.value, id))
    modifies provider`step, provider`rows, provider`asks, provider`details
    ensures provider.Valid()
    ensures provider.Did(old(provider.State()), LookCost(pinned), detail == Err(LocalDailyBudget))
    ensures Looked(provider.world, pinned, old(provider.Now()), provider.Now(), id, detail)
    ensures detail.Ok? && detail.value.Some? ==> Checked(detail.value.value, id)
  {
    if pinned.Some? {
      NothingRan(provider.world, provider.budget, provider.State(), Cost(0, 0));
      detail := Ok(pinned);
    } else {
      detail := provider.Detail(id);
    }
  }

  /** Issue the link of a candidate whose detail is good; only a refusal of that item lets the search continue. */
  method Close(provider: Provider, key: LinkKey, known: Fresh, endAt: Option<Instant>)
    returns (tried: Result<Tried, Failure>, ghost verdict: Verdict, ghost linked: Moment)
    requires provider.Valid() && Checked(known, key.productId)
    modifies provider`step, provider`rows, provider`asks, provider`links
    ensures provider.Valid() && tried == Told(verdict)
    ensures provider.Did(old(provider.State()), Cost(0, 1), tried == Err(LocalDailyBudget))
    ensures Closed(provider.world, key, known, endAt, old(provider.Now()), linked, provider.Now(), verdict)
    ensures tried.Ok? && tried.value.Found? ==> Published(provider.links, key.subTagId, tried.value.offer)
    ensures tried.Ok? && tried.value.Found? ==> tried.value.offer.productId == key.productId
  {
    var url := provider.Issue(key.productId, key.subTagId);
    linked := provider.Now();
    if url.Err? {
      verdict := if url.error == ItemUnavailable then ItemRefused else Broke(url.error);
      return if url.error == ItemUnavailable then Ok(Skip) else Err(url.error), verdict, linked;
    }
    var expiresAt := known.expiresAt;
    if endAt.Some? {
      expiresAt := Min(expiresAt, endAt.value);
    }
    var done := provider.Draw();
    if expiresAt <= done.at + Minute {
      return Ok(Skip), TooShort, linked;
    }
    if expiresAt <= known.checkedAt {
      return Err(InvalidOffer), Broke(InvalidOffer), linked;
    }
    var offer := Offer.Offer(known.product.id, known.product.title, url.value, false, known.checkedAt, expiresAt);
    return Ok(Found(offer)), Offered(offer), linked;
  }

  /** A detail must have more than a minute left and satisfy the rules before a link is issued for it. */
  method Weigh(provider: Provider, rules: Rules, key: LinkKey, known: Fresh, endAt: Option<Instant>)
    returns (tried: Result<Tried, Failure>, ghost verdict: Verdict, ghost linked: Moment)
    requires provider.Valid() && Checked(known, key.productId)
    modifies provider`step, provider`rows, provider`asks, provider`links
    ensures provider.Valid() && tried == Told(verdict)
    ensures provider.Did(old(provider.State()), Cost(0, 1), tried == Err(LocalDailyBudget))
    ensures Weighed(provider.world, rules, key, known, endAt, old(provider.Now()), linked, provider.Now(), verdict)
    ensures tried.Ok? && tried.value.Found? ==> Published(provider.links, key.subTagId, tried.value.offer)
    ensures tried.Ok? && tried.value.Found? ==> tried.value.offer.productId == key.productId
  {
    NothingRan(provider.world, provider.budget, provider.State(), Cost(0, 1));
    var now := provider.Draw();
    if known.expiresAt <= now.at + Minute {
      return Ok(Skip), Stale, provider.Now();
    }
    if !rules.suits(known.product, now.at) {
      return Ok(Skip), Unsuitable, provider.Now();
    }
    tried, verdict, linked := Close(provider, key, known, endAt);
  }

  ghost predicate Asks(q: Query, world: nat -> Reply, rules: Rules, subTagId: string, pinned: Option<Fresh>) {
    q.world == world && q.rules == rules && q.subTagId == subTagId && q.pinned == pinned
  }

  /** An automatic offer carries the link that was issued for its own product under the app's tag, and is short-lived. */
  ghost predicate Published(links: map<LinkKey, Cached<string>>, subTagId: string, offer: Offer) {
    && !offer.manual
    && LinkKey(subTagId, offer.productId) in links
    && links[LinkKey(subTagId, offer.productId)].value == offer.url
    && offer.checkedAt < offer.expiresAt <= offer.checkedAt + 15 * Minute
  }

  // ----- the candidates of a page -----

  ghost predicate TrialAt(q: Query, queue: seq<Product>, start: Moment, trials: seq<Trial>, m: nat)
    requires m < |trials| <= |queue|
  {
    && trials[m].candidate == queue[m]
    && trials[m].before == (if m == 0 then start else trials[m - 1].after)
    && Judged(q, trials[m])
    && (m + 1 < |trials| ==> Told(trials[m].verdict) == Ok(Skip))
  }

  /** The first of a queue were tried one after the other, and all but the last were skipped. */
  ghost predicate TriedInOrder(q: Query, queue: seq<Product>, start: Moment, trials: seq<Trial>, end: Moment) {
    && |trials| <= |queue|
    && (forall m: nat :: m < |trials| ==> TrialAt(q, queue, start, trials, m))
    && end == (if trials == [] then start else trials[|trials| - 1].after)
  }

  /** What the trials of a page come to. */
  function LastTold(trials: seq<Trial>): Result<Tried, Failure> {
    if trials == [] then Ok(Skip) else Told(trials[|trials| - 1].verdict)
  }

  lemma TryOneMore(q: Query, queue: seq<Product>, start: Moment, trials: seq<Trial>, end: Moment, t: Trial)
    requires TriedInOrder(q, queue, start, trials, end) && LastTold(trials) == Ok(Skip)
    requires |trials| < |queue| && t.candidate == queue[|trials|] && t.before == end && Judged(q, t)
    ensures TriedInOrder(q, queue, start, trials + [t], t.after)
  {
    forall m: nat | m < |trials + [t]| ensures TrialAt(q, queue, start, trials + [t], m) {
      if m < |trials| {
        assert TrialAt(q, queue, start, trials, m);
      }
    }
  }

  /** Check the next candidate of the queue and issue its link. */
  method TryCandidate(provider: Provider, rules: Rules, subTagId: string, pinned: Option<Fresh>, candidate: Product,
                      ghost q: Query, ghost queue: seq<Product>, ghost first: Moment, ghost trials: seq<Trial>)
    returns (tried: Result<Tried, Failure>, ghost t: Trial)
    requires provider.Valid() && Asks(q, provider.world, rules, subTagId, pinned)
    requires pinned.Some? ==> Checked(pinned.value, candidate.id)
    requires TriedInOrder(q, queue, first, trials, provider.Now()) && LastTold(trials) == Ok(Skip)
    requires |trials| < |queue| && candidate == queue[|trials|]
    modifies provider`step, provider`rows, provider`asks, provider`details, provider`links
    ensures provider.Valid()
    ensures provider.Did(old(provider.State()), InspectionCost(pinned, 1), tried == Err(LocalDailyBudget))
    ensures tried == Told(t.verdict) && TriedInOrder(q, queue, first, trials + [t], provider.Now())
    ensures tried.Ok? && tried.value.Found? ==> Published(provider.links, subTagId, tried.value.offer)
    ensures tried.Ok? && tried.value.Found? ==> tried.value.offer.productId == candidate.id
  {
    ghost var start, before := provider.State(), provider.Now();
    var detail := Look(provider, pinned, candidate.id);
    ghost var looked, known := provider.State(), provider.Now();
    ghost var spent := LookCost(pinned);
    RanWithin(provider.world, provider.budget, start, looked, spent, InspectionCost(pinned, 1), detail == Err(LocalDailyBudget));
    if detail.Err? || detail.value.None? {
      t := Trial(candidate, before, detail, known, known, known, if detail.Err? then Broke(detail.error) else NoDetail);
      TryOneMore(q, queue, first, trials, before, t);
      return if detail.Err? then Err(detail.error) else Ok(Skip), t;
    }
    ghost var verdict, linked;
    tried, verdict, linked := Weigh(provider, rules, LinkKey(subTagId, candidate.id), detail.value.value, candidate.endAt);
    RanThen(provider.world, provider.budget, start, looked, provider.State(), spent, Cost(0, 1), tried == Err(LocalDailyBudget));
    t := Trial(candidate, before, detail, known, linked, provider.Now(), verdict);
    TryOneMore(q, queue, first, trials, before, t);
  }

  /** Try candidates in order until one yields an offer or three have been inspected for the subject. */
  method TryCandidates(provider: Provider, rules: Rules, subTagId: string, pinned: Option<Fresh>, candidates: seq<Product>, inspected: nat, ghost q: Query)
    returns (tried: Result<Tried, Failure>, count: nat, ghost trials: seq<Trial>)
    requires provider.Valid() && inspected <= MaxCandidates && Asks(q, provider.world, rules, subTagId, pinned)
    requires pinned.Some? ==> forall c :: c in candidates ==> Checked(pinned.value, c.id)
    modifies provider`step, provider`rows, provider`asks, provider`details, provider`links
    ensures provider.Valid()
    ensures count == inspected + |trials| <= MaxCandidates
    ensures provider.Did(old(provider.State()), InspectionCost(pinned, |trials|), tried == Err(LocalDailyBudget))
    ensures TriedInOrder(q, candidates, old(provider.Now()), trials, provider.Now())
    ensures tried == LastTold(trials) && (tried == Ok(Skip) ==> |trials| == Min(|candidates|, MaxCandidates - inspected))
    ensures tried.Ok? && tried.value.Found? ==> Published(provider.links, subTagId, tried.value.offer)
    ensures tried.Ok? && tried.value.Found? ==> exists c :: c in candidates && tried.value.offer.productId == c.id
  {
    ghost var start, first := provider.State(), provider.Now();
    count := inspected;
    NothingRan(provider.world, provider.budget, start, InspectionCost(pinned, 0));
    tried := Ok(Skip);
    trials := [];
    var k := 0;
    while k < |candidates| && count < MaxCandidates
      invariant 0 <= k == |trials| <= |candidates| && count == inspected + k <= MaxCandidates
      invariant provider.Valid() && tried == LastTold(trials) == Ok(Skip)
      invariant provider.Did(start, InspectionCost(pinned, k), false)
      invariant TriedInOrder(q, candidates, first, trials, provider.Now())
    {
      count := count + 1;
      ghost var before := provider.State();
      ghost var t;
      assert candidates[k] in candidates;
      tried, t := TryCandidate(provider, rules, subTagId, pinned, candidates[k], q, candidates, first, trials);
      trials := trials + [t];
      RanThen(provider.world, provider.budget, start, before, provider.State(),
              InspectionCost(pinned, k), InspectionCost(pinned, 1), tried == Err(LocalDailyBudget));
      k := k + 1;
      if tried.Err? || tried.value.Found? {
        return;
      }
    }
  }

  // ----- a page -----

  /** One page of the search: what it listed, which of its products were suitable, in which order they were tried. */
  datatype Visit = Visit(
    before: Moment,
    inspected: nat,
    page: Page,
    listed: Moment,
    picks: seq<nat>,
    suitable: seq<Product>,
    queue: seq<Product>,
    trials: seq<Trial>,
    after: Moment)

  /** How many candidates have been inspected when these pages are done. */
  function Tries(visits: seq<Visit>): nat {
    if visits == [] then 0 else visits[|visits| - 1].inspected + |visits[|visits| - 1].trials|
  }

  /** A product with this id was listed on one of the pages. */
  ghost predicate Shown(visits: seq<Visit>, id: string) {
    exists i: nat, k: nat :: ShownAt(visits, id, i, k)
  }

  ghost predicate ShownAt(visits: seq<Visit>, id: string, i: nat, k: nat) {
    i < |visits| && k < |visits[i].page.products| && visits[i].page.products[k].id == id
  }

  /** A product listed at `j` before `k` under the same id does not suit the rules. */
  ghost predicate NoTwinAt(rules: Rules, products: seq<Product>, now: Instant, k: nat, j: nat) {
    j < k < |products| && products[j].id == products[k].id ==> !rules.suits(products[j], now)
  }

  /** The product suits the rules, was on no earlier page, and no suitable one with its id comes before it. */
  ghost predicate SuitableAt(rules: Rules, products: seq<Product>, earlier: seq<Visit>, now: Instant, k: nat) {
    && k < |products|
    && rules.suits(products[k], now)
    && !Shown(earlier, products[k].id)
    && forall j: nat :: NoTwinAt(rules, products, now, k, j)
  }

  ghost predicate KeepsSuitable(rules: Rules, products: seq<Product>, earlier: seq<Visit>, now: Instant, end: nat, picks: seq<nat>, k: nat) {
    k in picks <==> k < end && SuitableAt(rules, products, earlier, now, k)
  }

  ghost predicate ProductOf(products: seq<Product>, picks: seq<nat>, suitable: seq<Product>, m: nat) {
    m < |picks| && m < |suitable| ==> picks[m] < |products| && suitable[m] == products[picks[m]]
  }

  ghost predicate PickedUpTo(rules: Rules, products: seq<Product>, earlier: seq<Visit>, now: Instant, end: nat, picks: seq<nat>, suitable: seq<Product>) {
    && Ascending(picks) && |picks| == |suitable|
    && (forall k: nat :: KeepsSuitable(rules, products, earlier, now, end, picks, k))
    && (forall m: nat :: ProductOf(products, picks, suitable, m))
  }

  lemma PickOneMore(rules: Rules, products: seq<Product>, earlier: seq<Visit>, now: Instant, end: nat, picks: seq<nat>, suitable: seq<Product>)
    requires end < |products| && PickedUpTo(rules, products, earlier, now, end, picks, suitable)
    ensures if SuitableAt(rules, products, earlier, now, end)
            then PickedUpTo(rules, products, earlier, now, end + 1, picks + [end], suitable + [products[end]])
            else PickedUpTo(rules, products, earlier, now, end + 1, picks, suitable)
  {
    assert forall i: nat | i < |picks| :: KeepsSuitable(rules, products, earlier, now, end, picks, picks[i]);
    forall i: nat, j: nat ensures InOrder(picks + [end], i, j) {
      assert InOrder(picks, i, j);
    }
    var more := if SuitableAt(rules, products, earlier, now, end) then picks + [end] else picks;
    var next := end + 1;
    forall k: nat ensures KeepsSuitable(rules, products, earlier, now, next, more, k) {
      assert KeepsSuitable(rules, products, earlier, now, end, picks, k);
    }
    forall m: nat ensures ProductOf(products, picks + [end], suitable + [products[end]], m) {
      assert ProductOf(products, picks, suitable, m);
    }
  }

  /** The suitable products of a page, each once and in page order. */
  ghost predicate Suitables(rules: Rules, products: seq<Product>, earlier: seq<Visit>, now: Instant, picks: seq<nat>, suitable: seq<Product>) {
    PickedUpTo(rules, products, earlier, now, |products|, picks, suitable)
  }

  ghost predicate SeenIff(seen: set<string>, visits: seq<Visit>, id: string) {
    id in seen <==> Shown(visits, id)
  }

  ghost predicate SeenIs(seen: set<string>, visits: seq<Visit>) {
    forall id :: SeenIff(seen, visits, id)
  }

  /** The products of a page that pass the rules, each id once, without those of earlier pages. */
  method EligibleProducts(products: seq<Product>, seen: set<string>, rules: Rules, now: Instant, ghost earlier: seq<Visit>)
    returns (suitable: seq<Product>, ghost picks: seq<nat>)
    requires SeenIs(seen, earlier)
    ensures Suitables(rules, products, earlier, now, picks, suitable)
    ensures |suitable| <= |products| && forall p :: p in suitable ==> p in products
  {
    suitable, picks := [], [];
    var taken: set<string> := {};
    for k := 0 to |products|
      invariant PickedUpTo(rules, products, earlier, now, k, picks, suitable)
      invariant |suitable| <= k && forall p :: p in suitable ==> p in products
      invariant TakenAre(rules, products, seen, now, k, taken)
    {
      var p := products[k];
      assert SeenIff(seen, earlier, p.id);
      Twins(rules, products, seen, now, k, taken);
      PickOneMore(rules, products, earlier, now, k, picks, suitable);
      assert p.id in taken ==> taken + {p.id} == taken;
      if p.id !in seen && p.id !in taken && rules.suits(p, now) {
        suitable := suitable + [p];
        picks := picks + [k];
        taken := taken + {p.id};
      }
    }
  }

  /** A suitable product with this id is among those before `end`. */
  ghost predicate TakenIff(rules: Rules, products: seq<Product>, seen: set<string>, now: Instant, end: nat, taken: set<string>, id: string) {
    id in taken <==> exists j :: 0 <= j < end && j < |products| && products[j].id == id && id !in seen && rules.suits(products[j], now)
  }

  ghost predicate TakenAre(rules: Rules, products: seq<Product>, seen: set<string>, now: Instant, end: nat, taken: set<string>) {
    forall id :: TakenIff(rules, products, seen, now, end, taken, id)
  }

  lemma Twins(rules: Rules, products: seq<Product>, seen: set<string>, now: Instant, k: nat, taken: set<string>)
    requires k < |products| && TakenAre(rules, products, seen, now, k, taken)
    ensures var p := products[k];
            && (p.id !in seen ==> (p.id in taken <==> !forall j: nat :: NoTwinAt(rules, products, now, k, j)))
            && (p.id !in seen && rules.suits(p, now) ==> TakenAre(rules, products, seen, now, k + 1, taken + {p.id}))
            && (!rules.suits(p, now) || p.id in seen ==> TakenAre(rules, products, seen, now, k + 1, taken))
  {
    var p := products[k];
    assert TakenIff(rules, products, seen, now, k, taken, p.id);
    if p.id in taken {
      var j :| 0 <= j < k && products[j].id == p.id && p.id !in seen && rules.suits(products[j], now);
      assert !NoTwinAt(rules, products, now, k, j);
    }
    var end, more := k + 1, if p.id !in seen && rules.suits(p, now) then taken + {p.id} else taken;
    forall id ensures TakenIff(rules, products, seen, now, end, more, id) {
      assert TakenIff(rules, products, seen, now, k, taken, id);
    }
  }

  /** The page is what the provider lists at the cursor of the page before, or the pinned product alone. */
  ghost predicate PageRead(q: Query, earlier: seq<Visit>, before: Moment, listed: Moment, page: Page) {
    if q.subject.pinnedProductId.Some? then
      listed == before && page == Page(if q.pinned.Some? then [q.pinned.value.product] else [], None)
    else
      PageListed(q.world, before, listed, KeyAfter(q.subject, earlier), page)
  }

  /** The cache key of the page that comes after those read. */
  function KeyAfter(subject: Subject, earlier: seq<Visit>): PageKey {
    PageKey(
      subject.catalogSource,
      if subject.catalogSource.CategoryBest? then Some(subject.categoryId) else None,
      if earlier == [] then None else earlier[|earlier| - 1].page.next)
  }

  /** The order in which suitable products are tried: their own, or the learned one where that applies. */
  ghost predicate Queued(q: Query, suitable: seq<Product>, now: Instant, queue: seq<Product>) {
    queue == if q.rules.learned && q.subject.pinnedProductId.None? then q.rules.rank(suitable, now) else suitable
  }

  /** One page of the search after the earlier ones: read, its suitable products queued and tried in order. */
  ghost predicate Visited(q: Query, earlier: seq<Visit>, v: Visit) {
    var now := q.world(v.listed.step).at;
    && v.inspected == Tries(earlier)
    && PageRead(q, earlier, v.before, v.listed, v.page)
    && Suitables(q.rules, v.page.products, earlier, now, v.picks, v.suitable)
    && Queued(q, v.suitable, now, v.queue)
    && TriedInOrder(q, v.queue, v.listed.(step := v.listed.step + 1), v.trials, v.after)
    && Tries(earlier) + |v.trials| <= MaxCandidates
    && (LastTold(v.trials) == Ok(Skip) ==> |v.trials| == Min(|v.queue|, MaxCandidates - Tries(earlier)))
  }

  /** One of the pages named this cursor as its next. */
  ghost predicate Named(visits: seq<Visit>, cursor: string) {
    exists i: nat :: NamedAt(visits, cursor, i)
  }

  ghost predicate NamedAt(visits: seq<Visit>, cursor: string, i: nat) {
    i < |visits| && visits[i].page.next == Some(cursor)
  }

  ghost predicate NextRepeats(earlier: seq<Visit>, v: Visit) {
    v.page.next.Some? && Named(earlier, v.page.next.value)
  }

  /** The search goes on after this page: every product tried was skipped, and no limit is reached. */
  ghost predicate GoesOn(q: Query, earlier: seq<Visit>, v: Visit) {
    && LastTold(v.trials) == Ok(Skip)
    && q.subject.pinnedProductId.None?
    && Tries(earlier) + |v.trials| < MaxCandidates
    && v.page.next.Some?
    && !NextRepeats(earlier, v)
  }

  ghost predicate TrailAt(q: Query, begun: Moment, visits: seq<Visit>, i: nat)
    requires i < |visits|
  {
    && visits[i].before == (if i == 0 then begun else visits[i - 1].after)
    && Visited(q, visits[..i], visits[i])
    && (i + 1 < |visits| ==> GoesOnAt(q, visits, i))
  }

  ghost predicate GoesOnAt(q: Query, visits: seq<Visit>, i: nat) {
    i < |visits| ==> GoesOn(q, visits[..i], visits[i])
  }

  /** Pages read one after the other, where only the last may end the search. */
  ghost predicate Trail(q: Query, begun: Moment, visits: seq<Visit>) {
    forall i: nat :: i < |visits| ==> TrailAt(q, begun, visits, i)
  }

  /** Pages none of which ended the search. */
  ghost predicate Open(q: Query, begun: Moment, visits: seq<Visit>) {
    Trail(q, begun, visits) && forall i: nat :: GoesOnAt(q, visits, i)
  }

  function EndOf(begun: Moment, visits: seq<Visit>): Moment {
    if visits == [] then begun else visits[|visits| - 1].after
  }

  /** Stands for the visit of a page that could not be read. */
  ghost function NoVisit(at: Moment): Visit {
    Visit(at, 0, Page([], None), at, [], [], [], [], at)
  }

  lemma TrailOneMore(q: Query, begun: Moment, visits: seq<Visit>, v: Visit)
    requires Open(q, begun, visits) && v.before == EndOf(begun, visits) && Visited(q, visits, v)
    ensures Trail(q, begun, visits + [v])
  {
    forall i: nat | i < |visits + [v]| ensures TrailAt(q, begun, visits + [v], i) {
      assert (visits + [v])[..i] == visits[..i];
      if i < |visits| {
        assert TrailAt(q, begun, visits, i) && GoesOnAt(q, visits, i);
      } else {
        assert visits[..i] == visits;
      }
    }
  }

  lemma OpenOneMore(q: Query, begun: Moment, visits: seq<Visit>, v: Visit)
    requires Trail(q, begun, visits + [v]) && GoesOn(q, visits, v)
    ensures Open(q, begun, visits + [v])
    ensures EndOf(begun, visits + [v]) == v.after && Tries(visits + [v]) == v.inspected + |v.trials|
    ensures KeyAfter(q.subject, visits + [v]).cursor == v.page.next
  {
    var all := visits + [v];
    assert all[..|visits|] == visits;
    forall i: nat ensures GoesOnAt(q, all, i) {
      assert i < |visits| ==> TrailAt(q, begun, all, i);
    }
  }

  lemma TrailEnds(q: Query, begun: Moment, visits: seq<Visit>, v: Visit)
    requires Trail(q, begun, visits + [v])
    ensures v.before == EndOf(begun, visits) && Visited(q, visits, v)
    ensures Open(q, begun, visits)
  {
    var all := visits + [v];
    assert TrailAt(q, begun, all, |visits|);
    assert all[..|visits|] == visits;
    forall i: nat | i < |visits| ensures TrailAt(q, begun, visits, i) && GoesOnAt(q, visits, i) {
      assert TrailAt(q, begun, all, i);
      assert all[..i] == visits[..i];
    }
    forall i: nat ensures GoesOnAt(q, visits, i) {
      assert i < |visits| ==> TrailAt(q, begun, visits, i);
    }
  }

  /** What the search has cost after some pages and candidates. */
  function SearchCost(subject: Subject, pages: nat, candidates: nat): Cost {
    if subject.pinnedProductId.Some? then Cost(1, candidates) else Cost(30 * pages + candidates, candidates)
  }

  method ReadPage(provider: Provider, subject: Subject, pinned: Option<Fresh>, cursor: Option<string>,
                  ghost start: Account, ghost q: Query, ghost earlier: seq<Visit>)
    returns (page: Result<Page, Failure>)
    requires provider.Did(start, SearchCost(subject, |earlier|, Tries(earlier)), false)
    requires q.world == provider.world && q.subject == subject && q.pinned == pinned
    requires cursor == if earlier == [] then None else earlier[|earlier| - 1].page.next
    modifies provider`step, provider`rows, provider`asks, provider`pages
    ensures provider.Did(start, SearchCost(subject, |earlier| + 1, Tries(earlier)), page == Err(LocalDailyBudget))
    ensures match page
            case Ok(read) => PageRead(q, earlier, old(provider.Now()), provider.Now(), read)
            case Err(failure) =>
              subject.pinnedProductId.None? && PageFails(q.world, old(provider.Now()), provider.Now(), KeyAfter(subject, earlier), failure)
  {
    ghost var reached := provider.State();
    if subject.pinnedProductId.Some? {
      page := Ok(Page(if pinned.Some? then [pinned.value.product] else [], None));
    } else {
      var source := subject.catalogSource;
      page := provider.ListPage(PageKey(source, if source.CategoryBest? then Some(subject.categoryId) else None, cursor));
      ReadOnePage(provider.world, provider.budget, start, reached, provider.State(), subject, |earlier|, Tries(earlier), page == Err(LocalDailyBudget));
    }
  }

  function FirstThree(products: seq<Product>): seq<Product> {
    if |products| <= MaxCandidates then products else products[..MaxCandidates]
  }

  /** Only the first three of a queue can be reached, so the rest may be dropped. */
  lemma FirstThreeSuffice(q: Query, queue: seq<Product>, start: Moment, trials: seq<Trial>, end: Moment)
    requires TriedInOrder(q, FirstThree(queue), start, trials, end)
    ensures TriedInOrder(q, queue, start, trials, end)
  {
    forall m: nat | m < |trials| ensures TrialAt(q, queue, start, trials, m) {
      assert TrialAt(q, FirstThree(queue), start, trials, m);
    }
  }

  /** The product of a pinned subject is about the pinned id. */
  ghost predicate PinnedFits(subject: Subject, pinned: Option<Fresh>) {
    pinned.Some? ==> subject.pinnedProductId.Some? && Checked(pinned.value, subject.pinnedProductId.value)
  }

  /** The candidates of a page: its suitable products in order, or in the learned order, three at most. */
  method PickCandidates(products: seq<Product>, seen: set<string>, rules: Rules, now: Instant, pinned: bool, ghost earlier: seq<Visit>)
    returns (candidates: seq<Product>, ghost picks: seq<nat>, ghost suitable: seq<Product>, ghost queue: seq<Product>)
    requires SeenIs(seen, earlier)
    ensures Suitables(rules, products, earlier, now, picks, suitable)
    ensures candidates == FirstThree(queue) && queue == if rules.learned && !pinned then rules.rank(suitable, now) else suitable
    ensures pinned ==> |candidates| <= |products| && forall c :: c in candidates ==> c in products
  {
    var eligible;
    eligible, picks := EligibleProducts(products, seen, rules, now, earlier);
    suitable := eligible;
    var ordered := if rules.learned && !pinned then rules.rank(eligible, now) else eligible;
    queue := ordered;
    candidates := FirstThree(ordered);
  }

  /** Pick the candidates of a page that was just read, and try them. */
  method TryPage(provider: Provider, rules: Rules, subject: Subject, subTagId: string, pinned: Option<Fresh>, page: Page, seen: set<string>,
                 inspected: nat, ghost before: Moment, ghost q: Query, ghost begun: Moment, ghost earlier: seq<Visit>)
    returns (tried: Result<Tried, Failure>, count: nat, ghost v: Visit)
    requires provider.Valid() && inspected == Tries(earlier) <= MaxCandidates && SeenIs(seen, earlier)
    requires Asks(q, provider.world, rules, subTagId, pinned) && q.subject == subject && PinnedFits(subject, pinned)
    requires PageRead(q, earlier, before, provider.Now(), page) && Open(q, begun, earlier) && before == EndOf(begun, earlier)
    modifies provider`step, provider`rows, provider`asks, provider`details, provider`links
    ensures provider.Valid()
    ensures provider.Did(old(provider.State()), InspectionCost(pinned, |v.trials|), tried == Err(LocalDailyBudget))
    ensures v.page == page && v.inspected == inspected && v.after == provider.Now() && Trail(q, begun, earlier + [v])
    ensures tried == LastTold(v.trials) && count == inspected + |v.trials| <= MaxCandidates && PinnedTries(subject, pinned, |v.trials|)
    ensures tried.Ok? && tried.value.Found? ==> AutomaticFor(provider.links, subject, subTagId, tried.value.offer)
  {
    ghost var listed := provider.Now();
    var now := provider.Draw();
    var candidates, picks, suitable, queue := PickCandidates(page.products, seen, rules, now.at, subject.pinnedProductId.Some?, earlier);
    ghost var first := provider.Now();
    ghost var trials;
    tried, count, trials := TryCandidates(provider, rules, subTagId, pinned, candidates, inspected, q);
    v := Visit(before, inspected, page, listed, picks, suitable, queue, trials, provider.Now());
    WorkedThrough(q, begun, earlier, v, first);
  }

  lemma WorkedThrough(q: Query, begun: Moment, earlier: seq<Visit>, v: Visit, first: Moment)
    requires Open(q, begun, earlier) && v.before == EndOf(begun, earlier) && v.inspected == Tries(earlier) && PageRead(q, earlier, v.before, v.listed, v.page)
    requires Suitables(q.rules, v.page.products, earlier, q.world(v.listed.step).at, v.picks, v.suitable)
    requires Queued(q, v.suitable, q.world(v.listed.step).at, v.queue)
    requires first == v.listed.(step := v.listed.step + 1)
    requires TriedInOrder(q, FirstThree(v.queue), first, v.trials, v.after)
    requires Tries(earlier) + |v.trials| <= MaxCandidates
    requires LastTold(v.trials) == Ok(Skip) ==> |v.trials| == Min(|FirstThree(v.queue)|, MaxCandidates - Tries(earlier))
    ensures Trail(q, begun, earlier + [v])
  {
    FirstThreeSuffice(q, v.queue, first, v.trials, v.after);
    TrailOneMore(q, begun, earlier, v);
  }

  /** A pinned subject has its own product to try, if the provider has a detail of it. */
  ghost predicate PinnedTries(subject: Subject, pinned: Option<Fresh>, tries: nat) {
    subject.pinnedProductId.Some? ==> tries <= if pinned.Some? then 1 else 0
  }

  /** One page of the search: read it, pick its candidates, try them. */
  method InspectPage(provider: Provider, rules: Rules, subject: Subject, subTagId: string, pinned: Option<Fresh>,
                     cursor: Option<string>, seen: set<string>, inspected: nat,
                     ghost start: Account, ghost q: Query, ghost begun: Moment, ghost earlier: seq<Visit>)
    returns (page: Result<Page, Failure>, tried: Result<Tried, Failure>, count: nat, ghost v: Visit)
    requires provider.Valid() && inspected == Tries(earlier) <= MaxCandidates && SeenIs(seen, earlier)
    requires Asks(q, provider.world, rules, subTagId, pinned) && q.subject == subject && PinnedFits(subject, pinned)
    requires cursor == if earlier == [] then None else earlier[|earlier| - 1].page.next
    requires provider.Did(start, SearchCost(subject, |earlier|, inspected), false)
    requires Open(q, begun, earlier) && provider.Now() == EndOf(begun, earlier)
    modifies provider`step, provider`rows, provider`asks, provider`details, provider`links, provider`pages
    ensures provider.Valid()
    ensures inspected <= count <= MaxCandidates && (subject.pinnedProductId.Some? ==> count <= inspected + 1)
    ensures provider.Did(start, SearchCost(subject, |earlier| + 1, count), tried == Err(LocalDailyBudget))
    ensures match page
            case Ok(read) =>
              && v.page == read && v.inspected == inspected && v.after == provider.Now() && Trail(q, begun, earlier + [v])
              && tried == LastTold(v.trials) && count == inspected + |v.trials|
            case Err(failure) =>
              && tried == Err(failure) && count == inspected && subject.pinnedProductId.None?
              && PageFails(q.world, old(provider.Now()), provider.Now(), KeyAfter(subject, earlier), failure)
    ensures tried.Ok? && tried.value.Found? ==> AutomaticFor(provider.links, subject, subTagId, tried.value.offer)
  {
    ghost var before := provider.Now();
    page := ReadPage(provider, subject, pinned, cursor, start, q, earlier);
    if page.Err? {
      return page, Err(page.error), inspected, NoVisit(before);
    }
    ghost var ready := provider.State();
    tried, count, v := TryPage(provider, rules, subject, subTagId, pinned, page.value, seen, inspected, before, q, begun, earlier);
    InspectedOnePage(provider.world, provider.budget, start, ready, provider.State(), subject, pinned, |earlier| + 1, inspected, |v.trials|,
                     tried == Err(LocalDailyBudget));
  }

  function PageCost(subject: Subject): Cost {
    Cost(if subject.pinnedProductId.Some? then 0 else 30, 0)
  }

  lemma ReadOnePage(world: nat -> Reply, budget: Ledger.AccountBudget, start: Account, reached: Account, end: Account, subject: Subject,
                    pages: nat, inspected: nat, refused: bool)
    requires Ran(world, budget, start, reached, SearchCost(subject, pages, inspected), false)
    requires Ran(world, budget, reached, end, PageCost(subject), refused)
    ensures Ran(world, budget, start, end, SearchCost(subject, pages + 1, inspected), refused)
  {
    RanThen(world, budget, start, reached, end, SearchCost(subject, pages, inspected), PageCost(subject), refused);
  }

  lemma InspectedOnePage(world: nat -> Reply, budget: Ledger.AccountBudget, start: Account, ready: Account, end: Account, subject: Subject,
                         pinned: Option<Fresh>, pages: nat, inspected: nat, tries: nat, refused: bool)
    requires PinnedFits(subject, pinned)
    requires Ran(world, budget, start, ready, SearchCost(subject, pages, inspected), false)
    requires Ran(world, budget, ready, end, InspectionCost(pinned, tries), refused)
    requires PinnedTries(subject, pinned, tries)
    ensures Ran(world, budget, start, end, SearchCost(subject, pages, inspected + tries), refused)
  {
    var before, work := SearchCost(subject, pages, inspected), InspectionCost(pinned, tries);
    RanThen(world, budget, start, ready, end, before, work, refused);
    RanWithin(world, budget, start, end, Cost(before.products + work.products, before.links + work.links),
              SearchCost(subject, pages, inspected + tries), refused);
  }

  // ----- the search -----

  /** What a search did: the pinned detail, the pages that did not end it, and the page that did, if it was read. */
  datatype Trace = Trace(pinned: Result<Option<Fresh>, Failure>, begun: Moment, earlier: seq<Visit>, last: Option<Visit>)

  function PagesAllowed(subject: Subject): nat {
    if subject.pinnedProductId.Some? then 1 else PageLimit(subject)
  }

  function CandidatesAllowed(subject: Subject): nat {
    if subject.pinnedProductId.Some? then 1 else MaxCandidates
  }

  /** An automatic offer is published under its own link and, for a pinned subject, is the pinned product. */
  ghost predicate AutomaticFor(links: map<LinkKey, Cached<string>>, subject: Subject, subTagId: string, offer: Offer) {
    && Published(links, subTagId, offer)
    && (subject.pinnedProductId.Some? ==> offer.productId == subject.pinnedProductId.value)
  }

  /** The result that the last page of a search calls for, and why the search stopped. */
  ghost predicate EndsWith(q: Query, earlier: seq<Visit>, v: Visit, r: Result<Outcome, Failure>, reason: StopReason) {
    match LastTold(v.trials)
    case Err(failure) => r == Err(failure)
    case Ok(Found(offer)) => r == Ok(Ready(offer))
    case Ok(Skip) =>
      if q.subject.pinnedProductId.Some? then r == Ok(NoMatch) && reason == PinnedUnavailable
      else if Tries(earlier) + |v.trials| == MaxCandidates then r == Ok(NoMatch) && reason == CandidateLimit
      else if v.page.next.None? then r == Ok(NoMatch) && reason == Exhausted
      else if NextRepeats(earlier, v) then r == Err(InvalidCatalogCursor)
      else r == Ok(NoMatch) && reason == PageLimitReached && |earlier| + 1 == q.subject.maxCatalogPages.GetOr(1)
  }

  /** The whole search: pages that did not end it, then one that did or could not be read; and what the inspection counts. */
  ghost predicate Searched(q: Query, t: Trace, r: Result<Outcome, Failure>, inspection: Inspection) {
    && |t.earlier| < (if q.subject.pinnedProductId.Some? then 1 else q.subject.maxCatalogPages.GetOr(1))
    && match t.last
       case None =>
         && Open(q, t.begun, t.earlier) && q.subject.pinnedProductId.None?
         && inspection.pages == |t.earlier| && inspection.candidates == Tries(t.earlier)
         && r.Err? && exists end :: PageFails(q.world, EndOf(t.begun, t.earlier), end, KeyAfter(q.subject, t.earlier), r.error)
       case Some(v) =>
         && inspection.pages == (if q.subject.pinnedProductId.Some? then 0 else |t.earlier| + 1)
         && inspection.candidates == Tries(t.earlier) + |v.trials|
         && Trail(q, t.begun, t.earlier + [v])
         && EndsWith(q, t.earlier, v, r, inspection.reason)
  }

  /** The search over pages, after the categories and a pinned product's detail are known. */
  method SearchPages(provider: Provider, rules: Rules, subject: Subject, subTagId: string, pinned: Option<Fresh>, ghost start: Account)
    returns (r: Result<Outcome, Failure>, inspection: Inspection, ghost t: Trace)
    requires provider.Valid() && PinnedFits(subject, pinned)
    requires provider.Did(start, SearchCost(subject, 0, 0), false)
    modifies provider`step, provider`rows, provider`asks, provider`details, provider`links, provider`pages
    ensures provider.Valid()
    ensures provider.Did(start, SearchCost(subject, |t.earlier| + 1, inspection.candidates), r == Err(LocalDailyBudget))
    ensures t.begun == old(provider.Now()) && t.pinned == Ok(pinned)
    ensures Searched(Query(provider.world, rules, subject, subTagId, pinned), t, r, inspection)
    ensures r.Ok? ==> !r.value.Disabled? && (r.value.Ready? ==> AutomaticFor(provider.links, subject, subTagId, r.value.offer))
    ensures inspection.pages <= PageLimit(subject) && inspection.candidates <= CandidatesAllowed(subject)
  {
    ghost var q := Query(provider.world, rules, subject, subTagId, pinned);
    ghost var begun := provider.Now();
    ghost var earlier: seq<Visit> := [];
    var limit := PagesAllowed(subject);
    var cursor: Option<string> := None;
    var cursors: set<string> := {};
    var products: set<string> := {};
    inspection := Inspection(0, 0, Exhausted);
    var pageIndex := 0;
    while true
      invariant pageIndex == |earlier| < limit && provider.Valid()
      invariant inspection.reason == Exhausted && inspection.candidates == Tries(earlier) < MaxCandidates
      invariant inspection.pages == |earlier| && (subject.pinnedProductId.Some? ==> earlier == [])
      invariant Open(q, begun, earlier) && provider.Now() == EndOf(begun, earlier)
      invariant SeenIs(products, earlier) && CursorsAre(cursors, earlier) && cursor == KeyAfter(subject, earlier).cursor
      invariant provider.Did(start, SearchCost(subject, pageIndex, inspection.candidates), false)
      decreases limit - pageIndex
    {
      ghost var before := provider.Now();
      ghost var v;
      var page, tried, count;
      page, tried, count, v := InspectPage(provider, rules, subject, subTagId, pinned, cursor, products, inspection.candidates, start, q, begun, earlier);
      if page.Err? {
        return Err(page.error), inspection, Trace(Ok(pinned), begun, earlier, None);
      }
      t := Trace(Ok(pinned), begun, earlier, Some(v));
      SeeMore(products, earlier, v);
      products := products + set p | p in page.value.products :: p.id;
      inspection := Inspection(inspection.pages + if subject.pinnedProductId.None? then 1 else 0, count, inspection.reason);
      if tried.Err? {
        return Err(tried.error), inspection, t;
      }
      if tried.value.Found? {
        return Ok(Ready(tried.value.offer)), inspection, t;
      }
      pageIndex := pageIndex + 1;
      var stop := StopAfter(subject, page.value, cursors, pageIndex, count);
      StopFits(q, earlier, v, cursors);
      if stop.Some? {
        return stop.value.0, inspection.(reason := stop.value.1), t;
      }
      cursors := cursors + {page.value.next.value};
      cursor := page.value.next;
      OpenOneMore(q, begun, earlier, v);
      earlier := earlier + [v];
    }
  }

  /** Why a search ends after a page on which everything was skipped, if it does. */
  function StopAfter(subject: Subject, page: Page, cursors: set<string>, pages: nat, candidates: nat)
    : Option<(Result<Outcome, Failure>, StopReason)>
  {
    if subject.pinnedProductId.Some? then Some((Ok(NoMatch), PinnedUnavailable))
    else if candidates >= MaxCandidates then Some((Ok(NoMatch), CandidateLimit))
    else if page.next.None? then Some((Ok(NoMatch), Exhausted))
    else if page.next.value in cursors then Some((Err(InvalidCatalogCursor), Exhausted))
    else if pages == PageLimit(subject) then Some((Ok(NoMatch), PageLimitReached))
    else None
  }

  lemma StopFits(q: Query, earlier: seq<Visit>, v: Visit, cursors: set<string>)
    requires LastTold(v.trials) == Ok(Skip) && CursorsAre(cursors, earlier)
    requires Tries(earlier) + |v.trials| <= MaxCandidates && |earlier| < PagesAllowed(q.subject)
    ensures var stop := StopAfter(q.subject, v.page, cursors, |earlier| + 1, Tries(earlier) + |v.trials|);
            && (stop.Some? ==> EndsWith(q, earlier, v, stop.value.0, stop.value.1))
            && (stop.None? ==>
                  && GoesOn(q, earlier, v) && |earlier| + 1 != PageLimit(q.subject)
                  && CursorsAre(cursors + {v.page.next.value}, earlier + [v]))
  {
    if v.page.next.Some? {
      NameMore(cursors, earlier, v);
    }
  }

  /** The cursors the pages so far have named. */
  ghost predicate CursorIff(cursors: set<string>, visits: seq<Visit>, cursor: string) {
    cursor in cursors <==> Named(visits, cursor)
  }

  ghost predicate CursorsAre(cursors: set<string>, visits: seq<Visit>) {
    forall cursor :: CursorIff(cursors, visits, cursor)
  }

  lemma NameMore(cursors: set<string>, visits: seq<Visit>, v: Visit)
    requires CursorsAre(cursors, visits) && v.page.next.Some?
    ensures NextRepeats(visits, v) <==> v.page.next.value in cursors
    ensures CursorsAre(cursors + {v.page.next.value}, visits + [v])
  {
    assert CursorIff(cursors, visits, v.page.next.value);
    var more := cursors + {v.page.next.value};
    forall cursor ensures CursorIff(more, visits + [v], cursor) {
      assert CursorIff(cursors, visits, cursor);
      if i: nat :| NamedAt(visits, cursor, i) {
        assert NamedAt(visits + [v], cursor, i);
      } else if Some(cursor) == v.page.next {
        assert NamedAt(visits + [v], cursor, |visits|);
      } else if i: nat :| NamedAt(visits + [v], cursor, i) {
        assert i < |visits| ==> NamedAt(visits, cursor, i);
      }
    }
  }

  lemma SeeMore(seen: set<string>, visits: seq<Visit>, v: Visit)
    requires SeenIs(seen, visits)
    ensures SeenIs(seen + set p | p in v.page.products :: p.id, visits + [v])
  {
    var more := seen + set p | p in v.page.products :: p.id;
    forall id ensures SeenIff(more, visits + [v], id) {
      assert SeenIff(seen, visits, id);
      if i: nat, k: nat :| ShownAt(visits, id, i, k) {
        assert ShownAt(visits + [v], id, i, k);
      } else if k: nat :| k < |v.page.products| && v.page.products[k].id == id {
        assert ShownAt(visits + [v], id, |visits|, k);
      } else if i: nat, k: nat :| ShownAt(visits + [v], id, i, k) {
        assert i < |visits| ==> ShownAt(visits, id, i, k);
      }
    }
  }

  // ----- a subject -----

  function ManualOffer(manual: Manual, now: Instant): Offer {
    Offer.Offer(manual.productId, manual.title, manual.url, true, manual.reviewedAt, Min(manual.reviewUntil, now + 15 * Minute))
  }

  /** The reviewed product as an offer: from its review until the review ends, a quarter of an hour at most. */
  ghost predicate Reviewed(offer: Offer, manual: Manual, now: Instant) {
    && offer.manual
    && offer.productId == manual.productId && offer.title == manual.title && offer.url == manual.url
    && offer.checkedAt == manual.reviewedAt
    && Soonest(offer.expiresAt, now + 15 * Minute, Some(manual.reviewUntil))
  }

  /** The categories are asked for, and then a pinned product's detail. */
  ghost predicate Prepared(world: nat -> Reply, subject: Subject, a: Moment, b: Moment, pinned: Result<Option<Fresh>, Failure>) {
    || (pinned.Err? && RequestFails(world(a.step), pinned.error))
    || (&& Arrived(world(a.step))
        && match subject.pinnedProductId
           case None => b == a.(step := a.step + 1) && pinned == Ok(None)
           case Some(id) => Looked(world, None, a.(step := a.step + 1), b, id, pinned))
  }

  /** The categories cost nothing, a pinned product one detail. */
  method Prepare(provider: Provider, subject: Subject) returns (pinned: Result<Option<Fresh>, Failure>)
    requires provider.Valid()
    modifies provider`step, provider`rows, provider`asks, provider`details
    ensures provider.Valid()
    ensures provider.Did(old(provider.State()), SearchCost(subject, 0, 0), pinned == Err(LocalDailyBudget))
    ensures Prepared(provider.world, subject, old(provider.Now()), provider.Now(), pinned)
    ensures pinned.Ok? ==> PinnedFits(subject, pinned.value)
  {
    ghost var start := provider.State();
    var categories := provider.Request(0, 0);
    if categories.Err? {
      RanWithin(provider.world, provider.budget, start, provider.State(), Cost(0, 0), SearchCost(subject, 0, 0), categories.error == LocalDailyBudget);
      return Err(categories.error);
    }
    ghost var known := provider.State();
    if subject.pinnedProductId.Some? {
      pinned := provider.Detail(subject.pinnedProductId.value);
      RanThen(provider.world, provider.budget, start, known, provider.State(), Cost(0, 0), Cost(1, 0), pinned == Err(LocalDailyBudget));
    } else {
      pinned := Ok(None);
    }
  }

  /** What a resolution owes to the world: disabled, the current review, or the outcome of the whole search. */
  ghost predicate Resolved(world: nat -> Reply, rules: Rules, subject: Subject, subTagId: string, a: Moment,
                           t: Trace, r: Result<Outcome, Failure>, inspection: Inspection)
  {
    if !subject.enabled then r == Ok(Disabled) && inspection == Inspection(0, 0, Exhausted)
    else if ManualNow(subject, world(a.step).at) then
      r.Ok? && r.value.Ready? && Reviewed(r.value.offer, subject.manual.value, world(a.step).at) && inspection == Inspection(0, 0, Exhausted)
    else
      && Prepared(world, subject, a.(step := a.step + 1), t.begun, t.pinned)
      && match t.pinned
         case Err(failure) => r == Err(failure) && inspection == Inspection(0, 0, Exhausted)
         case Ok(pinned) => Searched(Query(world, rules, subject, subTagId, pinned), t, r, inspection)
  }

  /**
   Resolve one subject. Whatever the caches hold and the provider answers, no more is reserved than the
   preview estimates for the time the resolution starts, and the result is the one the trace calls for.
   */
  method Resolve(provider: Provider, rules: Rules, subject: Subject, subTagId: string)
    returns (r: Result<Outcome, Failure>, inspection: Inspection, ghost t: Trace)
    requires provider.Valid()
    modifies provider`step, provider`rows, provider`asks, provider`details, provider`links, provider`pages
    ensures provider.Valid()
    ensures Resolved(provider.world, rules, subject, subTagId, old(provider.Now()), t, r, inspection)
    ensures var now := provider.world(old(provider.step)).at;
            && provider.Did(old(provider.State()), EstimateRefreshCost(subject, now), r == Err(LocalDailyBudget))
            && (!subject.enabled || ManualNow(subject, now) ==> provider.State() == old(provider.State()))
            && (r == Ok(Disabled) <==> !subject.enabled)
            && (subject.enabled && !ManualNow(subject, now) && r.Ok? && r.value.Ready? ==>
                  AutomaticFor(provider.links, subject, subTagId, r.value.offer))
    ensures inspection.pages <= PageLimit(subject) && inspection.candidates <= MaxCandidates
  {
    inspection := Inspection(0, 0, Exhausted);
    ghost var start, began := provider.State(), provider.Now();
    t := Trace(Ok(None), began, [], None);
    if !subject.enabled {
      NothingRan(provider.world, provider.budget, start, EstimateRefreshCost(subject, provider.world(provider.step).at));
      return Ok(Disabled), inspection, t;
    }
    var now := provider.Draw();
    if ManualNow(subject, now.at) {
      NothingRan(provider.world, provider.budget, start, Cost(0, 0));
      var offer := ManualOffer(subject.manual.value, now.at);
      return if offer.checkedAt < offer.expiresAt then Ok(Ready(offer)) else Err(InvalidOffer), inspection, t;
    }
    var pinned := Prepare(provider, subject);
    if pinned.Err? {
      RanWithin(provider.world, provider.budget, start, provider.State(), SearchCost(subject, 0, 0), EstimateRefreshCost(subject, now.at),
                pinned.error == LocalDailyBudget);
      return Err(pinned.error), inspection, Trace(pinned, provider.Now(), [], None);
    }
    r, inspection, t := SearchPages(provider, rules, subject, subTagId, pinned.value, start);
    RanWithin(provider.world, provider.budget, start, provider.State(), SearchCost(subject, |t.earlier| + 1, inspection.candidates),
              EstimateRefreshCost(subject, now.at), r == Err(LocalDailyBudget));
  }
}
