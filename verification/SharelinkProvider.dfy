/** The provider client of a shared account: cached pages, details and links, and what each request asks of the budget. */
module SharelinkProvider {
  import opened Prelude
  import opened Preview = RefreshPreview
  import opened Ledger = SharelinkBudget

  type Instant = int

  const Minute := 60_000

  datatype Failure =
    | LocalDailyBudget
    | ItemUnavailable
    | InvalidCatalogCursor
    | InvalidProducts
    | InvalidLink
    | InvalidOffer
    | Other(code: string)

  datatype Product = Product(id: string, title: string, categoryIds: seq<string>, soldOut: bool, endAt: Option<Instant>)

  datatype Page = Page(products: seq<Product>, next: Option<string>)

  datatype Fresh = Fresh(product: Product, checkedAt: Instant, expiresAt: Instant)

  datatype Cached<T> = Cached(value: T, expiresAt: Instant)

  /** The cache key of a page; the category only matters for the category ranking. */
  datatype PageKey = PageKey(source: CatalogSource, category: Option<string>, cursor: Option<string>)

  datatype LinkKey = LinkKey(subTagId: string, productId: string)

  /** What became of a request once its units were reserved. */
  datatype Answer = Answered | Refused | Failed(code: string)

  /**
   One step of the outside world: the clock reading, a failure before anything is reserved (deadline,
   cooldown, lost lease, token), the transport's answer, and everything a response may carry.
   */
  datatype Reply = Reply(
    at: Instant,
    early: Option<string>,
    answer: Answer,
    items: seq<Option<Product>>,
    next: Option<string>,
    url: Option<string>)

  // ----- what an operation asks of the budget -----

  function Spend(rows: map<DayKey, BudgetRow>, budget: AccountBudget, asks: seq<Ask>): map<DayKey, BudgetRow>
    decreases |asks|
  {
    if asks == [] then rows
    else Spend(Reserved(rows, budget, asks[0].products, asks[0].links, asks[0].at), budget, asks[1..])
  }

  datatype Account = Account(rows: map<DayKey, BudgetRow>, asks: seq<Ask>)

  ghost predicate Observed(world: nat -> Reply, t: Instant) {
    exists step: nat :: world(step).at == t
  }

  ghost predicate ObservedAt(world: nat -> Reply, asks: seq<Ask>, k: nat) {
    k < |asks| ==> Observed(world, asks[k].at)
  }

  ghost predicate AllObserved(world: nat -> Reply, asks: seq<Ask>) {
    forall k: nat :: ObservedAt(world, asks, k)
  }

  /**
   From `a` to `b` an operation asked for `asks` and no more than `cost`; it was refused by the daily
   budget exactly if the ledger does not accept them all, and otherwise the ledger holds them.
   */
  ghost predicate Asked(world: nat -> Reply, budget: AccountBudget, a: Account, b: Account, asks: seq<Ask>, cost: Cost, refused: bool) {
    && b.asks == a.asks + asks
    && AskedProducts(asks) <= cost.products
    && AskedLinks(asks) <= cost.links
    && AllObserved(world, asks)
    && (refused <==> !AllAccepted(a.rows, budget, asks))
    && (!refused ==> b.rows == Spend(a.rows, budget, asks))
  }

  ghost predicate Ran(world: nat -> Reply, budget: AccountBudget, a: Account, b: Account, cost: Cost, refused: bool) {
    exists asks :: Asked(world, budget, a, b, asks, cost, refused)
  }

  lemma {:induction false} JoinAsks(rows: map<DayKey, BudgetRow>, budget: AccountBudget, first: seq<Ask>, second: seq<Ask>)
    ensures AskedProducts(first + second) == AskedProducts(first) + AskedProducts(second)
    ensures AskedLinks(first + second) == AskedLinks(first) + AskedLinks(second)
    ensures Spend(rows, budget, first + second) == Spend(Spend(rows, budget, first), budget, second)
    ensures AllAccepted(rows, budget, first + second) <==>
              AllAccepted(rows, budget, first) && AllAccepted(Spend(rows, budget, first), budget, second)
    decreases |first|
  {
    if first == [] {
      assert first + second == second;
    } else {
      var r := first[0];
      JoinAsks(Reserved(rows, budget, r.products, r.links, r.at), budget, first[1..], second);
      assert (first + second)[1..] == first[1..] + second;
    }
  }

  lemma NothingRan(world: nat -> Reply, budget: AccountBudget, a: Account, cost: Cost)
    ensures Ran(world, budget, a, a, cost, false)
  {
    assert Asked(world, budget, a, a, [], cost, false);
  }

  lemma OneRan(world: nat -> Reply, budget: AccountBudget, a: Account, b: Account, ask: Ask, refused: bool)
    requires Observed(world, ask.at) && b.asks == a.asks + [ask]
    requires refused <==> !Accepts(a.rows, budget, ask.products, ask.links, ask.at)
    requires !refused ==> b.rows == Reserved(a.rows, budget, ask.products, ask.links, ask.at)
    ensures Ran(world, budget, a, b, Cost(ask.products, ask.links), refused)
  {
    assert [ask][1..] == [];
    assert AskedProducts([ask]) == ask.products + AskedProducts([]) && AskedLinks([ask]) == ask.links + AskedLinks([]);
    var reserved := Reserved(a.rows, budget, ask.products, ask.links, ask.at);
    assert Spend(a.rows, budget, [ask]) == Spend(reserved, budget, []) == reserved;
    assert Asked(world, budget, a, b, [ask], Cost(ask.products, ask.links), refused);
  }

  lemma RanThen(world: nat -> Reply, budget: AccountBudget, a: Account, b: Account, c: Account, cost: Cost, more: Cost, refused: bool)
    requires Ran(world, budget, a, b, cost, false) && Ran(world, budget, b, c, more, refused)
    ensures Ran(world, budget, a, c, Cost(cost.products + more.products, cost.links + more.links), refused)
  {
    var first :| Asked(world, budget, a, b, first, cost, false);
    var second :| Asked(world, budget, b, c, second, more, refused);
    JoinAsks(a.rows, budget, first, second);
    assert a.asks + (first + second) == a.asks + first + second;
    forall k: nat ensures ObservedAt(world, first + second, k) {
      assert ObservedAt(world, first, k);
      assert |first| <= k ==> ObservedAt(world, second, k - |first|);
    }
    assert Asked(world, budget, a, c, first + second, Cost(cost.products + more.products, cost.links + more.links), refused);
  }

  lemma RanWithin(world: nat -> Reply, budget: AccountBudget, a: Account, b: Account, cost: Cost, more: Cost, refused: bool)
    requires Ran(world, budget, a, b, cost, refused) && cost.products <= more.products && cost.links <= more.links
    ensures Ran(world, budget, a, b, more, refused)
  {
    var asks :| Asked(world, budget, a, b, asks, cost, refused);
    assert Asked(world, budget, a, b, asks, more, refused);
  }

  // ----- catalog pages -----

  predicate Control(c: char) {
    c < ' ' || '\U{7f}' <= c <= '\U{9f}'
  }

  predicate ValidCursor(cursor: string) {
    0 < |cursor| <= 4096 && forall c :: c in cursor ==> !Control(c)
  }

  // ----- what an exchange with the provider is -----

  /** What the caches hold and how often the outside world has been consulted. */
  datatype Moment = Moment(
    step: nat,
    pages: map<PageKey, Cached<Page>>,
    details: map<string, Cached<Option<Fresh>>>,
    links: map<LinkKey, Cached<string>>)

  /** The earlier of a latest time and an end, when there is one. */
  ghost predicate Soonest(t: Instant, latest: Instant, endAt: Option<Instant>) {
    && t <= latest
    && (endAt.Some? ==> t <= endAt.value)
    && (t == latest || endAt == Some(t))
  }

  ghost predicate Arrived(reply: Reply) {
    reply.early.None? && reply.answer == Answered
  }

  /** How a request ends that brings no response. */
  ghost predicate RequestFails(reply: Reply, failure: Failure) {
    match failure
    case LocalDailyBudget => reply.early.None?
    case ItemUnavailable => reply.early.None? && reply.answer == Refused
    case Other(code) => reply.early == Some(code) || (reply.early.None? && reply.answer == Failed(code))
    case _ => false
  }

  ghost predicate InOrder(picks: seq<nat>, i: nat, j: nat) {
    i < j < |picks| ==> picks[i] < picks[j]
  }

  ghost predicate Ascending(picks: seq<nat>) {
    forall i: nat, j: nat :: InOrder(picks, i, j)
  }

  ghost predicate KeepsPresent(items: seq<Option<Product>>, picks: seq<nat>, k: nat) {
    k in picks <==> k < |items| && items[k].Some?
  }

  ghost predicate ItemOf(items: seq<Option<Product>>, products: seq<Product>, picks: seq<nat>, m: nat) {
    m < |picks| && m < |products| ==> picks[m] < |items| && items[picks[m]] == Some(products[m])
  }

  /** The picked positions hold exactly the well-formed items, in order. */
  ghost predicate PresentAt(items: seq<Option<Product>>, products: seq<Product>, picks: seq<nat>) {
    && Ascending(picks)
    && (forall k: nat :: KeepsPresent(items, picks, k))
    && |picks| == |products|
    && (forall m: nat :: ItemOf(items, products, picks, m))
  }

  ghost predicate Present(items: seq<Option<Product>>, products: seq<Product>) {
    exists picks :: PresentAt(items, products, picks)
  }

  lemma PresentOneMore(items: seq<Option<Product>>, products: seq<Product>, picks: seq<nat>, item: Option<Product>)
    requires PresentAt(items, products, picks)
    ensures item.None? ==> PresentAt(items + [item], products, picks)
    ensures item.Some? ==> PresentAt(items + [item], products + [item.value], picks + [|items|])
  {
    assert forall i: nat | i < |picks| :: KeepsPresent(items, picks, picks[i]);
    forall i: nat, j: nat ensures InOrder(picks + [|items|], i, j) {
      assert InOrder(picks, i, j);
    }
    forall k: nat ensures item.None? ==> KeepsPresent(items + [item], picks, k)
      ensures item.Some? ==> KeepsPresent(items + [item], picks + [|items|], k)
    {
      assert KeepsPresent(items, picks, k);
    }
    forall m: nat
      ensures item.None? ==> ItemOf(items + [item], products, picks, m)
      ensures item.Some? ==> ItemOf(items + [item], products + [item.value], picks + [|items|], m)
    {
      assert ItemOf(items, products, picks, m);
    }
  }

  /** Until when a listing of this source is good: the category ranking changes at midnight UTC. */
  ghost predicate Refreshes(source: CatalogSource, at: Instant, now: Instant) {
    match source
    case CategoryBest => at % DayMs == 0 && now < at <= now + DayMs
    case TodayDeals => at == now + 15 * Minute
    case OverallBest => at == now + 60 * Minute
  }

  /** A page is good until its source refreshes or, if that is sooner, until the first of its products ends. */
  ghost predicate PageEnds(t: Instant, source: CatalogSource, products: seq<Product>, now: Instant) {
    && (forall p :: p in products && p.endAt.Some? ==> t <= p.endAt.value)
    && (exists at :: Refreshes(source, at, now) && t <= at && (t == at || exists p :: p in products && p.endAt == Some(t)))
  }

  ghost predicate PageHeld(a: Moment, key: PageKey, now: Instant) {
    key in a.pages && a.pages[key].expiresAt > now
  }

  /** A page read from the cache while it is good, and otherwise from the provider. */
  ghost predicate PageListed(world: nat -> Reply, a: Moment, b: Moment, key: PageKey, page: Page) {
    if PageHeld(a, key, world(a.step).at) then
      b == a.(step := a.step + 1) && page == a.pages[key].value
    else
      && Arrived(world(a.step + 1))
      && |world(a.step + 1).items| <= 30
      && Present(world(a.step + 1).items, page.products)
      && page.next == world(a.step + 1).next
      && (page.next.Some? ==> ValidCursor(page.next.value) && page.next != key.cursor)
      && exists t :: PageEnds(t, key.source, page.products, world(a.step + 2).at)
                     && b == a.(step := a.step + 3, pages := a.pages[key := Cached(page, t)])
  }

  ghost predicate PageFails(world: nat -> Reply, a: Moment, b: Moment, key: PageKey, failure: Failure) {
    var reply := world(a.step + 1);
    && b == a.(step := b.step)
    && (|| RequestFails(reply, failure)
        || (failure == InvalidProducts && Arrived(reply) && |reply.items| > 30)
        || (failure == InvalidCatalogCursor
            && (|| (key.cursor.Some? && !ValidCursor(key.cursor.value))
                || (Arrived(reply) && reply.next.Some? && (!ValidCursor(reply.next.value) || reply.next == key.cursor)))))
  }

  /** A stored detail is about the product it is stored under, and good for as long as its check allows. */
  ghost predicate CheckedIn(details: map<string, Cached<Option<Fresh>>>, id: string) {
    id in details && details[id].value.Some? ==> Checked(details[id].value.value, id)
  }

  ghost predicate DetailHeld(a: Moment, id: string, now: Instant) {
    id in a.details && a.details[id].expiresAt > now + 5 * Minute
  }

  /** A detail is good for a quarter of an hour after its check, and not beyond the product's end. */
  ghost predicate Checked(known: Fresh, id: string) {
    known.product.id == id && Soonest(known.expiresAt, known.checkedAt + 15 * Minute, known.product.endAt)
  }

  /** A response about one product: no item, or one, which may be malformed. */
  ghost predicate Answers(reply: Reply, found: Option<Product>) {
    Arrived(reply) && (if found.Some? then reply.items == [found] else reply.items == [] || reply.items == [None])
  }

  ghost predicate FetchFails(reply: Reply, id: string, failure: Failure) {
    || RequestFails(reply, failure)
    || (failure == InvalidProducts && Arrived(reply)
        && (|reply.items| > 1 || (|reply.items| == 1 && reply.items[0].Some? && reply.items[0].value.id != id)))
  }

  /** A detail read from the cache while it is good for five more minutes, and otherwise checked with the provider. */
  ghost predicate DetailRead(world: nat -> Reply, a: Moment, b: Moment, id: string, detail: Option<Fresh>) {
    var reply := world(a.step + 1);
    if DetailHeld(a, id, world(a.step).at) then
      b == a.(step := a.step + 1) && detail == a.details[id].value
    else
      var checkedAt := world(a.step + 2).at;
      && Answers(reply, if detail.Some? then Some(detail.value.product) else None)
      && (detail.Some? ==>
            && detail.value.checkedAt == checkedAt
            && Checked(detail.value, id))
      && b == a.(step := a.step + 3, details := a.details[id := Cached(detail, if detail.Some? then detail.value.expiresAt else checkedAt + 15 * Minute)])
  }

  ghost predicate DetailFails(world: nat -> Reply, a: Moment, b: Moment, id: string, failure: Failure) {
    var reply := world(a.step + 1);
    && b == a.(step := b.step)
    && !DetailHeld(a, id, world(a.step).at)
    && FetchFails(reply, id, failure)
  }

  ghost predicate LinkHeld(a: Moment, key: LinkKey, now: Instant) {
    key in a.links && a.links[key].expiresAt > now
  }

  /** A link taken from the cache for thirty days, and otherwise issued by the provider. */
  ghost predicate LinkIssued(world: nat -> Reply, a: Moment, b: Moment, key: LinkKey, url: string) {
    var reply := world(a.step + 1);
    if LinkHeld(a, key, world(a.step).at) then
      b == a.(step := a.step + 1) && url == a.links[key].value
    else
      && Arrived(reply)
      && reply.url == Some(url)
      && b == a.(step := a.step + 3, links := a.links[key := Cached(url, world(a.step + 2).at + 30 * DayMs)])
  }

  ghost predicate LinkFails(world: nat -> Reply, a: Moment, b: Moment, key: LinkKey, failure: Failure) {
    var reply := world(a.step + 1);
    && b == a.(step := b.step)
    && !LinkHeld(a, key, world(a.step).at)
    && (RequestFails(reply, failure) || (failure == InvalidLink && Arrived(reply) && reply.url.None?))
  }

  function PageExpiry(source: CatalogSource, products: seq<Product>, now: Instant): Instant {
    if products == [] then
      match source
      case CategoryBest => (now / DayMs + 1) * DayMs
      case TodayDeals => now + 15 * Minute
      case OverallBest => now + 60 * Minute
    else
      var rest := PageExpiry(source, products[1..], now);
      if products[0].endAt.Some? then Min(products[0].endAt.value, rest) else rest
  }

  lemma {:induction false} PageExpiryEnds(source: CatalogSource, products: seq<Product>, now: Instant)
    ensures PageEnds(PageExpiry(source, products, now), source, products, now)
  {
    var t := PageExpiry(source, products, now);
    if products == [] {
      assert Refreshes(source, t, now);
    } else {
      PageExpiryEnds(source, products[1..], now);
      var rest := PageExpiry(source, products[1..], now);
      var at :| Refreshes(source, at, now) && rest <= at && (rest == at || exists p :: p in products[1..] && p.endAt == Some(rest));
      assert products[0] in products;
    }
  }

  /** The well-formed items of a response, in order. */
  method ParseItems(items: seq<Option<Product>>) returns (products: seq<Product>)
    ensures Present(items, products)
  {
    products := [];
    ghost var picks: seq<nat> := [];
    for k := 0 to |items|
      invariant PresentAt(items[..k], products, picks)
    {
      PresentOneMore(items[..k], products, picks, items[k]);
      assert items[..k + 1] == items[..k] + [items[k]];
      if items[k].Some? {
        products := products + [items[k].value];
        picks := picks + [k];
      }
    }
    assert items[..|items|] == items;
  }

  class Provider {
    const world: nat -> Reply
    const budget: AccountBudget
    const publisherId: string
    var step: nat
    var pages: map<PageKey, Cached<Page>>
    var details: map<string, Cached<Option<Fresh>>>
    var links: map<LinkKey, Cached<string>>
    var rows: map<DayKey, BudgetRow>
    var asks: seq<Ask>

    constructor (world: nat -> Reply, budget: AccountBudget, rows: map<DayKey, BudgetRow>)
      ensures Valid() && this.world == world && this.budget == budget && State() == Account(rows, []) && step == 0
    {
      this.world, this.budget, this.rows, publisherId := world, budget, rows, "";
      step, pages, details, links, asks := 0, map[], map[], map[], [];
    }

    ghost function State(): Account
      reads this
    {
      Account(rows, asks)
    }

    ghost function Now(): Moment
      reads this
    {
      Moment(step, pages, details, links)
    }

    ghost predicate Valid()
      reads this
    {
      forall id :: CheckedIn(details, id)
    }

    ghost predicate Did(before: Account, cost: Cost, refused: bool)
      reads this
    {
      Ran(world, budget, before, State(), cost, refused)
    }

    method Draw() returns (reply: Reply)
      modifies this`step
      ensures reply == world(old(step)) && step == old(step) + 1
      ensures Observed(world, reply.at)
    {
      reply := world(step);
      step := step + 1;
    }

    /** One call: it may fail before reserving; otherwise its units are reserved before anything is sent. */
    method Request(products: nat, links: nat) returns (reply: Result<Reply, Failure>)
      modifies this`step, this`rows, this`asks
      ensures step == old(step) + 1
      ensures Did(old(State()), Cost(products, links), reply == Err(LocalDailyBudget))
      ensures match reply
              case Ok(r) => r == world(old(step)) && Arrived(r)
              case Err(failure) => RequestFails(world(old(step)), failure)
    {
      var r := Draw();
      if r.early.Some? {
        NothingRan(world, budget, State(), Cost(products, links));
        return Err(Other(r.early.value));
      }
      ghost var before := State();
      asks := asks + [Ask(products, links, r.at)];
      var accepted := Accepts(rows, budget, products, links, r.at);
      if accepted {
        rows := Reserved(rows, budget, products, links, r.at);
      }
      OneRan(world, budget, before, State(), Ask(products, links, r.at), !accepted);
      if !accepted {
        return Err(LocalDailyBudget);
      }
      match r.answer
      case Answered => reply := Ok(r);
      case Refused => reply := Err(ItemUnavailable);
      case Failed(code) => reply := Err(Other(code));
    }

    method ListPage(key: PageKey) returns (page: Result<Page, Failure>)
      modifies this`step, this`rows, this`asks, this`pages
      ensures Did(old(State()), Cost(30, 0), page == Err(LocalDailyBudget))
      ensures step >= old(step)
      ensures match page
              case Ok(found) => PageListed(world, old(Now()), Now(), key, found)
              case Err(failure) => PageFails(world, old(Now()), Now(), key, failure)
    {
      NothingRan(world, budget, State(), Cost(30, 0));
      if key.cursor.Some? && !ValidCursor(key.cursor.value) {
        return Err(InvalidCatalogCursor);
      }
      var now := Draw();
      if key in pages && pages[key].expiresAt > now.at {
        return Ok(pages[key].value);
      }
      var reply := Request(30, 0);
      if reply.Err? {
        return Err(reply.error);
      }
      var raw := reply.value;
      if |raw.items| > 30 {
        return Err(InvalidProducts);
      }
      if raw.next.Some? && (!ValidCursor(raw.next.value) || raw.next == key.cursor) {
        return Err(InvalidCatalogCursor);
      }
      var products := ParseItems(raw.items);
      var found := Page(products, raw.next);
      var written := Draw();
      PageExpiryEnds(key.source, products, written.at);
      pages := pages[key := Cached(found, PageExpiry(key.source, products, written.at))];
      page := Ok(found);
    }

    /** The provider's answer about one product: at most one item, and about no other product. */
    method FetchDetail(productId: string) returns (product: Result<Option<Product>, Failure>)
      modifies this`step, this`rows, this`asks
      ensures step == old(step) + 1
      ensures Did(old(State()), Cost(1, 0), product == Err(LocalDailyBudget))
      ensures var reply := world(old(step));
              match product
              case Ok(found) => Answers(reply, found) && (found.Some? ==> found.value.id == productId)
              case Err(failure) => FetchFails(reply, productId, failure)
    {
      var reply := Request(1, 0);
      if reply.Err? {
        return Err(reply.error);
      }
      var raw := reply.value;
      if |raw.items| > 1 {
        return Err(InvalidProducts);
      }
      var found := if raw.items != [] then raw.items[0] else None;
      product := if found.Some? && found.value.id != productId then Err(InvalidProducts) else Ok(found);
    }

    method Detail(productId: string) returns (detail: Result<Option<Fresh>, Failure>)
      requires Valid()
      modifies this`step, this`rows, this`asks, this`details
      ensures Valid()
      ensures Did(old(State()), Cost(1, 0), detail == Err(LocalDailyBudget))
      ensures step >= old(step)
      ensures match detail
              case Ok(read) => DetailRead(world, old(Now()), Now(), productId, read) && (read.Some? ==> Checked(read.value, productId))
              case Err(failure) => DetailFails(world, old(Now()), Now(), productId, failure)
    {
      assert CheckedIn(details, productId);
      ghost var stored := details;
      NothingRan(world, budget, State(), Cost(1, 0));
      var now := Draw();
      if productId in details && details[productId].expiresAt > now.at + 5 * Minute {
        return Ok(details[productId].value);
      }
      var fetched := FetchDetail(productId);
      if fetched.Err? {
        return Err(fetched.error);
      }
      var product := fetched.value;
      var checked := Draw();
      var expiresAt := checked.at + 15 * Minute;
      if product.Some? && product.value.endAt.Some? {
        expiresAt := Min(expiresAt, product.value.endAt.value);
      }
      var value := if product.Some? then Some(Fresh(product.value, checked.at, expiresAt)) else None;
      details := details[productId := Cached(value, expiresAt)];
      assert forall id :: CheckedIn(stored, id) ==> CheckedIn(details, id);
      detail := Ok(value);
    }

    method Issue(productId: string, subTagId: string) returns (url: Result<string, Failure>)
      modifies this`step, this`rows, this`asks, this`links
      ensures Did(old(State()), Cost(0, 1), url == Err(LocalDailyBudget))
      ensures step >= old(step)
      ensures match url
              case Ok(issued) => LinkIssued(world, old(Now()), Now(), LinkKey(subTagId, productId), issued)
              case Err(failure) => LinkFails(world, old(Now()), Now(), LinkKey(subTagId, productId), failure)
    {
      NothingRan(world, budget, State(), Cost(0, 1));
      var key := LinkKey(subTagId, productId);
      var now := Draw();
      if key in links && links[key].expiresAt > now.at {
        return Ok(links[key].value);
      }
      var reply := Request(0, 1);
      if reply.Err? {
        return Err(reply.error);
      }
      if reply.value.url.None? {
        return Err(InvalidLink);
      }
      var written := Draw();
      links := links[key := Cached(reply.value.url.value, written.at + 30 * DayMs)];
      url := Ok(reply.value.url.value);
    }
  }

}
