/** What the answer of a search owes to the pages read and the products tried, read off its trace. */
module ResolveMeaning {
  import opened Prelude
  import Preview = RefreshPreview
  import opened SharelinkProvider
  import opened ResolveSubject

  /**
   Why a candidate was passed over: the provider has no detail of it, the detail has a minute left or less, it does
   not satisfy the rules, the provider refuses a link for it, or the offer would have a minute left or less.
   */
  ghost predicate Cause(q: Query, t: Trial) {
    || t.detail == Ok(None)
    || (&& t.detail.Ok? && t.detail.value.Some?
        && var known, now := t.detail.value.value, q.world(t.known.step).at;
           || known.expiresAt <= now + Minute
           || !q.rules.suits(known.product, now)
           || (q.world(t.known.step + 2).early.None? && q.world(t.known.step + 2).answer == Refused)
           || EndsSoon(known, t.candidate.endAt, q.world(t.linked.step).at))
  }

  /** A detail good enough to publish: more than a minute left when looked at, and satisfying the rules. */
  ghost predicate Passes(q: Query, known: Fresh, now: Instant) {
    known.expiresAt > now + Minute && q.rules.suits(known.product, now)
  }

  lemma SkippedForCause(q: Query, t: Trial)
    requires Judged(q, t) && Told(t.verdict) == Ok(Skip)
    ensures Cause(q, t)
  {}

  lemma OfferedFromDetail(q: Query, t: Trial, offer: Offer)
    requires Judged(q, t) && t.verdict == Offered(offer)
    ensures t.detail.Ok? && t.detail.value.Some? && Passes(q, t.detail.value.value, q.world(t.known.step).at)
    ensures OfferOf(offer, t.detail.value.value, offer.url, t.candidate.endAt)
    ensures offer.expiresAt > q.world(t.linked.step).at + Minute
  {}

  /** The m-th of a page's queue was tried on its turn and passed over for a cause. */
  ghost predicate PassedOver(q: Query, v: Visit, m: nat) {
    m < |v.trials| && m < |v.queue| && v.trials[m].candidate == v.queue[m] && Cause(q, v.trials[m])
  }

  /** On this page everything that may be tried was tried and passed over: as many as are left of three in all. */
  ghost predicate NothingHere(q: Query, v: Visit) {
    v.inspected <= 3 && forall m: nat :: m < Min(|v.queue|, 3 - v.inspected) ==> PassedOver(q, v, m)
  }

  lemma AllButLastPassedOver(q: Query, v: Visit, start: Moment, m: nat)
    requires TriedInOrder(q, v.queue, start, v.trials, v.after) && m < |v.trials|
    requires m + 1 < |v.trials| || LastTold(v.trials) == Ok(Skip)
    ensures PassedOver(q, v, m)
  {
    assert TrialAt(q, v.queue, start, v.trials, m);
    SkippedForCause(q, v.trials[m]);
  }

  lemma SkippedPage(q: Query, earlier: seq<Visit>, v: Visit)
    requires Visited(q, earlier, v) && LastTold(v.trials) == Ok(Skip)
    ensures NothingHere(q, v)
  {
    forall m: nat | m < Min(|v.queue|, 3 - v.inspected) ensures PassedOver(q, v, m) {
      AllButLastPassedOver(q, v, v.listed.(step := v.listed.step + 1), m);
    }
  }

  /** The i-th page was read after those before it, and nothing on it could be offered. */
  ghost predicate PassedPage(q: Query, visits: seq<Visit>, i: nat) {
    i < |visits| && Visited(q, visits[..i], visits[i]) && NothingHere(q, visits[i])
  }

  lemma OpenPages(q: Query, begun: Moment, visits: seq<Visit>, i: nat)
    requires Open(q, begun, visits) && i < |visits|
    ensures PassedPage(q, visits, i)
  {
    assert TrailAt(q, begun, visits, i) && GoesOnAt(q, visits, i);
    SkippedPage(q, visits[..i], visits[i]);
  }

  /** Why a search may give up: a pinned product, three candidates inspected, no further page, or the page limit. */
  ghost predicate MayStop(q: Query, pages: nat, v: Visit, inspection: Inspection) {
    match inspection.reason
    case PinnedUnavailable => q.subject.pinnedProductId.Some? && pages == 1 && inspection.pages == 0
    case CandidateLimit => q.subject.pinnedProductId.None? && inspection.candidates == 3 && inspection.pages == pages
    case Exhausted => q.subject.pinnedProductId.None? && inspection.candidates < 3 && inspection.pages == pages && v.page.next.None?
    case PageLimitReached =>
      && q.subject.pinnedProductId.None? && inspection.candidates < 3
      && inspection.pages == pages == q.subject.maxCatalogPages.GetOr(1) && v.page.next.Some?
  }

  /** The number of products tried on the pages. */
  ghost function Attempts(visits: seq<Visit>): nat {
    if visits == [] then 0 else Attempts(visits[..|visits| - 1]) + |visits[|visits| - 1].trials|
  }

  lemma {:induction false} InspectedSoFar(q: Query, begun: Moment, visits: seq<Visit>)
    requires Trail(q, begun, visits)
    ensures Tries(visits) == Attempts(visits)
  {
    if visits != [] {
      var front, v := visits[..|visits| - 1], visits[|visits| - 1];
      assert visits == front + [v];
      TrailEnds(q, begun, front, v);
      InspectedSoFar(q, begun, front);
    }
  }

  /** What an inspection counts: the pages read, unless the subject is pinned, and the products tried, three at most. */
  lemma InspectionCounts(q: Query, t: Trace, r: Result<Outcome, Failure>, inspection: Inspection)
    requires Searched(q, t, r, inspection)
    ensures var visits := if t.last.Some? then t.earlier + [t.last.value] else t.earlier;
            && inspection.pages == (if q.subject.pinnedProductId.Some? then 0 else |visits|)
            && inspection.candidates == Attempts(visits) <= 3
            && |visits| <= (if q.subject.pinnedProductId.Some? then 1 else q.subject.maxCatalogPages.GetOr(1))
  {
    match t.last
    case None =>
      InspectedSoFar(q, t.begun, t.earlier);
      if t.earlier != [] {
        OpenPages(q, t.begun, t.earlier, |t.earlier| - 1);
      }
    case Some(v) =>
      InspectedSoFar(q, t.begun, t.earlier + [v]);
      TrailEnds(q, t.begun, t.earlier, v);
  }

  /** The preview estimates what a search costs that uses up its pages and its candidates. */
  lemma EstimateIsTheLimit(subject: Preview.Subject, now: Instant)
    requires !Preview.ManualNow(subject, now)
    ensures subject.pinnedProductId.Some? ==> Preview.EstimateRefreshCost(subject, now) == SearchCost(subject, 1, 1)
    ensures subject.pinnedProductId.None? ==>
              Preview.EstimateRefreshCost(subject, now) == SearchCost(subject, subject.maxCatalogPages.GetOr(1), 3)
  {}

  /**
   No match is answered only when on every page read each product that could be tried was tried on its turn and
   passed over for a cause, and the search was out of pages or at a limit, which is the reason it reports.
   */
  lemma NoMatchMeans(q: Query, t: Trace, inspection: Inspection)
    requires Searched(q, t, Ok(NoMatch), inspection)
    ensures t.last.Some?
    ensures forall i: nat :: i < |t.earlier| ==> PassedPage(q, t.earlier, i)
    ensures Visited(q, t.earlier, t.last.value) && NothingHere(q, t.last.value)
    ensures MayStop(q, |t.earlier| + 1, t.last.value, inspection)
  {
    var v := t.last.value;
    TrailEnds(q, t.begun, t.earlier, v);
    SkippedPage(q, t.earlier, v);
    forall i: nat | i < |t.earlier| ensures PassedPage(q, t.earlier, i) {
      OpenPages(q, t.begun, t.earlier, i);
    }
  }

  /**
   An offer comes from the first candidate that was not passed over, on the first page that has one. Its detail
   had more than a minute left and satisfied the rules, and the offer says no more than the detail and the link.
   */
  lemma ReadyMeans(q: Query, t: Trace, offer: Offer, inspection: Inspection)
    requires Searched(q, t, Ok(Ready(offer)), inspection)
    ensures forall i: nat :: i < |t.earlier| ==> PassedPage(q, t.earlier, i)
    ensures t.last.Some? && Visited(q, t.earlier, t.last.value)
    ensures t.last.value.trials != [] && |t.last.value.trials| <= |t.last.value.queue|
    ensures var v := t.last.value;
            var n := |v.trials| - 1;
            && (forall m: nat :: m < n ==> PassedOver(q, v, m))
            && v.trials[n].candidate == v.queue[n]
            && v.trials[n].detail.Ok? && v.trials[n].detail.value.Some?
            && Passes(q, v.trials[n].detail.value.value, q.world(v.trials[n].known.step).at)
            && OfferOf(offer, v.trials[n].detail.value.value, offer.url, v.trials[n].candidate.endAt)
            && offer.expiresAt > q.world(v.trials[n].linked.step).at + Minute
  {
    var v := t.last.value;
    TrailEnds(q, t.begun, t.earlier, v);
    forall i: nat | i < |t.earlier| ensures PassedPage(q, t.earlier, i) {
      OpenPages(q, t.begun, t.earlier, i);
    }
    var n, start := |v.trials| - 1, v.listed.(step := v.listed.step + 1);
    forall m: nat | m < n ensures PassedOver(q, v, m) {
      AllButLastPassedOver(q, v, start, m);
    }
    assert TrialAt(q, v.queue, start, v.trials, n);
    OfferedFromDetail(q, v.trials[n], offer);
  }

  /**
   Without a learned order, every suitable product of a page that no earlier page listed has its turn: with fewer
   than three inspected before it, no match means that it was tried and passed over for a cause.
   */
  lemma SuitableIsTried(q: Query, earlier: seq<Visit>, v: Visit, k: nat)
    requires Visited(q, earlier, v) && NothingHere(q, v) && (!q.rules.learned || q.subject.pinnedProductId.Some?)
    requires SuitableAt(q.rules, v.page.products, earlier, q.world(v.listed.step).at, k)
    ensures exists m: nat :: m < |v.picks| && v.picks[m] == k && m < |v.queue| && v.queue[m] == v.page.products[k]
                             && (m < 3 - v.inspected ==> PassedOver(q, v, m))
  {
    assert KeepsSuitable(q.rules, v.page.products, earlier, q.world(v.listed.step).at, |v.page.products|, v.picks, k);
    var m: nat :| m < |v.picks| && v.picks[m] == k;
    assert ProductOf(v.page.products, v.picks, v.suitable, m);
  }

  /** The queue of a page is duplicate-free, so no product has two turns, and it repeats nothing of an earlier page. */
  lemma SuitablesAreNew(q: Query, earlier: seq<Visit>, v: Visit, m: nat, n: nat)
    requires Visited(q, earlier, v) && m < |v.suitable| && n < |v.suitable| && m != n
    ensures v.suitable[m].id != v.suitable[n].id && !Shown(earlier, v.suitable[m].id)
    ensures v.suitable[m] in v.page.products && q.rules.suits(v.suitable[m], q.world(v.listed.step).at)
  {
    SuitableFrom(q, earlier, v, m);
    SuitableFrom(q, earlier, v, n);
    assert InOrder(v.picks, m, n) && InOrder(v.picks, n, m);
    var now, products := q.world(v.listed.step).at, v.page.products;
    assert NoTwinAt(q.rules, products, now, v.picks[m], v.picks[n]) && NoTwinAt(q.rules, products, now, v.picks[n], v.picks[m]);
  }

  lemma SuitableFrom(q: Query, earlier: seq<Visit>, v: Visit, m: nat)
    requires Visited(q, earlier, v) && m < |v.suitable|
    ensures m < |v.picks| && v.picks[m] < |v.page.products| && v.suitable[m] == v.page.products[v.picks[m]]
    ensures SuitableAt(q.rules, v.page.products, earlier, q.world(v.listed.step).at, v.picks[m])
  {
    assert ProductOf(v.page.products, v.picks, v.suitable, m);
    assert KeepsSuitable(q.rules, v.page.products, earlier, q.world(v.listed.step).at, |v.page.products|, v.picks, v.picks[m]);
  }
}
