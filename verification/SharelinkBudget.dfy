/** The daily budget of a shared account: usage and limits per Korean calendar day, limits that can shrink mid-day. */
module SharelinkBudget {
  import opened Prelude

  type Time = int

  const DayMs := 86_400_000
  const KstOffsetMs := 9 * 3_600_000
  const RetentionDays := 7

  function NextKstDay(now: Time): Time {
    ((now + KstOffsetMs) / DayMs + 1) * DayMs - KstOffsetMs
  }

  /** The next Korean midnight: after now, within a day, the same for the whole day, and never earlier later on. */
  lemma NextKstDayBounds(now: Time, later: Time)
    requires now <= later
    ensures now < NextKstDay(now) <= now + DayMs
    ensures (NextKstDay(now) + KstOffsetMs) % DayMs == 0
    ensures NextKstDay(now) <= NextKstDay(later)
    ensures later < NextKstDay(now) <==> NextKstDay(later) == NextKstDay(now)
  {}

  datatype DayKey = DayKey(accountId: string, dayEnd: Time)

  datatype BudgetRow = BudgetRow(products: nat, links: nat, productLimit: nat, linkLimit: nat)

  /** What the account is configured to spend a day, as the caller of a reservation currently knows it. */
  datatype AccountBudget = AccountBudget(accountId: string, products: nat, links: nat)

  datatype Reservation = Reservation(key: DayKey, products: nat, links: nat, budget: AccountBudget)

  /** The row with its limits lowered to the caller's budget, inserted if it was missing. */
  function Capped(rows: map<DayKey, BudgetRow>, key: DayKey, budget: AccountBudget): BudgetRow {
    if key in rows then
      var row := rows[key];
      row.(productLimit := Min(row.productLimit, budget.products), linkLimit := Min(row.linkLimit, budget.links))
    else BudgetRow(0, 0, budget.products, budget.links)
  }

  predicate Fits(row: BudgetRow, products: nat, links: nat) {
    row.products + products <= row.productLimit && row.links + links <= row.linkLimit
  }

  predicate Accepts(rows: map<DayKey, BudgetRow>, budget: AccountBudget, products: nat, links: nat, now: Time) {
    (products == 0 && links == 0) || Fits(Capped(rows, DayKey(budget.accountId, NextKstDay(now)), budget), products, links)
  }

  function Reserved(rows: map<DayKey, BudgetRow>, budget: AccountBudget, products: nat, links: nat, now: Time)
    : map<DayKey, BudgetRow>
  {
    if products == 0 && links == 0 then rows
    else
      var key := DayKey(budget.accountId, NextKstDay(now));
      var row := Capped(rows, key, budget);
      rows[key := row.(products := row.products + products, links := row.links + links)]
  }

  function Pruned(rows: map<DayKey, BudgetRow>, now: Time): map<DayKey, BudgetRow> {
    map k | k in rows && k.dayEnd > now - RetentionDays * DayMs :: rows[k]
  }

  // ----- any sequence of reservations and prunes -----

  /** The stored rows, every reservation ever accepted, and the time of the last operation. */
  datatype Ledger = Ledger(rows: map<DayKey, BudgetRow>, accepted: seq<Reservation>, clock: Time)

  datatype Action =
    | Reserve(budget: AccountBudget, products: nat, links: nat, now: Time)
    | Prune(now: Time)

  function Apply(s: Ledger, a: Action): Ledger {
    match a
    case Reserve(budget, products, links, now) =>
      if (products == 0 && links == 0) || !Accepts(s.rows, budget, products, links, now) then s.(clock := now)
      else
        var r := Reservation(DayKey(budget.accountId, NextKstDay(now)), products, links, budget);
        Ledger(Reserved(s.rows, budget, products, links, now), s.accepted + [r], now)
    case Prune(now) => Ledger(Pruned(s.rows, now), s.accepted, now)
  }

  ghost predicate Execution(ledgers: seq<Ledger>, actions: seq<Action>) {
    && |ledgers| == |actions| + 1
    && ledgers[0] == Ledger(map[], [], 0)
    && (forall i :: 0 <= i < |actions| ==>
          ledgers[i].clock <= actions[i].now && ledgers[i + 1] == Apply(ledgers[i], actions[i]))
  }

  function ProductsOn(accepted: seq<Reservation>, key: DayKey): nat {
    if accepted == [] then 0
    else
      var last := accepted[|accepted| - 1];
      ProductsOn(accepted[..|accepted| - 1], key) + if last.key == key then last.products else 0
  }

  function LinksOn(accepted: seq<Reservation>, key: DayKey): nat {
    if accepted == [] then 0
    else
      var last := accepted[|accepted| - 1];
      LinksOn(accepted[..|accepted| - 1], key) + if last.key == key then last.links else 0
  }

  ghost predicate AcceptedOn(accepted: seq<Reservation>, key: DayKey) {
    exists r :: r in accepted && r.key == key
  }

  /** The row's limits are the least budgets under which a reservation of that day was accepted. */
  ghost predicate LeastBudgets(accepted: seq<Reservation>, key: DayKey, row: BudgetRow) {
    && (forall r :: r in accepted && r.key == key ==> row.productLimit <= r.budget.products && row.linkLimit <= r.budget.links)
    && (exists r :: r in accepted && r.key == key && r.budget.products == row.productLimit)
    && (exists r :: r in accepted && r.key == key && r.budget.links == row.linkLimit)
  }

  ghost predicate Accounted(accepted: seq<Reservation>, key: DayKey, row: BudgetRow) {
    && row.products == ProductsOn(accepted, key) <= row.productLimit
    && row.links == LinksOn(accepted, key) <= row.linkLimit
    && LeastBudgets(accepted, key, row)
  }

  /** Every row accounts for its day; a day without a row had no accepted reservation or is long over. */
  ghost predicate Balanced(s: Ledger) {
    forall k :: DayBalanced(s, k)
  }

  ghost predicate DayBalanced(s: Ledger, k: DayKey) {
    if k in s.rows then Accounted(s.accepted, k, s.rows[k])
    else AcceptedOn(s.accepted, k) ==> k.dayEnd <= s.clock - RetentionDays * DayMs
  }

  lemma {:induction false} NothingOn(accepted: seq<Reservation>, key: DayKey)
    requires !AcceptedOn(accepted, key)
    ensures ProductsOn(accepted, key) == 0 && LinksOn(accepted, key) == 0
  {
    if accepted != [] {
      var front, last := accepted[..|accepted| - 1], accepted[|accepted| - 1];
      assert last in accepted && forall r :: r in front ==> r in accepted;
      NothingOn(front, key);
    }
  }

  lemma AppendOn(accepted: seq<Reservation>, r: Reservation, key: DayKey)
    ensures ProductsOn(accepted + [r], key) == ProductsOn(accepted, key) + if r.key == key then r.products else 0
    ensures LinksOn(accepted + [r], key) == LinksOn(accepted, key) + if r.key == key then r.links else 0
  {
    assert (accepted + [r])[..|accepted|] == accepted;
  }

  lemma AppendLeast(accepted: seq<Reservation>, r: Reservation, row: BudgetRow)
    requires LeastBudgets(accepted, r.key, row)
    ensures LeastBudgets(accepted + [r], r.key,
                         row.(productLimit := Min(row.productLimit, r.budget.products),
                              linkLimit := Min(row.linkLimit, r.budget.links)))
  {
    var all := accepted + [r];
    assert r in all && forall q :: q in accepted ==> q in all;
    var p :| p in accepted && p.key == r.key && p.budget.products == row.productLimit;
    var l :| l in accepted && l.key == r.key && l.budget.links == row.linkLimit;
    assert p in all && l in all;
  }

  /** Accepting one more reservation keeps the account of its own day ... */
  lemma OwnDayAccounted(rows: map<DayKey, BudgetRow>, accepted: seq<Reservation>, r: Reservation)
    requires r.key in rows ==> Accounted(accepted, r.key, rows[r.key])
    requires r.key !in rows ==> !AcceptedOn(accepted, r.key)
    requires Fits(Capped(rows, r.key, r.budget), r.products, r.links)
    ensures var row := Capped(rows, r.key, r.budget);
            Accounted(accepted + [r], r.key, row.(products := row.products + r.products, links := row.links + r.links))
  {
    AppendOn(accepted, r, r.key);
    if r.key in rows {
      AppendLeast(accepted, r, rows[r.key]);
    } else {
      NothingOn(accepted, r.key);
      var all := accepted + [r];
      assert r in all && forall q :: q in all && q.key == r.key ==> q == r;
    }
  }

  /** ... and of every other day. */
  lemma OtherDayAccounted(accepted: seq<Reservation>, r: Reservation, key: DayKey, row: BudgetRow)
    requires Accounted(accepted, key, row) && r.key != key
    ensures Accounted(accepted + [r], key, row)
  {
    AppendOn(accepted, r, key);
    OthersLeast(accepted, r, key, row);
  }

  lemma ReservationKeepsBalanced(s: Ledger, a: Action)
    requires Balanced(s) && s.clock <= a.now && a.Reserve?
    requires (a.products != 0 || a.links != 0) && Accepts(s.rows, a.budget, a.products, a.links, a.now)
    ensures Balanced(Apply(s, a))
  {
    var key := DayKey(a.budget.accountId, NextKstDay(a.now));
    var r := Reservation(key, a.products, a.links, a.budget);
    var t := Apply(s, a);
    NextKstDayBounds(a.now, a.now);
    forall k ensures DayBalanced(t, k) {
      assert DayBalanced(s, k);
      if k == key {
        OwnDayAccounted(s.rows, s.accepted, r);
      } else if k in s.rows {
        OtherDayAccounted(s.accepted, r, k, s.rows[k]);
      } else if AcceptedOn(t.accepted, k) {
        var q :| q in t.accepted && q.key == k;
        assert q in s.accepted;
      }
    }
  }

  lemma OthersLeast(accepted: seq<Reservation>, r: Reservation, key: DayKey, row: BudgetRow)
    requires LeastBudgets(accepted, key, row) && r.key != key
    ensures LeastBudgets(accepted + [r], key, row)
  {
    var all := accepted + [r];
    var p :| p in accepted && p.key == key && p.budget.products == row.productLimit;
    var l :| l in accepted && l.key == key && l.budget.links == row.linkLimit;
    assert p in all && l in all;
  }

  lemma StepKeepsBalanced(s: Ledger, a: Action)
    requires Balanced(s) && s.clock <= a.now
    ensures Balanced(Apply(s, a))
  {
    if a.Reserve? && (a.products != 0 || a.links != 0) && Accepts(s.rows, a.budget, a.products, a.links, a.now) {
      ReservationKeepsBalanced(s, a);
    } else {
      forall k ensures DayBalanced(Apply(s, a), k) {
        assert DayBalanced(s, k);
      }
    }
  }

  /** At every moment each stored row is the exact account of the reservations accepted for its day. */
  lemma {:induction false} LedgerBalances(ledgers: seq<Ledger>, actions: seq<Action>, i: nat)
    requires Execution(ledgers, actions) && i < |ledgers|
    ensures Balanced(ledgers[i])
  {
    if i == 0 {
      forall k ensures DayBalanced(ledgers[0], k) {}
    } else {
      LedgerBalances(ledgers, actions, i - 1);
      StepKeepsBalanced(ledgers[i - 1], actions[i - 1]);
    }
  }

  /** What a day's reservations use never exceeds any budget under which one of them was accepted, early or late. */
  lemma EveryAcceptedBudgetHolds(ledgers: seq<Ledger>, actions: seq<Action>, i: nat, r: Reservation)
    requires Execution(ledgers, actions) && i < |ledgers|
    requires r in ledgers[i].accepted && r.key in ledgers[i].rows
    ensures ProductsOn(ledgers[i].accepted, r.key) <= r.budget.products
    ensures LinksOn(ledgers[i].accepted, r.key) <= r.budget.links
  {
    LedgerBalances(ledgers, actions, i);
    assert DayBalanced(ledgers[i], r.key);
  }

  /** The day in progress is never pruned: its row is there as soon as one reservation was accepted. */
  lemma CurrentDayIsKept(ledgers: seq<Ledger>, actions: seq<Action>, i: nat, key: DayKey)
    requires Execution(ledgers, actions) && i < |ledgers|
    requires key.dayEnd == NextKstDay(ledgers[i].clock)
    ensures AcceptedOn(ledgers[i].accepted, key) <==> key in ledgers[i].rows
  {
    LedgerBalances(ledgers, actions, i);
    NextKstDayBounds(ledgers[i].clock, ledgers[i].clock);
    assert DayBalanced(ledgers[i], key);
  }

  // ----- the remaining budget as reported to the planner -----

  function RemainingProducts(rows: map<DayKey, BudgetRow>, budget: AccountBudget, now: Time): nat {
    var key := DayKey(budget.accountId, NextKstDay(now));
    var limit := if key in rows then rows[key].productLimit else budget.products;
    var used := if key in rows then rows[key].products else 0;
    Max(0, Min(budget.products, limit) - used)
  }

  function RemainingLinks(rows: map<DayKey, BudgetRow>, budget: AccountBudget, now: Time): nat {
    var key := DayKey(budget.accountId, NextKstDay(now));
    var limit := if key in rows then rows[key].linkLimit else budget.links;
    var used := if key in rows then rows[key].links else 0;
    Max(0, Min(budget.links, limit) - used)
  }

  /** Usage within both the stored limits and the caller's budget: what a shrunk budget can break. */
  predicate Solvent(rows: map<DayKey, BudgetRow>, budget: AccountBudget, now: Time) {
    Fits(Capped(rows, DayKey(budget.accountId, NextKstDay(now)), budget), 0, 0)
  }

  /**
   A real reservation is accepted exactly when it fits what is reported as remaining and the account is
   solvent. The second half matters: after a budget shrank below the day's usage the report is cut off at
   zero, and even a reservation that asks nothing of the exhausted unit is refused.
   */
  lemma AcceptedIffRemaining(rows: map<DayKey, BudgetRow>, budget: AccountBudget, products: nat, links: nat, now: Time)
    requires products != 0 || links != 0
    ensures Accepts(rows, budget, products, links, now) <==>
              && Solvent(rows, budget, now)
              && products <= RemainingProducts(rows, budget, now)
              && links <= RemainingLinks(rows, budget, now)
  {}

  /** A remainder of both units shows that the account is solvent. */
  lemma RemainderShowsSolvency(rows: map<DayKey, BudgetRow>, budget: AccountBudget, now: Time)
    requires 0 < RemainingProducts(rows, budget, now) && 0 < RemainingLinks(rows, budget, now)
    ensures Solvent(rows, budget, now)
  {}

  /** An account that shrank from 100 to 50 products after using 60: a link alone fits the report but is refused. */
  lemma FittingTheReportIsNotEnough()
    ensures var budget := AccountBudget("a", 50, 10);
            var rows := map[DayKey("a", NextKstDay(0)) := BudgetRow(60, 0, 100, 10)];
            && 0 <= RemainingProducts(rows, budget, 0) && 1 <= RemainingLinks(rows, budget, 0)
            && !Accepts(rows, budget, 0, 1, 0)
  {}

  // ----- a plan within the reported remainder -----

  /** One unit of work that a plan leads to: a reservation made at its own time. */
  datatype Ask = Ask(products: nat, links: nat, at: Time)

  function AskedProducts(asks: seq<Ask>): nat {
    if asks == [] then 0 else asks[0].products + AskedProducts(asks[1..])
  }

  function AskedLinks(asks: seq<Ask>): nat {
    if asks == [] then 0 else asks[0].links + AskedLinks(asks[1..])
  }

  predicate AllAccepted(rows: map<DayKey, BudgetRow>, budget: AccountBudget, asks: seq<Ask>)
    decreases |asks|
  {
    asks != [] ==>
    && Accepts(rows, budget, asks[0].products, asks[0].links, asks[0].at)
    && AllAccepted(Reserved(rows, budget, asks[0].products, asks[0].links, asks[0].at), budget, asks[1..])
  }

  lemma RemainderShrinks(rows: map<DayKey, BudgetRow>, budget: AccountBudget, products: nat, links: nat, now: Time)
    requires Solvent(rows, budget, now)
    requires products <= RemainingProducts(rows, budget, now) && links <= RemainingLinks(rows, budget, now)
    ensures var after := Reserved(rows, budget, products, links, now);
            && Accepts(rows, budget, products, links, now)
            && Solvent(after, budget, now)
            && RemainingProducts(after, budget, now) == RemainingProducts(rows, budget, now) - products
            && RemainingLinks(after, budget, now) == RemainingLinks(rows, budget, now) - links
  {}

  /** Work that fits the remainder reported at `now` and is done before the day ends never meets the daily budget. */
  lemma {:induction false} PlannedWorkIsNeverRefused(
    rows: map<DayKey, BudgetRow>, budget: AccountBudget, asks: seq<Ask>, now: Time)
    requires Solvent(rows, budget, now)
    requires forall i :: 0 <= i < |asks| ==> now <= asks[i].at < NextKstDay(now)
    requires AskedProducts(asks) <= RemainingProducts(rows, budget, now)
    requires AskedLinks(asks) <= RemainingLinks(rows, budget, now)
    ensures AllAccepted(rows, budget, asks)
    decreases |asks|
  {
    if asks != [] {
      var first := asks[0];
      NextKstDayBounds(now, first.at);
      RemainderShrinks(rows, budget, first.products, first.links, now);
      PlannedWorkIsNeverRefused(Reserved(rows, budget, first.products, first.links, now), budget, asks[1..], now);
    }
  }
}
