/** What the refresh preview's plan guarantees: greedy choice in priority order, a complete account of every candidate. */
module RefreshPlan {
  import opened Prelude
  import opened RefreshPreview
  import Ordering

  function Id(c: Candidate): string {
    c.subject.subjectId
  }

  ghost predicate UniqueIds(cs: seq<Candidate>) {
    forall i, j :: 0 <= i < j < |cs| ==> Id(cs[i]) != Id(cs[j])
  }

  function Plus(a: Cost, b: Cost): Cost {
    Cost(a.products + b.products, a.links + b.links)
  }

  /** The cost of a list of candidates at given prices. */
  function TotalCost(cs: seq<Candidate>, price: Subject -> Cost): Cost {
    if cs == [] then Cost(0, 0) else Plus(price(cs[0].subject), TotalCost(cs[1..], price))
  }

  // ----- sorting -----

  ghost predicate SortedBy(cs: seq<Candidate>, key: Candidate -> Key) {
    forall i, j :: 0 <= i < j < |cs| ==> key(cs[i]).AtMost(key(cs[j]))
  }

  lemma EarlierOrder(key: Candidate -> Key)
    ensures Ordering.WeakOrder(Earlier(key))
  {
    var before := Earlier(key);
    forall a, b, c | !before(b, a) && !before(c, b) ensures !before(c, a) {
      assert key(a).AtMost(key(b)) && key(b).AtMost(key(c));
    }
  }

  /** Sorting only reorders. */
  lemma SortSorts(cs: seq<Candidate>, key: Candidate -> Key)
    ensures SortedBy(Sort(cs, key), key)
    ensures multiset(Sort(cs, key)) == multiset(cs)
  {
    EarlierOrder(key);
    Ordering.ArrangeKeeps(cs, Earlier(key));
    Ordering.ArrangeArranges(cs, Earlier(key));
    var sorted := Sort(cs, key);
    forall i, j | 0 <= i < j < |sorted| ensures key(sorted[i]).AtMost(key(sorted[j])) {
      assert !Earlier(key)(sorted[j], sorted[i]);
    }
  }

  lemma SortMembers(cs: seq<Candidate>, key: Candidate -> Key)
    ensures forall c :: c in Sort(cs, key) <==> c in cs
    ensures |Sort(cs, key)| == |cs|
  {
    Ordering.ArrangeKeeps(cs, Earlier(key));
  }

  lemma {:induction false} OnlyMembers(cs: seq<Candidate>, keep: Candidate -> bool)
    ensures forall c :: c in Only(cs, keep) <==> c in cs && keep(c)
    ensures multiset(cs) == multiset(Only(cs, keep)) + multiset(Only(cs, c => !keep(c)))
  {
    if cs != [] {
      OnlyMembers(cs[1..], keep);
      assert cs == [cs[0]] + cs[1..];
    }
  }

  lemma ConsCost(c: Candidate, cs: seq<Candidate>, price: Subject -> Cost)
    ensures TotalCost([c] + cs, price) == Plus(price(c.subject), TotalCost(cs, price))
  {
    assert ([c] + cs)[1..] == cs;
  }

  lemma {:induction false} InsertCost(c: Candidate, sorted: seq<Candidate>, before: (Candidate, Candidate) -> bool, price: Subject -> Cost)
    ensures TotalCost(Ordering.Insert(c, sorted, before), price) == Plus(price(c.subject), TotalCost(sorted, price))
  {
    if sorted == [] {
      ConsCost(c, [], price);
    } else if before(sorted[0], c) {
      InsertCost(c, sorted[1..], before, price);
      ConsCost(sorted[0], Ordering.Insert(c, sorted[1..], before), price);
    } else {
      ConsCost(c, sorted, price);
    }
  }

  lemma {:induction false} SortCost(cs: seq<Candidate>, before: (Candidate, Candidate) -> bool, price: Subject -> Cost)
    ensures TotalCost(Ordering.Arrange(cs, before), price) == TotalCost(cs, price)
  {
    if cs != [] {
      SortCost(cs[1..], before, price);
      InsertCost(cs[0], Ordering.Arrange(cs[1..], before), before, price);
    }
  }

  lemma {:induction false} AppendCost(cs: seq<Candidate>, c: Candidate, price: Subject -> Cost)
    ensures TotalCost(cs + [c], price) == Plus(TotalCost(cs, price), price(c.subject))
  {
    if cs == [] {
      assert cs + [c] == [c] + [];
      ConsCost(c, [], price);
    } else {
      AppendCost(cs[1..], c, price);
      assert cs + [c] == [cs[0]] + (cs[1..] + [c]);
      ConsCost(cs[0], cs[1..] + [c], price);
    }
  }

  // ----- one pass -----

  ghost predicate Chosen(p: Picked, id: string) {
    exists c :: c in p.selected && Id(c) == id
  }

  /** What holds of the picks at every moment: counters, limits and reasons agree with the list. */
  ghost predicate Kept(terms: Terms, p: Picked) {
    && p.used == TotalCost(p.selected, terms.price)
    && p.used.products <= terms.allowance.products
    && p.used.links <= terms.allowance.links
    && |p.selected| == |p.reasons| <= terms.most
    && UniqueIds(p.selected)
    && (forall id :: id in p.reasons <==> Chosen(p, id))
    && (terms.cooling ==> forall c :: c in p.selected ==> c.manual)
  }

  lemma TakeKeeps(terms: Terms, p: Picked, c: Candidate, reason: Reason)
    requires Kept(terms, p) && Affordable(terms, p.used, c) && |p.selected| < terms.most && Id(c) !in p.reasons
    ensures Kept(terms, Take(p, c, reason, terms.price(c.subject)))
  {
    AppendCost(p.selected, c, terms.price);
    var q := Take(p, c, reason, terms.price(c.subject));
    forall id ensures id in q.reasons <==> Chosen(q, id) {
      if Chosen(p, id) {
        var d :| d in p.selected && Id(d) == id;
        assert d in q.selected;
      }
      if id == Id(c) {
        assert c in q.selected;
      }
    }
    forall i | 0 <= i < |p.selected| ensures Id(p.selected[i]) != Id(c) {
      assert Chosen(p, Id(p.selected[i]));
    }
  }

  /** `q` continues `p`: nothing picked is dropped or relabelled, what is added comes from the pool for the reason given. */
  ghost predicate Continues(p: Picked, q: Picked, pool: seq<Candidate>, limit: int, reason: Reason) {
    && |p.selected| <= |q.selected| <= |p.selected| + Max(limit, 0)
    && p.used.products <= q.used.products
    && p.used.links <= q.used.links
    && (forall id :: id in p.reasons ==> id in q.reasons && q.reasons[id] == p.reasons[id])
    && (forall c :: c in p.selected ==> c in q.selected)
    && (forall c :: c in q.selected ==> c in p.selected || Added(p, q, pool, reason, c))
  }

  ghost predicate Added(p: Picked, q: Picked, pool: seq<Candidate>, reason: Reason, c: Candidate) {
    c in pool && Id(c) !in p.reasons && Id(c) in q.reasons && q.reasons[Id(c)] == reason
  }

  lemma {:induction false} PassKeeps(terms: Terms, p: Picked, pool: seq<Candidate>, limit: int, reason: Reason)
    requires Kept(terms, p)
    ensures Kept(terms, Pass(terms, p, pool, limit, reason))
    decreases |pool|
  {
    if pool == [] || limit <= 0 || |p.selected| >= terms.most {
    } else {
      var c, rest := pool[0], pool[1..];
      if Id(c) in p.reasons || !Affordable(terms, p.used, c) {
        PassKeeps(terms, p, rest, limit, reason);
      } else {
        TakeKeeps(terms, p, c, reason);
        PassKeeps(terms, Take(p, c, reason, terms.price(c.subject)), rest, limit - 1, reason);
      }
    }
  }

  lemma {:induction false} PassContinues(terms: Terms, p: Picked, pool: seq<Candidate>, limit: int, reason: Reason)
    ensures Continues(p, Pass(terms, p, pool, limit, reason), pool, limit, reason)
    decreases |pool|
  {
    if pool == [] || limit <= 0 || |p.selected| >= terms.most {
    } else {
      var c, rest := pool[0], pool[1..];
      assert forall d :: d in rest ==> d in pool;
      if Id(c) in p.reasons || !Affordable(terms, p.used, c) {
        PassContinues(terms, p, rest, limit, reason);
        ContinuesInLarger(p, Pass(terms, p, rest, limit, reason), rest, pool, limit, reason);
      } else {
        var taken := Take(p, c, reason, terms.price(c.subject));
        PassContinues(terms, taken, rest, limit - 1, reason);
        TakeContinues(terms, p, c, Pass(terms, taken, rest, limit - 1, reason), pool, limit, reason);
      }
    }
  }

  lemma ContinuesInLarger(p: Picked, q: Picked, rest: seq<Candidate>, pool: seq<Candidate>, limit: int, reason: Reason)
    requires Continues(p, q, rest, limit, reason) && forall d :: d in rest ==> d in pool
    ensures Continues(p, q, pool, limit, reason)
  {
    forall c | c in q.selected ensures c in p.selected || Added(p, q, pool, reason, c) {
      assert c in p.selected || Added(p, q, rest, reason, c);
    }
  }

  lemma TakeContinues(terms: Terms, p: Picked, c: Candidate, q: Picked, pool: seq<Candidate>, limit: int, reason: Reason)
    requires pool != [] && c == pool[0] && 0 < limit && Id(c) !in p.reasons
    requires Continues(Take(p, c, reason, terms.price(c.subject)), q, pool[1..], limit - 1, reason)
    ensures Continues(p, q, pool, limit, reason)
    ensures c in q.selected && Id(c) in q.reasons
  {
    var taken := Take(p, c, reason, terms.price(c.subject));
    assert c in taken.selected;
    assert Id(c) in taken.reasons && taken.reasons[Id(c)] == reason;
    forall d | d in p.selected ensures d in q.selected {
      assert d in taken.selected;
    }
    forall d | d in q.selected ensures d in p.selected || Added(p, q, pool, reason, d) {
      assert d in taken.selected || Added(taken, q, pool[1..], reason, d);
      if d !in taken.selected {
        assert d in pool[1..];
        assert d in pool;
      }
    }
  }

  /** The pass could have taken `c` and did not. */
  ghost predicate PassedOver(terms: Terms, q: Picked, pool: seq<Candidate>, c: Candidate) {
    c in pool && Id(c) !in q.reasons && Affordable(terms, q.used, c)
  }

  /** Everything added comes no later than `c` in the order. */
  ghost predicate AddedBefore(p: Picked, q: Picked, key: Candidate -> Key, c: Candidate) {
    forall d :: d in q.selected ==> d in p.selected || key(d).AtMost(key(c))
  }

  /**
   Greedy choice: if a pass leaves out a candidate that is still affordable at its end, it stopped because
   its limit or the plan was full, and everything it took comes no later in the pool's order.
   */
  lemma {:induction false} PassIsGreedy(
    terms: Terms, p: Picked, pool: seq<Candidate>, limit: int, reason: Reason, key: Candidate -> Key, c: Candidate)
    requires SortedBy(pool, key)
    requires PassedOver(terms, Pass(terms, p, pool, limit, reason), pool, c)
    ensures var q := Pass(terms, p, pool, limit, reason);
            && (|q.selected| >= terms.most || |q.selected| - |p.selected| >= limit)
            && AddedBefore(p, q, key, c)
    decreases |pool|
  {
    if pool == [] || limit <= 0 || |p.selected| >= terms.most {
    } else {
      var d, rest := pool[0], pool[1..];
      assert pool == [d] + rest;
      if Id(d) in p.reasons || !Affordable(terms, p.used, d) {
        PassContinues(terms, p, rest, limit, reason);
        assert c in rest;
        PassIsGreedy(terms, p, rest, limit, reason, key, c);
      } else {
        var taken := Take(p, d, reason, terms.price(d.subject));
        PassContinues(terms, taken, rest, limit - 1, reason);
        TakeContinues(terms, p, d, Pass(terms, taken, rest, limit - 1, reason), pool, limit, reason);
        assert c in rest;
        PassIsGreedy(terms, taken, rest, limit - 1, reason, key, c);
      }
    }
  }

  // ----- the three passes together -----

  ghost predicate ReasonsMatch(p: Picked) {
    forall c :: c in p.selected ==> Id(c) in p.reasons && (p.reasons[Id(c)] == ForDemand <==> c.reach > 0)
  }

  lemma ContinuesMatching(p: Picked, q: Picked, pool: seq<Candidate>, limit: int, reason: Reason)
    requires ReasonsMatch(p) && Continues(p, q, pool, limit, reason)
    requires forall c :: c in pool ==> (reason == ForDemand <==> c.reach > 0)
    ensures ReasonsMatch(q)
  {
    forall c | c in q.selected ensures Id(c) in q.reasons && (q.reasons[Id(c)] == ForDemand <==> c.reach > 0) {
      assert c in p.selected || Added(p, q, pool, reason, c);
    }
  }

  lemma PoolMembers(cs: seq<Candidate>)
    ensures forall c :: c in Wanted(cs) <==> c in cs && c.reach > 0
    ensures forall c :: c in Exploration(cs) <==> c in cs && c.reach == 0
    ensures SortedBy(Wanted(cs), DemandKey) && SortedBy(Exploration(cs), ExplorationKey)
  {
    OnlyMembers(cs, IsWanted);
    OnlyMembers(cs, IsExploration);
    SortMembers(Only(cs, IsWanted), DemandKey);
    SortMembers(Only(cs, IsExploration), ExplorationKey);
    SortSorts(Only(cs, IsWanted), DemandKey);
    SortSorts(Only(cs, IsExploration), ExplorationKey);
  }

  ghost predicate Drawn(terms: Terms, cs: seq<Candidate>, p: Picked) {
    && Kept(terms, p)
    && ReasonsMatch(p)
    && forall c :: c in p.selected ==> c in cs
  }

  /** A pool holds candidates that the given reason may pick. */
  ghost predicate PoolFor(pool: seq<Candidate>, cs: seq<Candidate>, reason: Reason) {
    forall c :: c in pool ==> c in cs && (reason == ForDemand <==> c.reach > 0)
  }

  lemma PoolsFor(cs: seq<Candidate>)
    ensures PoolFor(Wanted(cs), cs, ForDemand) && PoolFor(Exploration(cs), cs, ForExploration)
  {
    PoolMembers(cs);
  }

  lemma PassDraws(terms: Terms, cs: seq<Candidate>, p: Picked, pool: seq<Candidate>, limit: int, reason: Reason)
    requires Drawn(terms, cs, p)
    requires PoolFor(pool, cs, reason)
    ensures Drawn(terms, cs, Pass(terms, p, pool, limit, reason))
  {
    var q := Pass(terms, p, pool, limit, reason);
    PassKeeps(terms, p, pool, limit, reason);
    PassContinues(terms, p, pool, limit, reason);
    ContinuesMatching(p, q, pool, limit, reason);
    forall c | c in q.selected ensures c in cs {
      assert c in p.selected || Added(p, q, pool, reason, c);
    }
  }

  lemma ReservedDraws(terms: Terms, cs: seq<Candidate>, reserved: nat)
    ensures Drawn(terms, cs, PickReserved(terms, cs, reserved))
  {
    PoolsFor(cs);
    assert Kept(terms, NothingPicked);
    PassDraws(terms, cs, NothingPicked, Exploration(cs), reserved, ForExploration);
  }

  lemma DemandPassDraws(terms: Terms, cs: seq<Candidate>, p: Picked)
    requires Drawn(terms, cs, p)
    ensures Drawn(terms, cs, Pass(terms, p, Wanted(cs), terms.most - |p.selected|, ForDemand))
  {
    PoolsFor(cs);
    PassDraws(terms, cs, p, Wanted(cs), terms.most - |p.selected|, ForDemand);
  }

  lemma ExplorationPassDraws(terms: Terms, cs: seq<Candidate>, p: Picked)
    requires Drawn(terms, cs, p)
    ensures Drawn(terms, cs, Pass(terms, p, Exploration(cs), terms.most - |p.selected|, ForExploration))
  {
    PoolsFor(cs);
    PassDraws(terms, cs, p, Exploration(cs), terms.most - |p.selected|, ForExploration);
  }

  lemma DemandDraws(terms: Terms, cs: seq<Candidate>, reserved: nat)
    ensures Drawn(terms, cs, PickDemand(terms, cs, reserved))
  {
    var p, q := PickReserved(terms, cs, reserved), PickDemand(terms, cs, reserved);
    assert q == Pass(terms, p, Wanted(cs), terms.most - |p.selected|, ForDemand);
    ReservedDraws(terms, cs, reserved);
    DemandPassDraws(terms, cs, p);
  }

  lemma PlanDraws(terms: Terms, cs: seq<Candidate>, policy: Policy, reserved: nat)
    ensures Drawn(terms, cs, PickAll(terms, cs, policy, reserved))
  {
    var p, q := PickDemand(terms, cs, reserved), PickAll(terms, cs, policy, reserved);
    assert q == p || q == Pass(terms, p, Exploration(cs), terms.most - |p.selected|, ForExploration);
    DemandDraws(terms, cs, reserved);
    if q != p {
      ExplorationPassDraws(terms, cs, p);
    }
  }

  lemma ReservedContinues(terms: Terms, cs: seq<Candidate>, reserved: nat)
    ensures Continues(NothingPicked, PickReserved(terms, cs, reserved), Exploration(cs), reserved, ForExploration)
  {
    PassContinues(terms, NothingPicked, Exploration(cs), reserved, ForExploration);
  }

  lemma DemandContinues(terms: Terms, cs: seq<Candidate>, reserved: nat)
    ensures var p, q := PickReserved(terms, cs, reserved), PickDemand(terms, cs, reserved);
            Continues(p, q, Wanted(cs), terms.most - |p.selected|, ForDemand)
  {
    var p := PickReserved(terms, cs, reserved);
    PassContinues(terms, p, Wanted(cs), terms.most - |p.selected|, ForDemand);
  }

  lemma PlanContinues(terms: Terms, cs: seq<Candidate>, policy: Policy, reserved: nat)
    ensures var p, q := PickDemand(terms, cs, reserved), PickAll(terms, cs, policy, reserved);
            Continues(p, q, Exploration(cs), terms.most - |p.selected|, ForExploration)
  {
    var p := PickDemand(terms, cs, reserved);
    PassContinues(terms, p, Exploration(cs), terms.most - |p.selected|, ForExploration);
  }

  lemma UniqueCounts(cs: seq<Candidate>, c: Candidate)
    requires UniqueIds(cs)
    ensures multiset(cs)[c] == if c in cs then 1 else 0
  {
    if c in cs {
      var k :| 0 <= k < |cs| && cs[k] == c;
      assert cs == cs[..k] + [c] + cs[k + 1..];
      assert c !in cs[..k] && c !in cs[k + 1..];
    }
  }

  lemma PickedIffReason(terms: Terms, cs: seq<Candidate>, p: Picked, c: Candidate)
    requires UniqueIds(cs) && Drawn(terms, cs, p) && c in cs
    ensures c in p.selected <==> Id(c) in p.reasons
  {
    if Id(c) in p.reasons {
      assert Chosen(p, Id(c));
      var d :| d in p.selected && Id(d) == Id(c);
      assert d == c;
    }
  }

  lemma PartitionAt(terms: Terms, cs: seq<Candidate>, p: Picked, c: Candidate)
    requires UniqueIds(cs) && Drawn(terms, cs, p)
    ensures (multiset(p.selected) + multiset(Only(cs, Unpicked(p))))[c] == multiset(cs)[c]
  {
    OnlyMembers(cs, Unpicked(p));
    UniqueCounts(cs, c);
    UniqueCounts(p.selected, c);
    var left := multiset(Only(cs, Unpicked(p)));
    assert c in left <==> c in Only(cs, Unpicked(p));
    assert left[c] <= multiset(cs)[c];
    if c in cs {
      PickedIffReason(terms, cs, p, c);
    }
  }

  /** Every candidate is either selected or deferred, exactly once. */
  lemma PlanPartitions(terms: Terms, cs: seq<Candidate>, policy: Policy, reserved: nat)
    requires UniqueIds(cs)
    ensures var p := PickAll(terms, cs, policy, reserved);
            multiset(Sort(p.selected, SelectedKey(p.reasons))) + multiset(Deferred(p, cs)) == multiset(cs)
  {
    var p := PickAll(terms, cs, policy, reserved);
    PlanDraws(terms, cs, policy, reserved);
    SortSorts(p.selected, SelectedKey(p.reasons));
    SortSorts(Only(cs, Unpicked(p)), DemandKey);
    forall c ensures (multiset(p.selected) + multiset(Only(cs, Unpicked(p))))[c] == multiset(cs)[c] {
      PartitionAt(terms, cs, p, c);
    }
    assert multiset(p.selected) + multiset(Only(cs, Unpicked(p))) == multiset(cs);
  }

  ghost function Explored(p: Picked): set<string> {
    set id | id in p.reasons && p.reasons[id] == ForExploration
  }

  ghost predicate NoneAfter(p: Picked, reason: Reason, key: Candidate -> Key, c: Candidate) {
    forall d :: d in p.selected && Id(d) in p.reasons && p.reasons[Id(d)] == reason ==> key(d).AtMost(key(c))
  }

  /** `c` was deferred although the plan's allowance still had room for it. */
  ghost predicate OutOfCapacity(terms: Terms, cs: seq<Candidate>, p: Picked, c: Candidate) {
    c in cs && Id(c) !in p.reasons && ReasonDeferred(terms, p, c) == Capacity
  }

  lemma CapacityMeansAffordable(terms: Terms, p: Picked, c: Candidate)
    requires Kept(terms, p)
    ensures ReasonDeferred(terms, p, c) == Capacity <==> Affordable(terms, p.used, c)
  {}

  ghost predicate CouldTake(terms: Terms, p: Picked, c: Candidate) {
    Id(c) !in p.reasons && Affordable(terms, p.used, c)
  }

  lemma CouldTakeBefore(terms: Terms, p: Picked, q: Picked, pool: seq<Candidate>, limit: int, reason: Reason, c: Candidate)
    requires Continues(p, q, pool, limit, reason) && CouldTake(terms, q, c)
    ensures CouldTake(terms, p, c)
  {}

  /** What is out of capacity at the end could have been taken in every pass. */
  lemma CouldHaveTaken(terms: Terms, cs: seq<Candidate>, policy: Policy, reserved: nat, c: Candidate)
    requires OutOfCapacity(terms, cs, PickAll(terms, cs, policy, reserved), c)
    ensures CouldTake(terms, PickReserved(terms, cs, reserved), c)
    ensures CouldTake(terms, PickDemand(terms, cs, reserved), c)
    ensures CouldTake(terms, PickAll(terms, cs, policy, reserved), c)
  {
    var p1, p2, p3 := PickReserved(terms, cs, reserved), PickDemand(terms, cs, reserved), PickAll(terms, cs, policy, reserved);
    PlanDraws(terms, cs, policy, reserved);
    CapacityMeansAffordable(terms, p3, c);
    PlanContinues(terms, cs, policy, reserved);
    CouldTakeBefore(terms, p2, p3, Exploration(cs), terms.most - |p2.selected|, ForExploration, c);
    DemandContinues(terms, cs, reserved);
    CouldTakeBefore(terms, p1, p2, Wanted(cs), terms.most - |p1.selected|, ForDemand, c);
  }

  /** A plan that filled up stays full. */
  lemma StaysFull(terms: Terms, cs: seq<Candidate>, policy: Policy, reserved: nat)
    requires |PickDemand(terms, cs, reserved).selected| >= terms.most
    ensures |PickAll(terms, cs, policy, reserved).selected| == terms.most
  {
    PlanDraws(terms, cs, policy, reserved);
    PlanContinues(terms, cs, policy, reserved);
  }

  lemma DemandOrderKept(p1: Picked, p2: Picked, p3: Picked, exploration: seq<Candidate>, limit: int, c: Candidate)
    requires Continues(p2, p3, exploration, limit, ForExploration) && AddedBefore(p1, p2, DemandKey, c)
    requires ReasonsMatch(p3) && forall d :: d in p1.selected ==> d.reach == 0
    ensures NoneAfter(p3, ForDemand, DemandKey, c)
  {
    forall d | d in p3.selected && Id(d) in p3.reasons && p3.reasons[Id(d)] == ForDemand
      ensures DemandKey(d).AtMost(DemandKey(c))
    {
      assert d in p2.selected || Added(p2, p3, exploration, ForExploration, d);
    }
  }

  lemma ExplorationOrderKept(p1: Picked, p2: Picked, p3: Picked, wanted: seq<Candidate>, limit: int, c: Candidate)
    requires Continues(p1, p2, wanted, limit, ForDemand) && AddedBefore(NothingPicked, p1, ExplorationKey, c)
    requires p2 == p3 || AddedBefore(p2, p3, ExplorationKey, c)
    requires ReasonsMatch(p3) && forall d :: d in wanted ==> d.reach > 0
    ensures NoneAfter(p3, ForExploration, ExplorationKey, c)
  {
    forall d | d in p3.selected && Id(d) in p3.reasons && p3.reasons[Id(d)] == ForExploration
      ensures ExplorationKey(d).AtMost(ExplorationKey(c))
    {
      assert d in p2.selected && d !in p1.selected ==> Added(p1, p2, wanted, ForDemand, d);
    }
  }

  /** What was picked for demand before the demand pass: nothing. */
  lemma ReservedIsExploration(terms: Terms, cs: seq<Candidate>, reserved: nat)
    ensures forall d :: d in PickReserved(terms, cs, reserved).selected ==> d.reach == 0
    ensures var p := PickReserved(terms, cs, reserved); Explored(p) == p.reasons.Keys
  {
    var p := PickReserved(terms, cs, reserved);
    ReservedDraws(terms, cs, reserved);
    ReservedContinues(terms, cs, reserved);
    forall id | id in p.reasons ensures p.reasons[id] == ForExploration {
      assert Chosen(p, id);
      var c :| c in p.selected && Id(c) == id;
      assert Added(NothingPicked, p, Exploration(cs), ForExploration, c);
    }
    forall d | d in p.selected ensures d.reach == 0 {
      assert Chosen(p, Id(d));
    }
  }

  lemma DemandPassIsGreedy(terms: Terms, cs: seq<Candidate>, reserved: nat, c: Candidate)
    requires CouldTake(terms, PickDemand(terms, cs, reserved), c) && c in cs && c.reach > 0
    ensures |PickDemand(terms, cs, reserved).selected| >= terms.most
    ensures AddedBefore(PickReserved(terms, cs, reserved), PickDemand(terms, cs, reserved), DemandKey, c)
  {
    PoolMembers(cs);
    var p := PickReserved(terms, cs, reserved);
    PassIsGreedy(terms, p, Wanted(cs), terms.most - |p.selected|, ForDemand, DemandKey, c);
  }

  /** A wanted subject deferred for capacity: the plan is full, and no demand pick comes after it in demand order. */
  lemma DemandIsGreedy(terms: Terms, cs: seq<Candidate>, policy: Policy, reserved: nat, c: Candidate)
    requires OutOfCapacity(terms, cs, PickAll(terms, cs, policy, reserved), c) && c.reach > 0
    ensures |PickAll(terms, cs, policy, reserved).selected| == terms.most
    ensures NoneAfter(PickAll(terms, cs, policy, reserved), ForDemand, DemandKey, c)
  {
    CouldHaveTaken(terms, cs, policy, reserved, c);
    DemandPassIsGreedy(terms, cs, reserved, c);
    StaysFull(terms, cs, policy, reserved);
    PlanDraws(terms, cs, policy, reserved);
    PlanContinues(terms, cs, policy, reserved);
    ReservedIsExploration(terms, cs, reserved);
    var p1, p2, p3 := PickReserved(terms, cs, reserved), PickDemand(terms, cs, reserved), PickAll(terms, cs, policy, reserved);
    DemandOrderKept(p1, p2, p3, Exploration(cs), terms.most - |p2.selected|, c);
  }

  lemma ReservedPassIsGreedy(terms: Terms, cs: seq<Candidate>, reserved: nat, c: Candidate)
    requires CouldTake(terms, PickReserved(terms, cs, reserved), c) && c in cs && c.reach == 0 && reserved <= terms.most
    ensures |PickReserved(terms, cs, reserved).selected| >= reserved
    ensures AddedBefore(NothingPicked, PickReserved(terms, cs, reserved), ExplorationKey, c)
  {
    PoolMembers(cs);
    PassIsGreedy(terms, NothingPicked, Exploration(cs), reserved, ForExploration, ExplorationKey, c);
  }

  lemma LastPassIsGreedy(terms: Terms, cs: seq<Candidate>, policy: Policy, reserved: nat, c: Candidate)
    requires CouldTake(terms, PickAll(terms, cs, policy, reserved), c) && c in cs && c.reach == 0
    requires policy.explorationFraction > 0.0
    ensures |PickAll(terms, cs, policy, reserved).selected| >= terms.most
    ensures AddedBefore(PickDemand(terms, cs, reserved), PickAll(terms, cs, policy, reserved), ExplorationKey, c)
  {
    PoolMembers(cs);
    var p := PickDemand(terms, cs, reserved);
    PassIsGreedy(terms, p, Exploration(cs), terms.most - |p.selected|, ForExploration, ExplorationKey, c);
  }

  lemma ReservedAreExplored(terms: Terms, cs: seq<Candidate>, policy: Policy, reserved: nat)
    ensures |PickReserved(terms, cs, reserved).selected| <= |Explored(PickAll(terms, cs, policy, reserved))|
  {
    var p1, p2, p3 := PickReserved(terms, cs, reserved), PickDemand(terms, cs, reserved), PickAll(terms, cs, policy, reserved);
    ReservedIsExploration(terms, cs, reserved);
    ReservedDraws(terms, cs, reserved);
    DemandContinues(terms, cs, reserved);
    PlanContinues(terms, cs, policy, reserved);
    assert |p1.reasons.Keys| == |p1.reasons|;
    ExploredGrows(p1, p2, Wanted(cs), terms.most - |p1.selected|, ForDemand);
    ExploredGrows(p2, p3, Exploration(cs), terms.most - |p2.selected|, ForExploration);
  }

  lemma ExploredGrows(p: Picked, q: Picked, pool: seq<Candidate>, limit: int, reason: Reason)
    requires Continues(p, q, pool, limit, reason)
    ensures |Explored(p)| <= |Explored(q)|
  {
    SubsetSize(Explored(p), Explored(q));
  }

  /**
   An exploration subject deferred for capacity: exploration got its reserved slots, none of them went to a
   later subject in exploration order, and with a positive fraction the plan is full.
   */
  lemma ExplorationIsGreedy(terms: Terms, cs: seq<Candidate>, policy: Policy, reserved: nat, c: Candidate)
    requires OutOfCapacity(terms, cs, PickAll(terms, cs, policy, reserved), c) && c.reach == 0 && reserved <= terms.most
    ensures reserved <= |Explored(PickAll(terms, cs, policy, reserved))|
    ensures policy.explorationFraction > 0.0 ==> |PickAll(terms, cs, policy, reserved).selected| == terms.most
    ensures NoneAfter(PickAll(terms, cs, policy, reserved), ForExploration, ExplorationKey, c)
  {
    CouldHaveTaken(terms, cs, policy, reserved, c);
    ReservedPassIsGreedy(terms, cs, reserved, c);
    ReservedAreExplored(terms, cs, policy, reserved);
    if policy.explorationFraction > 0.0 {
      LastPassIsGreedy(terms, cs, policy, reserved, c);
    }
    DemandContinues(terms, cs, reserved);
    PlanDraws(terms, cs, policy, reserved);
    PoolMembers(cs);
    var p1, p2, p3 := PickReserved(terms, cs, reserved), PickDemand(terms, cs, reserved), PickAll(terms, cs, policy, reserved);
    ExplorationOrderKept(p1, p2, p3, Wanted(cs), terms.most - |p1.selected|, c);
  }

  /** With a positive fraction, "capacity" is reported exactly for what fits the allowance of a full plan. */
  lemma CapacityMeansFull(terms: Terms, cs: seq<Candidate>, policy: Policy, reserved: nat, c: Candidate)
    requires reserved <= terms.most && c in cs && Id(c) !in PickAll(terms, cs, policy, reserved).reasons
    requires policy.explorationFraction > 0.0 || c.reach > 0
    ensures var p := PickAll(terms, cs, policy, reserved);
            ReasonDeferred(terms, p, c) == Capacity <==> |p.selected| == terms.most && Affordable(terms, p.used, c)
  {
    var p := PickAll(terms, cs, policy, reserved);
    PlanDraws(terms, cs, policy, reserved);
    CapacityMeansAffordable(terms, p, c);
    if ReasonDeferred(terms, p, c) == Capacity {
      if c.reach > 0 {
        DemandIsGreedy(terms, cs, policy, reserved, c);
      } else {
        ExplorationIsGreedy(terms, cs, policy, reserved, c);
      }
    }
  }

  /** Without exploration an unwanted subject is reported as out of capacity even when nothing was selected. */
  lemma CapacityWithoutExploration(terms: Terms, policy: Policy, c: Candidate)
    requires policy.explorationFraction == 0.0 && c.reach == 0 && Affordable(terms, Cost(0, 0), c)
    ensures PickAll(terms, [c], policy, 0).selected == []
    ensures OutOfCapacity(terms, [c], PickAll(terms, [c], policy, 0), c)
  {
    assert [c][1..] == [];
    assert Only([c], IsWanted) == [];
    assert Wanted([c]) == [];
  }

  /** The reserved slots round the exact fraction: with a draw below one they are the exact fraction less the draw, rounded up. */
  lemma ReservedSlotsRound(policy: Policy, exploration: nat, draw: real)
    requires 0.0 <= policy.explorationFraction <= 0.5 && 0.0 <= draw
    ensures var reserved := ReservedSlots(policy, exploration, draw);
            && reserved <= policy.maxSubjectsPerApp as int
            && (policy.explorationFraction == 0.0 || exploration == 0 ==> reserved == 0)
            && (exploration > 0 ==> RoundedBy(ExactSlots(policy), draw, reserved))
  {
    var exact := ExactSlots(policy);
    RoundsBelow(policy.maxSubjectsPerApp, policy.explorationFraction, exact);
    if exploration > 0 {
      ReservedByDraw(policy, exploration, draw, exact);
      RoundsByDraw(exact, draw);
      assert policy.explorationFraction == 0.0 ==> exact == 0.0;
    }
  }

  ghost function ExactSlots(policy: Policy): real {
    policy.maxSubjectsPerApp as real * policy.explorationFraction
  }

  lemma ReservedByDraw(policy: Policy, exploration: nat, draw: real, exact: real)
    requires 0.0 <= policy.explorationFraction && exact == ExactSlots(policy) && 0 < exploration
    ensures ReservedSlots(policy, exploration, draw) == exact.Floor + if draw < exact - exact.Floor as real then 1 else 0
  {}

  /** A neighbour of the exact number; for a draw below one, the exact number less the draw, rounded up. */
  ghost predicate RoundedBy(exact: real, draw: real, rounded: int) {
    && -1.0 < rounded as real - exact < 1.0
    && (draw < 1.0 ==> exact - draw <= rounded as real < exact - draw + 1.0)
  }

  lemma RoundsByDraw(exact: real, draw: real)
    requires 0.0 <= exact && 0.0 <= draw
    ensures RoundedBy(exact, draw, exact.Floor + if draw < exact - exact.Floor as real then 1 else 0)
  {
    if draw < exact - exact.Floor as real {
      assert (exact.Floor + 1) as real == exact.Floor as real + 1.0;
    }
  }

  lemma RoundsBelow(most: Positive, fraction: real, exact: real)
    requires 0.0 <= fraction <= 0.5 && exact == most as real * fraction
    ensures 0.0 <= exact && exact.Floor + 1 <= most
  {
    assert 0.0 <= most as real * (0.5 - fraction);
    assert exact <= most as real / 2.0;
    if most > 1 {
      assert most as real / 2.0 <= most as real - 1.0;
    }
  }
}
