/**
 The lease on a shared affiliate account: sessions on any number of hosts compete for one row, keep it alive, pace
 their calls through it and write under its guard. The clock never goes back; every read of it is a parameter.
 */
module SharelinkLease {
  import opened Prelude

  type Owner = string
  type Time = int

  const LeaseMs := 60_000
  const PaceMs := 300

  datatype Account = Account(leaseOwner: Option<Owner>, leaseUntil: Time, nextCall: Time, blockedUntil: Time)

  /** A session's own memory: whether its keepalive failed, and the calls it is asleep for, by wake-up time. */
  datatype Session = Session(lost: bool, sleeping: seq<Time>)

  datatype Call = Call(owner: Owner, at: Time)

  datatype World = World(account: Account, sessions: map<Owner, Session>, calls: seq<Call>, clock: Time)

  const Fresh := World(Account(None, 0, 0, 0), map[], [], 0)

  // ----- what single statements do to the row -----

  predicate Free(account: Account, now: Time) {
    account.leaseUntil <= now
  }

  /** The guard that every write repeats inside its transaction. */
  predicate Guarded(account: Account, owner: Owner, lost: bool, now: Time) {
    !lost && account.leaseOwner == Some(owner) && account.leaseUntil > now
  }

  function Leased(account: Account, owner: Owner, now: Time): Account {
    account.(leaseOwner := Some(owner), leaseUntil := now + LeaseMs)
  }

  predicate Renewable(account: Account, owner: Owner, now: Time) {
    account.leaseOwner == Some(owner) && account.leaseUntil > now
  }

  function Released(account: Account, owner: Owner): Account {
    if account.leaseOwner == Some(owner) then account.(leaseOwner := None, leaseUntil := 0) else account
  }

  function Blocked(account: Account, until: Time): Account {
    account.(blockedUntil := Max(account.blockedUntil, until))
  }

  // ----- the transition system -----

  /** Where the code reads the clock twice, the earlier reading is `early`. */
  datatype Action =
    | Acquire(owner: Owner, early: Time, now: Time)
    | KeepAlive(owner: Owner, early: Time, now: Time)
    | PaceStart(owner: Owner, early: Time, now: Time)
    | PaceCommit(owner: Owner, index: nat, early: Time, now: Time)
    | Block(owner: Owner, until: Time, now: Time)
    | Release(owner: Owner, now: Time)

  predicate Passes(w: World, owner: Owner, now: Time) {
    owner in w.sessions && Guarded(w.account, owner, w.sessions[owner].lost, now)
  }

  predicate Enabled(w: World, a: Action) {
    && w.clock <= a.now
    && (a.Acquire? || a.KeepAlive? || a.PaceStart? || a.PaceCommit? ==> w.clock <= a.early <= a.now)
    && match a
       case Acquire(owner, early, now) => owner !in w.sessions && Free(w.account, now)
       case KeepAlive(owner, early, now) => owner in w.sessions
       case PaceStart(owner, early, now) => Passes(w, owner, early) && w.account.blockedUntil <= now
       case PaceCommit(owner, index, early, now) =>
         owner in w.sessions && index < |w.sessions[owner].sleeping| && w.sessions[owner].sleeping[index] <= early
       case Block(owner, until, now) => owner in w.sessions
       case Release(owner, now) => owner in w.sessions
  }

  function Awake(sleeping: seq<Time>, index: nat): seq<Time>
    requires index < |sleeping|
  {
    sleeping[..index] + sleeping[index + 1..]
  }

  function Apply(w: World, a: Action): World
    requires Enabled(w, a)
  {
    match a
    case Acquire(owner, early, now) =>
      w.(account := Leased(w.account, owner, early), sessions := w.sessions[owner := Session(false, [])], clock := now)
    case KeepAlive(owner, early, now) =>
      if Renewable(w.account, owner, now) then w.(account := Leased(w.account, owner, early), clock := now)
      else w.(sessions := w.sessions[owner := w.sessions[owner].(lost := true)], clock := now)
    case PaceStart(owner, early, now) =>
      var s := w.sessions[owner];
      w.(sessions := w.sessions[owner := s.(sleeping := s.sleeping + [Max(now, w.account.nextCall)])], clock := now)
    case PaceCommit(owner, index, early, now) =>
      var s := w.sessions[owner];
      var up := w.(sessions := w.sessions[owner := s.(sleeping := Awake(s.sleeping, index))], clock := now);
      if Passes(w, owner, early)
      then up.(account := w.account.(nextCall := now + PaceMs), calls := w.calls + [Call(owner, now)])
      else up
    case Block(owner, until, now) =>
      if Passes(w, owner, now) then w.(account := Blocked(w.account, until), clock := now) else w.(clock := now)
    case Release(owner, now) =>
      w.(account := Released(w.account, owner), clock := now)
  }

  ghost predicate Step(w: World, a: Action, v: World) {
    Enabled(w, a) && v == Apply(w, a)
  }

  ghost predicate Execution(worlds: seq<World>, actions: seq<Action>) {
    && |worlds| == |actions| + 1
    && worlds[0] == Fresh
    && (forall i :: 0 <= i < |actions| ==> Step(worlds[i], actions[i], worlds[i + 1]))
  }

  /** Each owner waits for one paced call before it starts the next. */
  ghost predicate Sequential(worlds: seq<World>, actions: seq<Action>)
    requires Execution(worlds, actions)
  {
    forall i :: 0 <= i < |actions| ==> StartsAlone(worlds[i], actions[i])
  }

  ghost predicate StartsAlone(w: World, a: Action) {
    a.PaceStart? && a.owner in w.sessions ==> w.sessions[a.owner].sleeping == []
  }

  // ----- exclusion -----

  lemma OnePasses(w: World, a: Owner, b: Owner, now: Time)
    requires Passes(w, a, now) && Passes(w, b, now)
    ensures a == b
  {}

  /** The account row changes only in the hands of the session whose lease is running, or by taking a lapsed lease. */
  lemma OnlyTheHolderWrites(w: World, a: Action, v: World)
    requires Step(w, a, v) && v.account != w.account
    ensures a.Acquire? ==> Free(w.account, a.now)
    ensures !a.Acquire? ==> w.account.leaseOwner == Some(a.owner)
    ensures a.KeepAlive? || a.PaceCommit? || a.Block? ==> w.account.leaseUntil > w.clock
  {}

  /** An owner out of the lease, by expiry or by takeover. */
  predicate Out(w: World, owner: Owner) {
    owner in w.sessions && (w.account.leaseOwner != Some(owner) || w.account.leaseUntil <= w.clock)
  }

  lemma OutInOneStep(w: World, a: Action, v: World, owner: Owner)
    requires Step(w, a, v) && Out(w, owner)
    ensures Out(v, owner)
    ensures a.owner == owner ==> v.account == w.account || (a.Release? && w.account.leaseOwner == Some(owner))
    ensures a.owner == owner ==> v.calls == w.calls
  {}

  /**
   Once an owner is out it never passes the guard again, none of its later writes commits, and its cleanup
   cannot release a lease that someone else has taken.
   */
  lemma {:induction false} OutForever(worlds: seq<World>, actions: seq<Action>, i: nat, j: nat, owner: Owner)
    requires Execution(worlds, actions) && i <= j < |worlds| && Out(worlds[i], owner)
    ensures Out(worlds[j], owner)
    ensures forall now :: worlds[j].clock <= now ==> !Passes(worlds[j], owner, now)
    ensures j < |actions| && actions[j].owner == owner ==> worlds[j + 1].calls == worlds[j].calls
    ensures j < |actions| && actions[j].owner == owner && worlds[j + 1].account != worlds[j].account ==>
              actions[j].Release? && worlds[j].account.leaseOwner == Some(owner)
    decreases j - i
  {
    if i < j {
      OutForever(worlds, actions, i, j - 1, owner);
      OutInOneStep(worlds[j - 1], actions[j - 1], worlds[j], owner);
    }
    if j < |actions| && actions[j].owner == owner {
      OutInOneStep(worlds[j], actions[j], worlds[j + 1], owner);
    }
  }

  /** A lease never outlives its last renewal by more than a minute: a dead session frees the account by itself. */
  lemma {:induction false} LeaseIsShort(worlds: seq<World>, actions: seq<Action>, i: nat)
    requires Execution(worlds, actions) && i < |worlds|
    ensures 0 <= worlds[i].clock && worlds[i].account.leaseUntil <= worlds[i].clock + LeaseMs
  {
    if i > 0 {
      LeaseIsShort(worlds, actions, i - 1);
      assert Step(worlds[i - 1], actions[i - 1], worlds[i]);
    }
  }

  /** The session holds the account at least until `until`, and knows it. */
  predicate Holds(w: World, owner: Owner, until: Time) {
    && w.account.leaseOwner == Some(owner) && until <= w.account.leaseUntil
    && owner in w.sessions && !w.sessions[owner].lost
  }

  /** Taking or extending the lease gives its session a minute from its own reading of the clock. */
  lemma LeaseGivesAMinute(w: World, a: Action, v: World)
    requires Step(w, a, v)
    ensures a.Acquire? ==> Holds(v, a.owner, a.early + 60_000)
    ensures a.KeepAlive? && Holds(w, a.owner, a.now + 1) ==> Holds(v, a.owner, a.early + 60_000)
  {}

  /** Within its lease a session keeps the account and passes the guard, whatever others do, unless it releases it itself. */
  lemma {:induction false} LeaseHolds(worlds: seq<World>, actions: seq<Action>, i: nat, j: nat, owner: Owner, until: Time)
    requires Execution(worlds, actions) && i <= j < |worlds|
    requires Holds(worlds[i], owner, until) && worlds[j].clock < until
    requires forall k :: i <= k < j && actions[k].owner == owner ==> !actions[k].Release?
    ensures Holds(worlds[j], owner, until)
    ensures forall now :: worlds[j].clock <= now < until ==> Passes(worlds[j], owner, now)
    decreases j - i
  {
    if i < j {
      assert Step(worlds[j - 1], actions[j - 1], worlds[j]);
      LeaseHolds(worlds, actions, i, j - 1, owner, until);
      LeaseIsShort(worlds, actions, j - 1);
    }
  }

  lemma {:induction false} BlockOnlyGrows(worlds: seq<World>, actions: seq<Action>, i: nat, j: nat)
    requires Execution(worlds, actions) && i <= j < |worlds|
    ensures worlds[i].account.blockedUntil <= worlds[j].account.blockedUntil
    decreases j - i
  {
    if i < j {
      BlockOnlyGrows(worlds, actions, i, j - 1);
      assert Step(worlds[j - 1], actions[j - 1], worlds[j]);
    }
  }

  /** Once a cooldown is committed, no owner starts a call before it ends. */
  lemma CooldownHolds(worlds: seq<World>, actions: seq<Action>, i: nat, j: nat)
    requires Execution(worlds, actions) && i < j < |actions|
    requires actions[i].Block? && Passes(worlds[i], actions[i].owner, actions[i].now) && actions[j].PaceStart?
    ensures actions[i].until <= actions[j].now
  {
    assert Step(worlds[i], actions[i], worlds[i + 1]) && Step(worlds[j], actions[j], worlds[j + 1]);
    BlockOnlyGrows(worlds, actions, i + 1, j);
  }

  /** The holder's release frees the account at once, and anyone else's leaves it as it is. */
  lemma ReleaseFrees(worlds: seq<World>, actions: seq<Action>, i: nat)
    requires Execution(worlds, actions) && i < |actions| && actions[i].Release?
    ensures if worlds[i].account.leaseOwner == Some(actions[i].owner)
            then worlds[i + 1].account.leaseOwner.None? && worlds[i + 1].account.leaseUntil <= worlds[i].clock
            else worlds[i + 1].account == worlds[i].account
  {
    assert Step(worlds[i], actions[i], worlds[i + 1]);
    LeaseIsShort(worlds, actions, i);
  }

  // ----- pacing -----

  ghost predicate Spaced(calls: seq<Call>) {
    forall i :: 0 <= i < |calls| - 1 ==> calls[i].at + PaceMs <= calls[i + 1].at
  }

  /** The lease holder sleeps until the row's next call, and that is one pace after the last call made by anyone. */
  ghost predicate Paced(w: World) {
    && Spaced(w.calls)
    && (w.calls != [] ==> w.account.nextCall == w.calls[|w.calls| - 1].at + PaceMs)
    && (forall o :: o in w.sessions && w.account.leaseOwner == Some(o) ==> WaitsItsTurn(w, o))
    && (forall o :: o in w.sessions ==> |w.sessions[o].sleeping| <= 1)
    && (w.account.leaseOwner.Some? ==> w.account.leaseOwner.value in w.sessions)
  }

  ghost predicate WaitsItsTurn(w: World, owner: Owner)
    requires owner in w.sessions
  {
    forall k :: 0 <= k < |w.sessions[owner].sleeping| ==> w.account.nextCall <= w.sessions[owner].sleeping[k]
  }

  lemma CommitKeepsPaced(w: World, a: Action, v: World)
    requires Paced(w) && Step(w, a, v) && a.PaceCommit?
    ensures Paced(v)
  {
    assert Awake(w.sessions[a.owner].sleeping, a.index) == [];
    if Passes(w, a.owner, a.early) {
      assert WaitsItsTurn(w, a.owner);
      SpacedAppend(w.calls, Call(a.owner, a.now));
    }
  }

  lemma SpacedAppend(calls: seq<Call>, call: Call)
    requires Spaced(calls) && (calls != [] ==> calls[|calls| - 1].at + PaceMs <= call.at)
    ensures Spaced(calls + [call])
  {}

  lemma StepKeepsPaced(w: World, a: Action, v: World)
    requires Paced(w) && Step(w, a, v) && StartsAlone(w, a)
    ensures Paced(v)
  {
    if a.PaceCommit? {
      CommitKeepsPaced(w, a, v);
    } else {
      forall o | o in v.sessions && v.account.leaseOwner == Some(o) ensures WaitsItsTurn(v, o) {
        assert o in w.sessions && w.account.leaseOwner == Some(o) ==> WaitsItsTurn(w, o);
      }
    }
  }

  /** Across all owners, hosts and takeovers, calls under the account are at least one pace apart. */
  lemma {:induction false} CallsAreSpaced(worlds: seq<World>, actions: seq<Action>, i: nat)
    requires Execution(worlds, actions) && Sequential(worlds, actions) && i < |worlds|
    ensures Paced(worlds[i]) && Spaced(worlds[i].calls)
  {
    if i > 0 {
      CallsAreSpaced(worlds, actions, i - 1);
      assert StartsAlone(worlds[i - 1], actions[i - 1]);
      StepKeepsPaced(worlds[i - 1], actions[i - 1], worlds[i]);
    }
  }

  // The same guarantee needs each owner to be sequential: two paces started together commit together.

  const Both := Session(false, [1, 1])
  const Held := Account(Some("a"), 60_001, 0, 0)
  const OverlapWorlds := [
    Fresh,
    World(Held, map["a" := Session(false, [])], [], 1),
    World(Held, map["a" := Session(false, [1])], [], 1),
    World(Held, map["a" := Both], [], 1),
    World(Held.(nextCall := 301), map["a" := Session(false, [1])], [Call("a", 1)], 1),
    World(Held.(nextCall := 301), map["a" := Session(false, [])], [Call("a", 1), Call("a", 1)], 1)]
  const OverlapActions := [
    Acquire("a", 1, 1), PaceStart("a", 1, 1), PaceStart("a", 1, 1), PaceCommit("a", 0, 1, 1), PaceCommit("a", 0, 1, 1)]

  lemma OverlappingPacesStart()
    ensures forall i :: 0 <= i < 3 ==> Step(OverlapWorlds[i], OverlapActions[i], OverlapWorlds[i + 1])
  {
    assert [] + [1] == [1] && [1] + [1] == [1, 1];
    assert Step(OverlapWorlds[0], OverlapActions[0], OverlapWorlds[1]);
    assert Step(OverlapWorlds[1], OverlapActions[1], OverlapWorlds[2]);
    assert Step(OverlapWorlds[2], OverlapActions[2], OverlapWorlds[3]);
  }

  lemma OverlappingPacesCommit()
    ensures forall i :: 3 <= i < 5 ==> Step(OverlapWorlds[i], OverlapActions[i], OverlapWorlds[i + 1])
  {
    assert Awake([1, 1], 0) == [1] && Awake([1], 0) == [];
    assert Step(OverlapWorlds[3], OverlapActions[3], OverlapWorlds[4]);
    assert Step(OverlapWorlds[4], OverlapActions[4], OverlapWorlds[5]);
  }

  lemma OverlappingPacesAreNotSpaced()
    ensures Execution(OverlapWorlds, OverlapActions) && !Spaced(OverlapWorlds[5].calls)
  {
    OverlappingPacesStart();
    OverlappingPacesCommit();
    var calls := OverlapWorlds[5].calls;
    assert calls[0].at + PaceMs > calls[0 + 1].at;
  }
}
