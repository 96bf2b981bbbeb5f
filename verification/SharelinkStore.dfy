/** The domain store of the affiliate account: one object per session over the tables all sessions share. */
module SharelinkStore {
  import opened Prelude
  import opened SharelinkLease
  import Budget = SharelinkBudget

  datatype Failure =
    | LeaseRequired
    | LeaseLost
    | AccountBusy
    | UnknownAccount
    | AccountCooldown
    | LocalDailyBudget
    | AppRevisionConflict

  /** An app's configuration; its fingerprint is an injective digest, so the configuration stands for it. */
  datatype App = App(appId: string, accountId: string, revision: Positive, settings: string, subjects: seq<string>)

  datatype AppRow = AppRow(accountId: string, revision: Positive, fingerprint: App)

  datatype ResultKey = ResultKey(appId: string, subjectId: string)

  // ----- app bindings -----

  predicate Binds(apps: map<string, AppRow>, app: App) {
    app.appId in apps ==>
      var row := apps[app.appId];
      && row.accountId == app.accountId
      && row.revision <= app.revision
      && (row.revision == app.revision ==> row.fingerprint == app)
  }

  function Bound(apps: map<string, AppRow>, app: App): map<string, AppRow> {
    apps[app.appId := AppRow(app.accountId, app.revision, app)]
  }

  function KeptResults<V>(results: map<ResultKey, V>, app: App): map<ResultKey, V> {
    map k | k in results && (k.appId == app.appId ==> k.subjectId in app.subjects) :: results[k]
  }

  /** The table after a series of attempts, each refused or taken as the store does. */
  function BindAll(attempts: seq<App>): map<string, AppRow> {
    if attempts == [] then map[]
    else
      var before, app := BindAll(attempts[..|attempts| - 1]), attempts[|attempts| - 1];
      if Binds(before, app) then Bound(before, app) else before
  }

  predicate Taken(attempts: seq<App>, i: nat)
    requires i < |attempts|
  {
    Binds(BindAll(attempts[..i]), attempts[i])
  }

  lemma {:induction false} LatestTaken(attempts: seq<App>, i: nat)
    requires i < |attempts| && Taken(attempts, i)
    ensures var id, rows := attempts[i].appId, BindAll(attempts);
            && id in rows
            && rows[id].accountId == attempts[i].accountId
            && attempts[i].revision <= rows[id].revision
            && (attempts[i].revision == rows[id].revision ==> rows[id].fingerprint == attempts[i])
    decreases |attempts|
  {
    var front := attempts[..|attempts| - 1];
    if i == |attempts| - 1 {
      assert attempts[..i] == front;
    } else {
      assert front[..i] == attempts[..i];
      LatestTaken(front, i);
    }
  }

  /** An app never moves to another account, never goes back a revision, and one revision means one configuration. */
  lemma BindingHistory(attempts: seq<App>, i: nat, j: nat)
    requires i < j < |attempts| && Taken(attempts, i) && Taken(attempts, j)
    requires attempts[i].appId == attempts[j].appId
    ensures attempts[i].accountId == attempts[j].accountId && attempts[i].revision <= attempts[j].revision
    ensures attempts[i].revision == attempts[j].revision ==> attempts[i] == attempts[j]
  {
    assert attempts[..j][..i] == attempts[..i];
    LatestTaken(attempts[..j], i);
  }

  // ----- the store -----

  class Database {
    var accounts: map<string, Account>
    var budget: map<Budget.DayKey, Budget.BudgetRow>
    var apps: map<string, AppRow>
    var results: map<ResultKey, string>

    constructor ()
      ensures accounts == map[] && budget == map[] && apps == map[] && results == map[]
    {
      accounts, budget, apps, results := map[], map[], map[], map[];
    }
  }

  class SharelinkStore {
    const db: Database
    /** The lease guard in force: which account it watches, for whom, and whether its keepalive failed. */
    var leaseAccount: Option<string>
    var leaseOwner: Owner
    var lost: bool

    constructor (db: Database)
      ensures this.db == db && leaseAccount.None?
    {
      this.db, leaseAccount, leaseOwner, lost := db, None, "", false;
    }

    predicate GuardPasses(now: Time)
      reads this, db
    {
      && leaseAccount.Some?
      && leaseAccount.value in db.accounts
      && Guarded(db.accounts[leaseAccount.value], leaseOwner, lost, now)
    }

    /** What every mutation checks first inside its transaction. */
    function Mutation(now: Time): Result<(), Failure>
      reads this, db
    {
      if leaseAccount.None? then Err(LeaseRequired) else if GuardPasses(now) then Ok(()) else Err(LeaseLost)
    }

    method AcquireAccount(accountId: string, owner: Owner, early: Time, now: Time) returns (r: Result<(), Failure>)
      requires early <= now
      modifies this, db`accounts
      ensures r.Ok? <==> accountId in old(db.accounts) && Free(old(db.accounts)[accountId], now)
      ensures r.Err? ==> r == Err(AccountBusy) && db.accounts == old(db.accounts) && leaseAccount == old(leaseAccount)
      ensures r.Ok? ==> db.accounts == old(db.accounts)[accountId := Leased(old(db.accounts)[accountId], owner, early)]
      ensures r.Ok? ==> leaseAccount == Some(accountId) && leaseOwner == owner && !lost
      ensures r.Ok? && now < early + LeaseMs ==> GuardPasses(now)
    {
      if accountId !in db.accounts || !Free(db.accounts[accountId], now) {
        return Err(AccountBusy);
      }
      db.accounts := db.accounts[accountId := Leased(db.accounts[accountId], owner, early)];
      leaseAccount, leaseOwner, lost := Some(accountId), owner, false;
      return Ok(());
    }

    method KeepAlive(early: Time, now: Time)
      requires leaseAccount.Some? && leaseAccount.value in db.accounts && early <= now
      modifies this`lost, db`accounts
      ensures var id := leaseAccount.value;
              if Renewable(old(db.accounts)[id], leaseOwner, now) then
                db.accounts == old(db.accounts)[id := Leased(old(db.accounts)[id], leaseOwner, early)] && lost == old(lost)
              else db.accounts == old(db.accounts) && lost
    {
      var id := leaseAccount.value;
      if Renewable(db.accounts[id], leaseOwner, now) {
        db.accounts := db.accounts[id := Leased(db.accounts[id], leaseOwner, early)];
      } else {
        lost := true;
      }
    }

    method ReleaseAccount()
      requires leaseAccount.Some? && leaseAccount.value in db.accounts
      modifies this`leaseAccount, db`accounts
      ensures var id := old(leaseAccount).value;
              db.accounts == old(db.accounts)[id := Released(old(db.accounts)[id], leaseOwner)]
      ensures leaseAccount.None?
    {
      var id := leaseAccount.value;
      leaseAccount := None;
      db.accounts := db.accounts[id := Released(db.accounts[id], leaseOwner)];
    }

    /** The first half of a pace: when to wake up for the call, unless the account is cooling down. */
    method PaceStart(accountId: string, early: Time, now: Time) returns (r: Result<Time, Failure>)
      requires early <= now
      ensures r == if !GuardPasses(early) then Err(LeaseLost)
                   else if accountId !in db.accounts then Err(UnknownAccount)
                   else if db.accounts[accountId].blockedUntil > now then Err(AccountCooldown)
                   else Ok(Max(now, db.accounts[accountId].nextCall))
    {
      if !GuardPasses(early) {
        return Err(LeaseLost);
      }
      if accountId !in db.accounts {
        return Err(UnknownAccount);
      }
      if db.accounts[accountId].blockedUntil > now {
        return Err(AccountCooldown);
      }
      var delay := Max(0, db.accounts[accountId].nextCall - now);
      return Ok(now + delay);
    }

    /** The second half, after the sleep: under the guard, the next call moves one pace past this one. */
    method PaceCommit(accountId: string, early: Time, now: Time) returns (r: Result<(), Failure>)
      requires accountId in db.accounts && early <= now
      modifies db`accounts
      ensures r == old(Mutation(early))
      ensures db.accounts == if r.Ok? then old(db.accounts)[accountId := old(db.accounts)[accountId].(nextCall := now + PaceMs)]
                             else old(db.accounts)
    {
      r := Mutation(early);
      if r.Ok? {
        db.accounts := db.accounts[accountId := db.accounts[accountId].(nextCall := now + PaceMs)];
      }
    }

    method Block(accountId: string, until: Time, now: Time) returns (r: Result<(), Failure>)
      requires accountId in db.accounts
      modifies db`accounts
      ensures r == old(Mutation(now))
      ensures db.accounts == if r.Ok? then old(db.accounts)[accountId := Blocked(old(db.accounts)[accountId], until)]
                             else old(db.accounts)
    {
      r := Mutation(now);
      if r.Ok? {
        var account := db.accounts[accountId];
        db.accounts := db.accounts[accountId := account.(blockedUntil := Max(account.blockedUntil, until))];
      }
    }

    /** Lowers the day's limits to the caller's budget, then adds the usage; a refusal rolls both back. */
    method Reserve(account: Budget.AccountBudget, products: nat, links: nat, now: Time) returns (r: Result<(), Failure>)
      modifies db`budget
      ensures old(Mutation(now)).Err? ==> r == old(Mutation(now))
      ensures old(Mutation(now)).Ok? ==>
                r == if Budget.Accepts(old(db.budget), account, products, links, now) then Ok(()) else Err(LocalDailyBudget)
      ensures db.budget == if r.Ok? then Budget.Reserved(old(db.budget), account, products, links, now) else old(db.budget)
    {
      r := Mutation(now);
      if r.Err? || (products == 0 && links == 0) {
        return;
      }
      var savepoint := db.budget;
      var key := Budget.DayKey(account.accountId, Budget.NextKstDay(now));
      if key in db.budget {
        var row := db.budget[key];
        db.budget := db.budget[key := row.(productLimit := Min(row.productLimit, account.products),
                                           linkLimit := Min(row.linkLimit, account.links))];
      } else {
        db.budget := db.budget[key := Budget.BudgetRow(0, 0, account.products, account.links)];
      }
      var row := db.budget[key];
      if row.products + products <= row.productLimit && row.links + links <= row.linkLimit {
        db.budget := db.budget[key := row.(products := row.products + products, links := row.links + links)];
      } else {
        db.budget := savepoint;
        r := Err(LocalDailyBudget);
      }
    }

    method BindApp(app: App, now: Time) returns (r: Result<(), Failure>)
      modifies db`apps, db`results
      ensures old(Mutation(now)).Err? ==> r == old(Mutation(now))
      ensures old(Mutation(now)).Ok? ==> r == if Binds(old(db.apps), app) then Ok(()) else Err(AppRevisionConflict)
      ensures r.Err? ==> db.apps == old(db.apps) && db.results == old(db.results)
      ensures r.Ok? ==> db.apps == Bound(old(db.apps), app) && db.results == KeptResults(old(db.results), app)
    {
      r := Mutation(now);
      if r.Err? {
        return;
      }
      if app.appId in db.apps {
        var row := db.apps[app.appId];
        if row.accountId != app.accountId || row.revision > app.revision
           || (row.revision == app.revision && row.fingerprint != app) {
          return Err(AppRevisionConflict);
        }
        db.apps := db.apps[app.appId := row.(revision := app.revision, fingerprint := app)];
      } else {
        db.apps := db.apps[app.appId := AppRow(app.accountId, app.revision, app)];
      }
      var stored := set k | k in db.results && k.appId == app.appId;
      ghost var before := db.results;
      while stored != {}
        invariant stored <= set k | k in before && k.appId == app.appId
        invariant db.apps == Bound(old(db.apps), app)
        invariant forall k :: k in db.results <==>
                    k in before && (k.appId == app.appId && k !in stored ==> k.subjectId in app.subjects)
        invariant forall k :: k in db.results ==> db.results[k] == before[k]
        decreases stored
      {
        var k :| k in stored;
        stored := stored - {k};
        if k.subjectId !in app.subjects {
          db.results := db.results - {k};
        }
      }
    }

    method Prune(now: Time) returns (r: Result<(), Failure>)
      modifies db`budget, db`results
      ensures r == old(Mutation(now))
      ensures r.Err? ==> db.budget == old(db.budget) && db.results == old(db.results)
      ensures r.Ok? ==> db.budget == Budget.Pruned(old(db.budget), now)
      ensures r.Ok? ==> db.results == map k | k in old(db.results) && k.appId in db.apps :: old(db.results)[k]
    {
      r := Mutation(now);
      if r.Ok? {
        db.budget := map k | k in db.budget && !(k.dayEnd <= now - Budget.RetentionDays * Budget.DayMs) :: db.budget[k];
        db.results := map k | k in db.results && k.appId in db.apps :: db.results[k];
      }
    }
  }
}
