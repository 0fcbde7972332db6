/** The treasury service over its tables: each method is one request, or one
    awaited step of the auto-post handler, and refines the step of the same name. */
module TreasuryServices {
  import opened Common
  import opened Sums
  import opened Treasury
  import opened TreasuryLaws

  class TreasuryService {
    var accounts: map<Id, Account>
    var ledger: map<Id, Row>
    var handlers: map<Id, Handler>
    ghost var deleting: set<Id>
    ghost var pending: map<Id, Pending>
    ghost var ended: map<Id, Ended>

    ghost function View(): State
      reads this
    {
      State(accounts, ledger, handlers, deleting, pending, ended)
    }

    constructor ()
      ensures View() == State(map[], map[], map[], {}, map[], map[])
    {
      accounts, ledger, handlers, deleting, pending, ended := map[], map[], map[], {}, map[], map[];
    }

    // ----- auto-posting -----

    /** An event arrives: its handler starts. */
    method OnEvent(h: Id, p: Post)
      modifies this
      ensures View() == Emit(old(View()), h, p)
    {
      handlers := handlers[h := Handler(p, Emitted)];
    }

    method Finish(h: Id, ghost reason: Reason)
      requires h in handlers
      modifies this
      ensures View() == End(old(View()), h, reason)
    {
      ended := ended[h := Ended(DueOf(handlers[h].post), reason)];
      handlers := handlers - {h};
    }

    method Check(h: Id)
      requires h in handlers
      modifies this
      ensures View() == DedupeCheck(old(View()), h)
    {
      var rows := ledger.Keys;
      var dupe := false;
      while rows != {} && !dupe
        invariant rows <= ledger.Keys && View() == old(View())
        invariant dupe ==> Posted(View(), handlers[h].post.source)
        invariant !dupe ==> forall r :: r in ledger && r !in rows ==> ledger[r].source != Some(handlers[h].post.source)
        decreases rows
      {
        var r :| r in rows;
        dupe := ledger[r].source == Some(handlers[h].post.source);
        rows := rows - {r};
      }
      if dupe {
        Finish(h, Duplicate);
      } else {
        handlers := handlers[h := handlers[h].(phase := NoDupe)];
      }
    }

    method FindDefault() returns (found: Option<Id>)
      ensures IsDefaultRead(accounts, found)
    {
      var hits := set a | a in accounts && accounts[a].isDefault && accounts[a].active;
      assert forall a :: a in accounts && accounts[a].isDefault && accounts[a].active ==> a in hits;
      if hits == {} {
        found := None;
      } else {
        var a :| a in hits;
        found := Some(a);
      }
    }

    /** Oldest active account. */
    method FindFirst() returns (found: Option<Id>)
      ensures IsFirstRead(accounts, found)
    {
      var rest := set a | a in accounts && accounts[a].active;
      found := None;
      while rest != {}
        invariant rest <= accounts.Keys && forall a :: a in rest ==> accounts[a].active
        invariant found.Some? ==> found.value in accounts && accounts[found.value].active
        invariant forall b :: b in accounts && accounts[b].active && b !in rest ==>
                    found.Some? && accounts[found.value].createdAt <= accounts[b].createdAt
        decreases rest
      {
        var a :| a in rest;
        if found.None? || accounts[a].createdAt < accounts[found.value].createdAt {
          found := Some(a);
        }
        rest := rest - {a};
      }
    }

    method Choose(h: Id) returns (ghost found: Option<Id>)
      requires h in handlers
      modifies this
      ensures IsDefaultRead(old(accounts), found)
      ensures View() == AfterDefaultRead(old(View()), h, found)
    {
      var d := FindDefault();
      found := d;
      handlers := handlers[h := handlers[h].(phase := if d.Some? then Chosen(d.value) else NoDefault)];
    }

    method ChooseFirst(h: Id) returns (ghost found: Option<Id>)
      requires h in handlers
      modifies this
      ensures IsFirstRead(old(accounts), found)
      ensures View() == AfterFirstRead(old(View()), h, found)
    {
      var f := FindFirst();
      found := f;
      if f.Some? {
        handlers := handlers[h := handlers[h].(phase := Chosen(f.value))];
      } else {
        Finish(h, NoAccount);
      }
    }

    /** The insert of a handler: one row for its post on the account it chose, or none
        when that account is gone; either way the handler is over. */
    method Create(h: Id)
      requires h in handlers && handlers[h].phase.Chosen?
      modifies this
      ensures View() == InsertRow(old(View()), h)
      ensures handlers == old(handlers) - {h} && accounts == old(accounts)
      ensures old(handlers[h].phase.accountId in accounts) ==>
                PostedOn(old(ledger), ledger, h, old(handlers[h].post), old(handlers[h].phase.accountId))
      ensures old(handlers[h].phase.accountId !in accounts) ==>
                && ledger == old(ledger) && h in ended && ended[h] == Ended(DueOf(old(handlers[h].post)), Failed)
    {
      var a := handlers[h].phase.accountId;
      if a !in accounts {
        Finish(h, Failed);
      } else {
        ledger := ledger[h := RowOf(handlers[h].post, a)];
        handlers := handlers - {h};
      }
    }

    /** `autoPost` run without interruption: it posts the event's amount to the
        active default account, else to the oldest active one, unless the source is
        posted already or there is no active account. */
    method AutoPost(h: Id)
      requires h in handlers && handlers[h].phase == Emitted
      modifies this
      ensures h !in handlers && handlers == old(handlers) - {h} && accounts == old(accounts)
      ensures old(Posted(View(), handlers[h].post.source)) || (forall a :: a in accounts ==> !accounts[a].active) ==>
                ledger == old(ledger)
      ensures old(!Posted(View(), handlers[h].post.source)) && (exists a :: a in accounts && accounts[a].active) ==>
                exists a :: TakesPosts(accounts, a) && PostedOn(old(ledger), ledger, h, old(handlers)[h].post, a)
    {
      Check(h);
      if h in handlers {
        ghost var found := Choose(h);
        if handlers[h].phase == NoDefault {
          found := ChooseFirst(h);
        }
        if h in handlers {
          Create(h);
        }
      }
    }

    // ----- accounts -----

    /** A whole create request, uninterrupted: the first account becomes the default. */
    method OpenAccount(id: Id, name: string, opening: int, now: int)
      requires id !in accounts
      modifies this
      ensures View() == CreateAccount(old(View()), id, name, opening, now)
      ensures accounts.Keys == old(accounts).Keys + {id}
      ensures forall a :: a in old(accounts) ==> accounts[a] == old(accounts)[a]
      ensures accounts[id].isDefault <==> old(accounts) == map[]
      ensures accounts[id].name == name && accounts[id].opening == opening
      ensures accounts[id].active && accounts[id].createdAt == now
      ensures old(OneDefault(accounts)) ==> OneDefault(accounts)
    {
      accounts := accounts[id := Account(name, opening, accounts == map[], true, now)];
    }

    /** A whole update request, uninterrupted. A promoted account ends up the only
        default; what the patch leaves out stays; no account comes or goes. */
    method PatchAccount(id: Id, name: Option<string>, opening: Option<int>, isDefault: Option<bool>,
                        active: Option<bool>)
      returns (r: Result<(), Error>)
      modifies this
      ensures View() == UpdateAccount(old(View()), id, name, opening, isDefault, active).state
      ensures r == if id in old(accounts) then Ok(()) else Err(AccountNotFound)
      ensures r.Err? ==> accounts == old(accounts)
      ensures accounts.Keys == old(accounts).Keys && ledger == old(ledger) && handlers == old(handlers)
      ensures r.Ok? && isDefault == Some(true) ==>
                accounts[id].isDefault && forall a :: a in accounts && a != id ==> !accounts[a].isDefault
      ensures isDefault != Some(true) ==> forall a :: a in accounts && a != id ==> accounts[a] == old(accounts)[a]
      ensures forall a :: a in accounts && a != id ==>
                accounts[a] == old(accounts)[a].(isDefault := accounts[a].isDefault)
      ensures r.Ok? && name.None? ==> accounts[id].name == old(accounts)[id].name
      ensures r.Ok? && name.Some? ==> accounts[id].name == name.value
      ensures r.Ok? && opening.None? ==> accounts[id].opening == old(accounts)[id].opening
      ensures r.Ok? && opening.Some? ==> accounts[id].opening == opening.value
      ensures r.Ok? && active.None? ==> accounts[id].active == old(accounts)[id].active
      ensures r.Ok? && active.Some? ==> accounts[id].active == active.value
      ensures r.Ok? && isDefault.None? ==> accounts[id].isDefault == old(accounts)[id].isDefault
      ensures r.Ok? && isDefault.Some? ==> accounts[id].isDefault == isDefault.value
      ensures r.Ok? ==> accounts[id].createdAt == old(accounts)[id].createdAt
    {
      if id !in accounts {
        return Err(AccountNotFound);
      }
      if isDefault == Some(true) {
        accounts := Demoted(accounts, id);
      }
      accounts := accounts[id := Patched(accounts[id], name, opening, isDefault, active)];
      r := Ok(());
    }

    /** The whole delete request, uninterrupted: no ledger row goes with the account. */
    method RemoveAccount(id: Id) returns (r: Result<(), Error>)
      modifies this
      ensures r == Err(AccountNotFound) <==> id !in old(accounts)
      ensures r == Err(AccountHasRows) <==>
                id in old(accounts) && exists row :: row in old(ledger) && old(ledger)[row].accountId == id
      ensures r.Ok? <==> accounts.Keys == old(accounts).Keys - {id} && accounts.Keys != old(accounts).Keys
      ensures forall a :: a in accounts ==> a in old(accounts) && accounts[a] == old(accounts)[a]
      ensures handlers == old(handlers)
      ensures r == CountRows(old(View()), id).result
      ensures r.Ok? ==> View() == DeleteAccount(CountRows(old(View()), id).state, id)
      ensures r.Err? ==> View() == old(View())
      ensures ledger == old(ledger)
    {
      if id !in accounts {
        return Err(AccountNotFound);
      }
      var rows := set r | r in ledger && ledger[r].accountId == id;
      if rows != {} {
        return Err(AccountHasRows);
      }
      ghost var before := View();
      deleting := deleting + {id};
      ghost var counted := View();
      assert RowsOn(counted, id) == {};
      assert counted.ledger - {} == counted.ledger;
      assert counted.ended + EndedRows(counted, {}, RowCascaded) == counted.ended;
      accounts := accounts - {id};
      deleting := deleting - {id};
      r := Ok(());
    }

    // ----- rows -----

    /** A manual entry is taken exactly when its account exists, and its truck if it names
        one. It never carries a source, so it counts as nobody's post. */
    method Enter(trucks: set<Id>, id: Id, row: Row) returns (r: Result<(), Error>)
      requires id !in ledger
      modifies this
      ensures r.Ok? <==> row.accountId in old(accounts) && TruckKnown(trucks, row)
      ensures r == Err(AccountNotFound) <==> row.accountId !in old(accounts)
      ensures r.Err? ==> View() == old(View())
      ensures r.Ok? ==>
                && ledger.Keys == old(ledger).Keys + {id} && ledger[id] == row.(source := None)
                && forall k :: k in old(ledger) ==> ledger[k] == old(ledger)[k]
      ensures forall s :: Posted(View(), s) <==> old(Posted(View(), s))
      ensures var o := CreateRow(old(View()), trucks, id, row); r == o.result && View() == o.state
    {
      if row.accountId !in accounts {
        return Err(AccountNotFound);
      }
      if row.truckId.Some? && row.truckId.value != "" {
        if row.truckId.value !in trucks {
          return Err(UnknownTruck);
        }
      }
      ledger := ledger[id := row.(source := None)];
      r := Ok(());
    }

    /** Deletes one row, manual or automatic; the post of an automatic row is recorded as
        deleted by hand. */
    method RemoveTransaction(id: Id) returns (r: Result<(), Error>)
      modifies this
      ensures r.Ok? <==> id in old(ledger)
      ensures id !in ledger && forall k :: k in old(ledger) && k != id ==> k in ledger && ledger[k] == old(ledger)[k]
      ensures ledger.Keys <= old(ledger).Keys && accounts == old(accounts)
      ensures r.Ok? && old(ledger)[id].source.Some? ==>
                id in ended && ended[id] == Ended(DueOfRow(old(ledger)[id]), RowDeleted)
      ensures r == RemoveRow(old(View()), id).result && View() == RemoveRow(old(View()), id).state
    {
      if id !in ledger {
        return Err(RowNotFound);
      }
      ended := ended + EndedRows(View(), {id}, RowDeleted);
      ledger := ledger - {id};
      r := Ok(());
    }

    // ----- balances -----

    /** One cell per account with rows, built from the (account, direction) groups. */
    method NetByAccount() returns (net: map<Id, int>)
      ensures forall a :: a in net ==> net[a] == Net(ledger, a)
      ensures forall a :: a !in net ==> Net(ledger, a) == 0
    {
      net := map[];
      var groups := set r | r in ledger :: (ledger[r].accountId, ledger[r].direction);
      var rest := groups;
      while rest != {}
        invariant rest <= groups
        invariant forall a :: (if a in net then net[a] else 0) == GroupedSoFar(ledger, groups - rest, a)
        decreases rest
      {
        var g :| g in rest;
        var amount := SumValues(GroupAmounts(ledger, g.0, g.1));
        var current := if g.0 in net then net[g.0] else 0;
        GroupedStep(ledger, groups - rest, g);
        assert groups - (rest - {g}) == (groups - rest) + {g};
        net := net[g.0 := if g.1 == Inflow then current + amount else current - amount];
        rest := rest - {g};
      }
      assert groups - rest == groups;
      forall a
        ensures GroupedSoFar(ledger, groups, a) == Net(ledger, a)
      {
        GroupedAll(ledger, groups, a);
      }
    }

    /** The live balance of every account. */
    method ListAccounts() returns (balances: map<Id, int>)
      ensures balances == map a | a in accounts :: Balance(View(), a)
    {
      var net := NetByAccount();
      balances := map a | a in accounts :: accounts[a].opening + NetOf(net, a);
    }

    /** The cash position is the active part of the account listing, and its total. */
    method CashPosition() returns (balances: map<Id, int>, total: int)
      ensures balances == map a | a in accounts && accounts[a].active :: Balance(View(), a)
      ensures total == MapSum(balances)
    {
      var net := NetByAccount();
      balances, total := Positions(accounts, net);
    }

    /** The loop over the active accounts. */
    static method Positions(listed: map<Id, Account>, net: map<Id, int>) returns (balances: map<Id, int>, total: int)
      ensures forall a :: a in balances <==> a in listed && listed[a].active
      ensures forall a :: a in balances ==> balances[a] == listed[a].opening + NetOf(net, a)
      ensures total == MapSum(balances)
    {
      balances, total := map[], 0;
      var active := set a | a in listed && listed[a].active;
      var rest := active;
      while rest != {}
        invariant rest <= active
        invariant forall a :: a in balances <==> a in active && a !in rest
        invariant forall a :: a in balances ==> balances[a] == listed[a].opening + NetOf(net, a)
        invariant total == MapSum(balances)
        decreases rest
      {
        var a :| a in rest;
        var balance := listed[a].opening + NetOf(net, a);
        MapSumInsert(balances, a, balance);
        balances := balances[a := balance];
        total := total + balance;
        rest := rest - {a};
      }
    }
  }

  /** The account a post goes to: an active default one, failing that an active one that no
      other active account is older than. */
  ghost predicate TakesPosts(accounts: map<Id, Account>, a: Id) {
    && a in accounts && accounts[a].active
    && (accounts[a].isDefault ||
        forall b :: b in accounts && accounts[b].active ==>
          !accounts[b].isDefault && accounts[a].createdAt <= accounts[b].createdAt)
  }

  /** One row more, on the account and with everything the post asks for. */
  ghost predicate PostedOn(before: map<Id, Row>, after: map<Id, Row>, h: Id, p: Post, a: Id) {
    && after.Keys == before.Keys + {h} && (forall r :: r in before && r != h ==> after[r] == before[r])
    && after[h] == Row(a, p.date, p.direction, p.amount, p.category, p.description, p.truckId, Some(p.source))
  }

  function NetOf(net: map<Id, int>, a: Id): int { if a in net then net[a] else 0 }

  /** The signed sum of the groups of `a` among those processed. */
  ghost function GroupedSoFar(ledger: map<Id, Row>, done: set<(Id, Direction)>, a: Id): int {
    (if (a, Inflow) in done then MapSum(GroupAmounts(ledger, a, Inflow)) else 0) -
    (if (a, Outflow) in done then MapSum(GroupAmounts(ledger, a, Outflow)) else 0)
  }

  lemma GroupedStep(ledger: map<Id, Row>, done: set<(Id, Direction)>, g: (Id, Direction))
    requires g !in done
    ensures forall a :: GroupedSoFar(ledger, done + {g}, a) == GroupedSoFar(ledger, done, a) +
              if a != g.0 then 0
              else if g.1 == Inflow then MapSum(GroupAmounts(ledger, g.0, g.1))
              else -MapSum(GroupAmounts(ledger, g.0, g.1))
  {
    assert g == (g.0, g.1);
  }

  lemma GroupedAll(ledger: map<Id, Row>, groups: set<(Id, Direction)>, a: Id)
    requires groups == set r | r in ledger :: (ledger[r].accountId, ledger[r].direction)
    ensures GroupedSoFar(ledger, groups, a) == Net(ledger, a)
  {
    NetByDirection(ledger, a);
    if (a, Inflow) !in groups {
      assert GroupAmounts(ledger, a, Inflow) == map[] by {
        assert forall r :: r in ledger ==> (ledger[r].accountId, ledger[r].direction) in groups;
      }
    }
    if (a, Outflow) !in groups {
      assert GroupAmounts(ledger, a, Outflow) == map[] by {
        assert forall r :: r in ledger ==> (ledger[r].accountId, ledger[r].direction) in groups;
      }
    }
  }
}
