/** How treasury steps put rows on accounts and take them off, and balances against
    the ledger. */
module TreasuryLaws {
  import opened Common
  import opened Sums
  import opened Treasury

  // ----- rows coming to an account and leaving it -----

  /** This step puts row `r` on the account. */
  predicate PutsRow(t: State, a: Action, account: Id, r: Id) {
    && account in t.accounts
    && ((a.DoInsert? && a.h == r && r in t.handlers && t.handlers[r].phase == Chosen(account))
        || (a.DoCreateRow? && a.id == r && a.row.accountId == account && TruckKnown(a.trucks, a.row)))
  }

  /** This step takes row `r` off the account. */
  predicate TakesRow(t: State, a: Action, account: Id, r: Id) {
    (a.DoRemoveRow? && a.id == r) || (a.DoDeleteAccount? && a.id == account && account in t.accounts)
  }

  predicate OnAccount(t: State, account: Id, r: Id) {
    r in t.ledger && t.ledger[r].accountId == account
  }

  lemma RowOnLedgerStep(t: State, a: Action, account: Id, r: Id)
    requires TreasuryInv(t) && Enabled(t, a) && (a.DoCreateRow? ==> a.id !in t.ledger)
    requires a.DoInsert? || a.DoCreateRow? || a.DoRemoveRow? || a.DoDeleteAccount?
    ensures OnAccount(Apply(t, a), account, r) <==>
            PutsRow(t, a, account, r) || (OnAccount(t, account, r) && !TakesRow(t, a, account, r))
  {
    match a
    case DoInsert(h) =>
    case DoCreateRow(_, id, row) =>
    case DoRemoveRow(id) =>
    case DoDeleteAccount(id) =>
  }

  /** How one step changes whether `r` is on the account. */
  lemma RowOnStep(t: State, a: Action, account: Id, r: Id, used: set<Id>)
    requires TreasuryInv(t) && IdsOf(t, used) && Enabled(t, a) && NewIds(a) !! used
    ensures r in RowsOn(Apply(t, a), account) <==>
            PutsRow(t, a, account, r) || (r in RowsOn(t, account) && !TakesRow(t, a, account, r))
  {
    if a.DoInsert? || a.DoCreateRow? || a.DoRemoveRow? || a.DoDeleteAccount? {
      RowOnLedgerStep(t, a, account, r);
    } else {
      LedgerUntouched(t, a);
    }
  }

  lemma LedgerUntouched(t: State, a: Action)
    requires Enabled(t, a)
    requires !a.DoInsert? && !a.DoCreateRow? && !a.DoRemoveRow? && !a.DoDeleteAccount?
    ensures Apply(t, a).ledger == t.ledger
  {
    if IsAccountRequest(a) {
      AccountRequestShape(t, a);
    }
  }

  // ----- handlers move on -----

  /** How many steps a handler in this phase has left at most. */
  function StepsLeft(p: Phase): nat {
    match p case Emitted => 4 case NoDupe => 3 case NoDefault => 2 case Chosen(_) => 1
  }

  predicate StepOf(a: Action, h: Id) {
    (a.DoDedupe? || a.DoDefaultRead? || a.DoFirstRead? || a.DoInsert? || a.DoThrow?) && a.h == h
  }

  /** A handler never goes back: each of its steps ends it or leaves fewer to take, and no
      other step moves it. So every handler is over after four steps of its own. */
  lemma HandlerMovesOn(t: State, a: Action, h: Id)
    requires Enabled(t, a) && h in t.handlers
    ensures var t' := Apply(t, a);
            if StepOf(a, h)
            then h in t'.handlers ==> StepsLeft(t'.handlers[h].phase) < StepsLeft(t.handlers[h].phase)
            else h in t'.handlers && t'.handlers[h] == t.handlers[h]
  {
    if IsAccountRequest(a) {
      AccountRequestShape(t, a);
    }
  }

  // ----- balances -----

  function Signed(r: Row): int {
    var amount: int := r.amount;
    if r.direction == Inflow then amount else -amount
  }

  function SignedRows(ledger: map<Id, Row>): map<Id, int> {
    map r | r in ledger :: Signed(ledger[r])
  }

  function AccountLabels(ledger: map<Id, Row>): map<Id, Id> {
    map r | r in ledger :: ledger[r].accountId
  }

  /** The row-by-row signed sum of one account. */
  ghost function Net(ledger: map<Id, Row>, account: Id): int {
    MapSum(Filed(SignedRows(ledger), AccountLabels(ledger), account))
  }

  /** What `groupBy (accountId, direction)` sums. */
  function GroupAmounts(ledger: map<Id, Row>, account: Id, d: Direction): map<Id, int> {
    map r | r in ledger && ledger[r].accountId == account && ledger[r].direction == d :: ledger[r].amount
  }

  /** Grouping by direction and then signing is the row-by-row signed sum. */
  lemma NetByDirection(ledger: map<Id, Row>, account: Id)
    ensures Net(ledger, account) ==
            MapSum(GroupAmounts(ledger, account, Inflow)) - MapSum(GroupAmounts(ledger, account, Outflow))
  {
    var ins, outs := GroupAmounts(ledger, account, Inflow), GroupAmounts(ledger, account, Outflow);
    var minus := map r | r in outs :: -outs[r];
    MapSumNegate(outs, minus);
    MapSumSplit(Filed(SignedRows(ledger), AccountLabels(ledger), account), ins, minus);
  }

  /** The balance an account listing shows. */
  ghost function Balance(t: State, account: Id): int
    requires account in t.accounts
  {
    t.accounts[account].opening + Net(t.ledger, account)
  }

  /** No money is lost between accounts: all balances together are all opening
      balances plus every inflow minus every outflow. */
  lemma BalancesConserve(t: State)
    requires RowsHang(t)
    ensures MapSum(map a | a in t.accounts :: Balance(t, a)) ==
            MapSum(map a | a in t.accounts :: t.accounts[a].opening) + MapSum(SignedRows(t.ledger))
  {
    var balances := map a | a in t.accounts :: Balance(t, a);
    var openings := map a | a in t.accounts :: t.accounts[a].opening;
    var nets := map a | a in t.accounts :: Net(t.ledger, a);
    FilingConserves(SignedRows(t.ledger), AccountLabels(t.ledger), nets);
    MapSumAdd(openings, nets, balances);
  }
}
