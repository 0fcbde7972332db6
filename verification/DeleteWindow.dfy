/** Account deletion against the cascade, over whole runs: what may happen between the
    row count of a delete and the delete itself. */
module DeleteWindow {
  import opened Common
  import T = Treasury
  import TL = TreasuryLaws
  import opened Erp
  import ErpTheorems

  function RowsAt(trace: seq<State>, n: nat, account: Id): set<Id>
    requires n < |trace|
  {
    T.RowsOn(trace[n].treasury, account)
  }

  /** The step from `n` is this treasury step. */
  ghost predicate CashAt(trace: seq<State>, n: nat, c: T.Action)
    requires n + 1 < |trace|
  {
    Enabled(trace[n], Cash(c)) && trace[n + 1] == Apply(trace[n], Cash(c))
  }

  /** The step from `n` puts row `r` on the account: a handler that chose the account
      inserts, or a manual entry names it. */
  ghost predicate PutsAt(trace: seq<State>, n: nat, account: Id, r: Id)
    requires n + 1 < |trace|
  {
    exists c :: CashAt(trace, n, c) && TL.PutsRow(trace[n].treasury, c, account, r)
  }

  /** The step from `n` takes row `r` off the account: it deletes the row, or the account. */
  ghost predicate TakesAt(trace: seq<State>, n: nat, account: Id, r: Id)
    requires n + 1 < |trace|
  {
    exists c :: CashAt(trace, n, c) && TL.TakesRow(trace[n].treasury, c, account, r)
  }

  /** The step from `i` puts row `r` on the account and none before `n` takes it off. */
  ghost predicate PutAndStays(trace: seq<State>, i: nat, n: nat, account: Id, r: Id) {
    && i < n < |trace| && PutsAt(trace, i, account, r)
    && forall k: nat :: i < k < n ==> !TakesAt(trace, k, account, r)
  }

  /** Some step after `m` put row `r` on the account and none took it off again. */
  ghost predicate PutAfter(trace: seq<State>, m: nat, n: nat, account: Id, r: Id) {
    exists i: nat :: m < i && PutAndStays(trace, i, n, account, r)
  }

  // ----- rows along a run -----

  lemma CashMovesRow(trace: seq<State>, n: nat, c: T.Action, account: Id, r: Id)
    requires IsRun(trace) && n + 1 < |trace| && CashAt(trace, n, c)
    ensures r in RowsAt(trace, n + 1, account) <==>
            TL.PutsRow(trace[n].treasury, c, account, r) ||
            (r in RowsAt(trace, n, account) && !TL.TakesRow(trace[n].treasury, c, account, r))
  {
    RunKeeps(trace, n);
    TL.RowOnStep(trace[n].treasury, c, account, r, trace[n].used);
  }

  /** How one step of a run, of any kind, changes whether `r` is on the account. */
  lemma RowMoves(trace: seq<State>, n: nat, account: Id, r: Id)
    requires IsRun(trace) && n + 1 < |trace|
    ensures r in RowsAt(trace, n + 1, account) <==>
            PutsAt(trace, n, account, r) || (r in RowsAt(trace, n, account) && !TakesAt(trace, n, account, r))
  {
    if c :| CashAt(trace, n, c) && TL.PutsRow(trace[n].treasury, c, account, r) {
      CashMovesRow(trace, n, c, account, r);
    } else if c :| CashAt(trace, n, c) && TL.TakesRow(trace[n].treasury, c, account, r) {
      CashMovesRow(trace, n, c, account, r);
    } else {
      var c := ErpTheorems.TreasuryStep(trace, n);
      if c.Some? {
        assert CashAt(trace, n, c.value);
        CashMovesRow(trace, n, c.value, account, r);
      }
    }
  }

  /** Which rows an account carries at `n`, having carried none right after step `m`. */
  lemma {:induction false} RowsOfWindow(trace: seq<State>, m: nat, n: nat, account: Id, r: Id)
    requires IsRun(trace) && m < n < |trace| && r !in RowsAt(trace, m + 1, account)
    ensures r in RowsAt(trace, n, account) <==> PutAfter(trace, m, n, account, r)
    decreases n
  {
    if n == m + 1 {
    } else {
      var before: nat := n - 1;
      RowsOfWindow(trace, m, before, account, r);
      RowMoves(trace, before, account, r);
      LastOfWindow(trace, m, before, n, account, r);
    }
  }

  lemma StaysThrough(trace: seq<State>, i: nat, n: nat, after: nat, account: Id, r: Id)
    requires PutAndStays(trace, i, n, account, r) && after == n + 1 < |trace| && !TakesAt(trace, n, account, r)
    ensures PutAndStays(trace, i, after, account, r)
  {
    forall k: nat | i < k < after
      ensures !TakesAt(trace, k, account, r)
    {
    }
  }

  lemma StayedBefore(trace: seq<State>, i: nat, n: nat, after: nat, account: Id, r: Id)
    requires PutAndStays(trace, i, after, account, r) && i < n && after == n + 1
    ensures PutAndStays(trace, i, n, account, r) && !TakesAt(trace, n, account, r)
  {
  }

  lemma PutLast(trace: seq<State>, n: nat, after: nat, account: Id, r: Id)
    requires after == n + 1 < |trace| && PutsAt(trace, n, account, r)
    ensures PutAndStays(trace, n, after, account, r)
  {
  }

  lemma LastOfWindow(trace: seq<State>, m: nat, n: nat, after: nat, account: Id, r: Id)
    requires m < n && after == n + 1 < |trace|
    ensures PutAfter(trace, m, after, account, r) <==>
            PutsAt(trace, n, account, r) || (PutAfter(trace, m, n, account, r) && !TakesAt(trace, n, account, r))
  {
    if PutAfter(trace, m, after, account, r) {
      var i: nat :| m < i && PutAndStays(trace, i, after, account, r);
      if i < n {
        StayedBefore(trace, i, n, after, account, r);
      }
    }
    if PutsAt(trace, n, account, r) {
      PutLast(trace, n, after, account, r);
    } else if PutAfter(trace, m, n, account, r) && !TakesAt(trace, n, account, r) {
      var i: nat :| m < i && PutAndStays(trace, i, n, account, r);
      StaysThrough(trace, i, n, after, account, r);
    }
  }

  // ----- the delete -----

  /** An account whose delete is past its count is still there. */
  lemma {:induction false} DeletingExists(trace: seq<State>, n: nat)
    requires IsRun(trace) && n < |trace|
    ensures trace[n].treasury.deleting <= trace[n].treasury.accounts.Keys
  {
    if n == 0 {
    } else {
      DeletingExists(trace, n - 1);
      var c := ErpTheorems.TreasuryStep(trace, n - 1);
      if c.Some? {
        DeletingStep(trace[n - 1].treasury, c.value);
      }
    }
  }

  lemma DeletingStep(t: T.State, a: T.Action)
    requires T.Enabled(t, a) && t.deleting <= t.accounts.Keys
    ensures T.Apply(t, a).deleting <= T.Apply(t, a).accounts.Keys
  {
    if T.IsAccountRequest(a) {
      T.AccountRequestShape(t, a);
    }
  }

  /** A delete that counted no rows at `m` and is due at `n`. */
  ghost predicate Due(trace: seq<State>, m: nat, n: nat, account: Id) {
    && m < n < |trace| && CashAt(trace, m, T.DoCountRows(account))
    && T.CountRows(trace[m].treasury, account).result.Ok?
    && account in trace[n].treasury.deleting
  }

  function LedgerAfterDelete(trace: seq<State>, n: nat, account: Id): map<Id, T.Row>
    requires n < |trace| && account in trace[n].treasury.deleting
  {
    Apply(trace[n], Cash(T.DoDeleteAccount(account))).treasury.ledger
  }

  /** Exactly which rows a delete loses to the cascade: those that some step of the run
      between its row count and the delete put on the account, and no later one took off
      again. The window holds steps of every kind, events that arrive in it included. */
  lemma DeleteLosesIff(trace: seq<State>, m: nat, n: nat, account: Id, r: Id)
    requires IsRun(trace) && Due(trace, m, n, account)
    ensures r in trace[n].treasury.ledger && r !in LedgerAfterDelete(trace, n, account) <==>
            PutAfter(trace, m, n, account, r)
  {
    NothingAfterCount(trace, m, account, r);
    RowsOfWindow(trace, m, n, account, r);
    DeleteTakesRows(trace, n, account);
  }

  lemma NothingAfterCount(trace: seq<State>, m: nat, account: Id, r: Id)
    requires m + 1 < |trace| && CashAt(trace, m, T.DoCountRows(account))
    requires T.CountRows(trace[m].treasury, account).result.Ok?
    ensures r !in RowsAt(trace, m + 1, account)
  {
    assert r !in T.RowsOn(trace[m].treasury, account);
  }

  lemma DeleteTakesRows(trace: seq<State>, n: nat, account: Id)
    requires IsRun(trace) && n < |trace| && account in trace[n].treasury.deleting
    ensures forall r :: r in trace[n].treasury.ledger && r !in LedgerAfterDelete(trace, n, account) <==>
                        r in RowsAt(trace, n, account)
    ensures LedgerAfterDelete(trace, n, account) ==
            trace[n].treasury.ledger - RowsAt(trace, n, account)
  {
    DeletingExists(trace, n);
  }

  /** A delete keeps the ledger, although it cascades, exactly when no row put on the
      account in its window stayed there. */
  lemma DeleteSparesLedger(trace: seq<State>, m: nat, n: nat, account: Id)
    requires IsRun(trace) && Due(trace, m, n, account)
    ensures LedgerAfterDelete(trace, n, account) == trace[n].treasury.ledger <==>
            forall r :: !PutAfter(trace, m, n, account, r)
  {
    DeleteTakesRows(trace, n, account);
    forall r
      ensures r in trace[n].treasury.ledger && r !in LedgerAfterDelete(trace, n, account) <==>
              PutAfter(trace, m, n, account, r)
    {
      DeleteLosesIff(trace, m, n, account, r);
    }
  }
}
