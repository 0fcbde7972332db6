/** Which account an automatic row is on, over every run. */
module PostAccounts {
  import opened Common
  import T = Treasury
  import opened Erp
  import ErpTheorems

  /** At `k` handler `h` was in flight, about to look for an active default account. */
  predicate SeeksDefault(trace: seq<State>, k: nat, h: Id)
    requires k < |trace|
  {
    h in trace[k].treasury.handlers && trace[k].treasury.handlers[h].phase == T.NoDupe
  }

  /** At `k` handler `h` had found no default account and was about to look for the oldest
      active one. */
  predicate SeeksOldest(trace: seq<State>, k: nat, h: Id)
    requires k < |trace|
  {
    h in trace[k].treasury.handlers && trace[k].treasury.handlers[h].phase == T.NoDefault
  }

  /** When `h` looked for it at `k`, the account was active and default. */
  predicate DefaultAt(trace: seq<State>, k: nat, h: Id, a: Id)
    requires k < |trace|
  {
    var accounts := trace[k].treasury.accounts;
    SeeksDefault(trace, k, h) && a in accounts && accounts[a].active && accounts[a].isDefault
  }

  /** When `h` looked for one at `j`, no active account was default. */
  ghost predicate NoDefaultAt(trace: seq<State>, j: nat, h: Id)
    requires j < |trace|
  {
    var accounts := trace[j].treasury.accounts;
    SeeksDefault(trace, j, h) && forall b :: b in accounts && accounts[b].active ==> !accounts[b].isDefault
  }

  /** When `h` looked for it at `k`, the account was active and no active account was older. */
  ghost predicate OldestAt(trace: seq<State>, k: nat, h: Id, a: Id)
    requires k < |trace|
  {
    var accounts := trace[k].treasury.accounts;
    && SeeksOldest(trace, k, h) && a in accounts && accounts[a].active
    && forall b :: b in accounts && accounts[b].active ==> accounts[a].createdAt <= accounts[b].createdAt
  }

  ghost predicate FallbackAt(trace: seq<State>, j: nat, k: nat, h: Id, a: Id) {
    j < k < |trace| && NoDefaultAt(trace, j, h) && OldestAt(trace, k, h, a)
  }

  /** Before `n` handler `h` could choose the account: as an active default one, or, after it
      had looked in vain for such a one, as an oldest active one. */
  ghost predicate ChosenBefore(trace: seq<State>, n: nat, h: Id, a: Id)
    requires n <= |trace|
  {
    || (exists k: nat :: k < n && DefaultAt(trace, k, h, a))
    || (exists j: nat, k: nat :: k < n && FallbackAt(trace, j, k, h, a))
  }

  /** Before `n` handler `h` looked in vain for an active default account. */
  ghost predicate NoDefaultBefore(trace: seq<State>, n: nat, h: Id)
    requires n <= |trace|
  {
    exists j: nat :: j < n && NoDefaultAt(trace, j, h)
  }

  ghost predicate PhaseOk(trace: seq<State>, n: nat, h: Id, p: T.Phase)
    requires n <= |trace|
  {
    match p
    case NoDefault => NoDefaultBefore(trace, n, h)
    case Chosen(a) => ChosenBefore(trace, n, h, a)
    case _ => true
  }

  ghost predicate HandlersOk(trace: seq<State>, n: nat)
    requires n < |trace|
  {
    forall h {:trigger PhaseOk(trace, n, h, trace[n].treasury.handlers[h].phase)} :: h in trace[n].treasury.handlers ==>
      PhaseOk(trace, n, h, trace[n].treasury.handlers[h].phase)
  }

  ghost predicate RowsOk(trace: seq<State>, n: nat)
    requires n < |trace|
  {
    forall r {:trigger ChosenBefore(trace, n, r, trace[n].treasury.ledger[r].accountId)} ::
      r in trace[n].treasury.ledger && trace[n].treasury.ledger[r].source.Some? ==>
        ChosenBefore(trace, n, r, trace[n].treasury.ledger[r].accountId)
  }

  lemma LaterToo(trace: seq<State>, n: nat, h: Id, p: T.Phase)
    requires n < |trace| && PhaseOk(trace, n, h, p)
    ensures PhaseOk(trace, n + 1, h, p)
  {
    match p
    case NoDefault =>
      var j: nat :| j < n && NoDefaultAt(trace, j, h);
      assert j < n + 1;
    case Chosen(a) => ChosenLater(trace, n, h, a);
    case _ =>
  }

  lemma ChosenLater(trace: seq<State>, n: nat, h: Id, a: Id)
    requires n < |trace| && ChosenBefore(trace, n, h, a)
    ensures ChosenBefore(trace, n + 1, h, a)
  {
    if k: nat :| k < n && DefaultAt(trace, k, h, a) {
      assert k < n + 1;
    } else {
      var j: nat, k: nat :| k < n && FallbackAt(trace, j, k, h, a);
      assert k < n + 1;
    }
  }

  /** What a treasury step at `n` makes of a handler's phase and of the rows. */
  lemma PhaseAfter(trace: seq<State>, n: nat, c: T.Action, h: Id)
    requires n < |trace| && T.Enabled(trace[n].treasury, c) && HandlersOk(trace, n)
    requires h in T.Apply(trace[n].treasury, c).handlers
    ensures PhaseOk(trace, n + 1, h, T.Apply(trace[n].treasury, c).handlers[h].phase)
  {
    var t := trace[n].treasury;
    assert h in t.handlers by { T.SameHandlers(t, c, h); }
    assert PhaseOk(trace, n, h, t.handlers[h].phase);
    LaterToo(trace, n, h, t.handlers[h].phase);
    if c.DoDefaultRead? && c.h == h {
      ReadDefault(trace, n, h, c.found);
    } else if c.DoFirstRead? && c.h == h {
      ReadFirst(trace, n, h, c.found);
    } else {
      T.SamePhase(t, c, h);
    }
  }

  lemma ReadDefault(trace: seq<State>, n: nat, h: Id, found: Option<Id>)
    requires n < |trace| && SeeksDefault(trace, n, h)
    requires T.IsDefaultRead(trace[n].treasury.accounts, found)
    ensures PhaseOk(trace, n + 1, h, if found.Some? then T.Chosen(found.value) else T.NoDefault)
  {
    if found.Some? {
      assert DefaultAt(trace, n, h, found.value);
    } else {
      assert NoDefaultAt(trace, n, h);
    }
  }

  lemma ReadFirst(trace: seq<State>, n: nat, h: Id, found: Option<Id>)
    requires n < |trace| && SeeksOldest(trace, n, h) && NoDefaultBefore(trace, n, h)
    requires T.IsFirstRead(trace[n].treasury.accounts, found)
    ensures found.Some? ==> ChosenBefore(trace, n + 1, h, found.value)
  {
    if found.Some? {
      var j: nat :| j < n && NoDefaultAt(trace, j, h);
      assert FallbackAt(trace, j, n, h, found.value);
    }
  }

  /** A sourced row of a treasury step's outcome was there before, or is inserted from the
      handler of its id on the account that handler chose. */
  lemma RowAfter(t: T.State, c: T.Action, r: Id)
    requires T.Enabled(t, c) && r in T.Apply(t, c).ledger && T.Apply(t, c).ledger[r].source.Some?
    ensures || (r in t.ledger && T.Apply(t, c).ledger[r] == t.ledger[r])
            || (r in t.handlers && t.handlers[r].phase == T.Chosen(T.Apply(t, c).ledger[r].accountId))
  {
    if T.IsAccountRequest(c) {
      T.AccountRequestShape(t, c);
    }
  }

  lemma CashStep(trace: seq<State>, n: nat, c: T.Action)
    requires n + 1 < |trace| && T.Enabled(trace[n].treasury, c) && HandlersOk(trace, n) && RowsOk(trace, n)
    requires trace[n + 1].treasury == T.Apply(trace[n].treasury, c)
    ensures HandlersOk(trace, n + 1) && RowsOk(trace, n + 1)
  {
    var t, t' := trace[n].treasury, trace[n + 1].treasury;
    forall h | h in t'.handlers
      ensures PhaseOk(trace, n + 1, h, t'.handlers[h].phase)
    {
      PhaseAfter(trace, n, c, h);
    }
    forall r | r in t'.ledger && t'.ledger[r].source.Some?
      ensures ChosenBefore(trace, n + 1, r, t'.ledger[r].accountId)
    {
      RowAfter(t, c, r);
      if r in t.ledger && t'.ledger[r] == t.ledger[r] {
        assert ChosenBefore(trace, n, r, t.ledger[r].accountId);
      } else {
        assert PhaseOk(trace, n, r, t.handlers[r].phase);
      }
      ChosenLater(trace, n, r, t'.ledger[r].accountId);
    }
  }

  lemma EmitStep(trace: seq<State>, n: nat)
    requires IsRun(trace) && n + 1 < |trace| && HandlersOk(trace, n) && RowsOk(trace, n)
    requires ErpTheorems.OnlyHandlersMove(trace[n].treasury, trace[n + 1].treasury)
    requires ErpTheorems.HandlersStart(trace[n].treasury, trace[n + 1].treasury)
    ensures HandlersOk(trace, n + 1) && RowsOk(trace, n + 1)
  {
    var t, t' := trace[n].treasury, trace[n + 1].treasury;
    forall h | h in t'.handlers
      ensures PhaseOk(trace, n + 1, h, t'.handlers[h].phase)
    {
      if t'.handlers[h].phase != T.Emitted {
        assert PhaseOk(trace, n, h, t.handlers[h].phase);
        LaterToo(trace, n, h, t.handlers[h].phase);
      }
    }
    forall r | r in t'.ledger && t'.ledger[r].source.Some?
      ensures ChosenBefore(trace, n + 1, r, t'.ledger[r].accountId)
    {
      assert ChosenBefore(trace, n, r, t.ledger[r].accountId);
      ChosenLater(trace, n, r, t.ledger[r].accountId);
    }
  }

  lemma {:induction false} AllChosen(trace: seq<State>, n: nat)
    requires IsRun(trace) && n < |trace|
    ensures HandlersOk(trace, n) && RowsOk(trace, n)
  {
    if n == 0 {
    } else {
      AllChosen(trace, n - 1);
      var c := ErpTheorems.TreasuryStep(trace, n - 1);
      if c.Some? {
        CashStep(trace, n - 1, c.value);
      } else {
        EmitStep(trace, n - 1);
      }
    }
  }

  /** In every run an automatic row is on an account that was an active default one when its
      handler looked for such a one, or, if the handler then found none, an active one that no
      other active account was older than when the handler looked for that. */
  lemma RowsAreOnChosenAccounts(trace: seq<State>, n: nat, r: Id)
    requires IsRun(trace) && n < |trace|
    requires r in trace[n].treasury.ledger && trace[n].treasury.ledger[r].source.Some?
    ensures ChosenBefore(trace, n, r, trace[n].treasury.ledger[r].accountId)
  {
    AllChosen(trace, n);
  }
}
