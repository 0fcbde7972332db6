/** The default account under overlapping create and promote requests: which steps may
    leave two defaults, and that requests which do not overlap never do. */
module AccountDefaults {
  import opened Common
  import opened Treasury

  /** No account other than `x` is default. */
  ghost predicate OnlyDefault(accounts: map<Id, Account>, x: Id) {
    forall a :: a in accounts && a != x ==> !accounts[a].isDefault
  }

  predicate IsDefault(accounts: map<Id, Account>, x: Id) { x in accounts && accounts[x].isDefault }

  // ----- one step -----

  /** The first account created is the default, and later ones are not. */
  lemma CreateKeepsOneDefault(t: State, id: Id, name: string, opening: int, now: int)
    requires OneDefault(t.accounts) && id !in t.accounts
    ensures var after := CreateAccount(t, id, name, opening, now).accounts;
            && OneDefault(after) && (IsDefault(after, id) <==> t.accounts == map[])
            && forall a :: a in t.accounts ==> a in after && after[a] == t.accounts[a]
  {
  }

  /** A whole promotion leaves its account the only default; any other update grants
      nothing. No account comes or goes. */
  lemma UpdateKeepsOneDefault(t: State, id: Id, name: Option<string>, opening: Option<int>,
                              isDefault: Option<bool>, active: Option<bool>)
    requires OneDefault(t.accounts)
    ensures var after := UpdateAccount(t, id, name, opening, isDefault, active).state.accounts;
            && OneDefault(after) && after.Keys == t.accounts.Keys
            && (id in t.accounts && isDefault == Some(true) ==> IsDefault(after, id) && OnlyDefault(after, id))
            && (isDefault != Some(true) ==> forall a :: IsDefault(after, a) ==> IsDefault(t.accounts, a))
  {
  }

  /** The whole requests are their steps taken without interruption. */
  lemma WholeRequestsAreSteps(t: State, req: Id, id: Id, name: string, now: int, n: Option<string>, opening: int,
                              o: Option<int>, active: Option<bool>)
    requires req !in t.pending
    ensures FinishCreate(CountAccounts(t, req), req, id, name, opening, now) == CreateAccount(t, id, name, opening, now)
    ensures id in t.accounts ==>
              Promote(DemoteOthers(FindAccount(t, req, id).state, req), req, n, o, active) ==
              UpdateAccount(t, id, n, o, Some(true), active).state
  {
    assert t.pending[req := Counted(t.accounts == map[])] - {req} == t.pending;
    assert t.pending[req := Found(id)][req := OthersDemoted(id)] - {req} == t.pending;
  }

  /** A create that counted before others finished keeps the default unique exactly when
      it found an account or nothing is default by now. */
  lemma InsertOnStaleCount(t: State, req: Id, id: Id, name: string, opening: int, now: int)
    requires OneDefault(t.accounts) && id !in t.accounts && req in t.pending && t.pending[req].Counted?
    ensures OneDefault(FinishCreate(t, req, id, name, opening, now).accounts) <==>
            !t.pending[req].none || forall a :: a in t.accounts ==> !t.accounts[a].isDefault
  {
    var after := FinishCreate(t, req, id, name, opening, now).accounts;
    assert id in after && forall a :: a in t.accounts ==> a in after && after[a] == t.accounts[a];
  }

  /** A promotion that demoted before others finished keeps the default unique exactly
      when no other account is default by now, or its own is gone. */
  lemma PromoteOnStaleDemotion(t: State, req: Id, name: Option<string>, opening: Option<int>, active: Option<bool>)
    requires OneDefault(t.accounts) && req in t.pending && t.pending[req].OthersDemoted?
    ensures OneDefault(Promote(t, req, name, opening, active).accounts) <==>
            t.pending[req].accountId !in t.accounts || OnlyDefault(t.accounts, t.pending[req].accountId)
  {
    var x := t.pending[req].accountId;
    var after := Promote(t, req, name, opening, active).accounts;
    if x in t.accounts {
      assert after[x].isDefault && forall a :: a in t.accounts && a != x ==> a in after && after[a] == t.accounts[a];
    }
  }

  /** What a request in flight may still grant clashes with nothing: a create that found
      no account finds none default by now; a promotion past its demotion finds no other
      account default, or its own gone. */
  ghost predicate SafeRequest(accounts: map<Id, Account>, p: Pending) {
    match p
    case Counted(none) => none ==> forall a :: a in accounts ==> !accounts[a].isDefault
    case Found(_) => true
    case OthersDemoted(x) => x in accounts ==> OnlyDefault(accounts, x)
  }

  /** The requests that this step ends. */
  function Ends(t: State, t': State): set<Id> {
    t.pending.Keys - t'.pending.Keys
  }

  /** Every request that the step ends was safe in the state it was ended in. */
  ghost predicate EndsSafely(t: State, t': State) {
    forall r :: r in Ends(t, t') ==> SafeRequest(t.accounts, t.pending[r])
  }

  /** A step that ends no request grants nothing and brings no account. */
  lemma NoNewDefaults(t: State, a: Action)
    requires Enabled(t, a) && !a.DoFinishCreate? && !a.DoPromote?
    ensures var t' := Apply(t, a);
            && Ends(t, t') == {} && t'.accounts.Keys <= t.accounts.Keys
            && forall x :: IsDefault(t'.accounts, x) ==> IsDefault(t.accounts, x)
  {
  }

  lemma FewerDefaults(accounts: map<Id, Account>, accounts': map<Id, Account>)
    requires OneDefault(accounts) && forall x :: IsDefault(accounts', x) ==> IsDefault(accounts, x)
    ensures OneDefault(accounts')
  {
    assert forall a :: a in accounts' && accounts'[a].isDefault ==> IsDefault(accounts', a);
  }

  /** A step keeps the default unique exactly when each request it ends was safe before. */
  lemma StepKeepsUniqueIff(t: State, a: Action, used: set<Id>)
    requires IdsOf(t, used) && Enabled(t, a) && NewIds(a) !! used && OneDefault(t.accounts)
    ensures OneDefault(Apply(t, a).accounts) <==> EndsSafely(t, Apply(t, a))
  {
    match a
    case DoFinishCreate(req, id, name, opening, now) =>
      assert Ends(t, Apply(t, a)) == {req};
      InsertOnStaleCount(t, req, id, name, opening, now);
    case DoPromote(req, name, opening, active) =>
      assert Ends(t, Apply(t, a)) == {req};
      PromoteOnStaleDemotion(t, req, name, opening, active);
    case _ =>
      NoNewDefaults(t, a);
      FewerDefaults(t.accounts, Apply(t, a).accounts);
  }

  // ----- requests that do not overlap -----

  ghost predicate AtMostOnePending(t: State) {
    forall r, q :: r in t.pending && q in t.pending ==> r == q
  }

  ghost predicate PendingSafe(t: State) {
    forall r :: r in t.pending ==> SafeRequest(t.accounts, t.pending[r])
  }

  ghost predicate Serial(t: State) {
    OneDefault(t.accounts) && PendingSafe(t)
  }

  lemma SafeRequestStays(accounts: map<Id, Account>, accounts': map<Id, Account>, p: Pending)
    requires SafeRequest(accounts, p) && accounts'.Keys <= accounts.Keys
    requires forall x :: IsDefault(accounts', x) ==> IsDefault(accounts, x)
    ensures SafeRequest(accounts', p)
  {
    assert forall a :: a in accounts' && accounts'[a].isDefault ==> IsDefault(accounts', a);
  }

  lemma DefaultsShrink(t: State, t': State)
    requires Serial(t) && t'.accounts.Keys <= t.accounts.Keys
    requires forall a :: IsDefault(t'.accounts, a) ==> IsDefault(t.accounts, a)
    requires forall r :: r in t'.pending ==> r in t.pending && t'.pending[r] == t.pending[r]
    ensures Serial(t')
  {
    FewerDefaults(t.accounts, t'.accounts);
    forall r | r in t'.pending
      ensures SafeRequest(t'.accounts, t'.pending[r])
    {
      SafeRequestStays(t.accounts, t'.accounts, t.pending[r]);
    }
  }

  lemma StartsKeepSerial(t: State, a: Action)
    requires Serial(t) && Enabled(t, a) && AtMostOnePending(Apply(t, a))
    requires a.DoCountAccounts? || a.DoFindAccount?
    ensures Serial(Apply(t, a))
  {
    var t' := Apply(t, a);
    assert t'.accounts == t.accounts;
    forall r | r in t'.pending
      ensures SafeRequest(t'.accounts, t'.pending[r])
    {
    }
  }

  lemma DemotionKeepsSerial(t: State, req: Id)
    requires Serial(t) && AtMostOnePending(t) && req in t.pending && t.pending[req].Found?
    ensures Serial(DemoteOthers(t, req))
  {
    var t' := DemoteOthers(t, req);
    assert forall r :: r in t'.pending ==> r == req;
  }

  lemma FinishKeepsSerial(t: State, a: Action, used: set<Id>)
    requires Serial(t) && AtMostOnePending(t) && IdsOf(t, used) && Enabled(t, a) && NewIds(a) !! used
    requires a.DoFinishCreate? || a.DoPromote?
    ensures Serial(Apply(t, a))
  {
    var t' := Apply(t, a);
    assert t'.pending == t.pending - {a.req};
    assert forall r :: r !in t'.pending;
    StepKeepsUniqueIff(t, a, used);
  }

  /** While at most one create or promote request is in flight, every step keeps the
      default unique. */
  lemma SerialStep(t: State, a: Action, used: set<Id>)
    requires Serial(t) && IdsOf(t, used) && Enabled(t, a) && NewIds(a) !! used
    requires AtMostOnePending(t) && AtMostOnePending(Apply(t, a))
    ensures Serial(Apply(t, a))
  {
    if a.DoCountAccounts? || a.DoFindAccount? {
      StartsKeepSerial(t, a);
    } else if a.DoDemoteOthers? {
      DemotionKeepsSerial(t, a.req);
    } else if a.DoFinishCreate? || a.DoPromote? {
      FinishKeepsSerial(t, a, used);
    } else {
      NoNewDefaults(t, a);
      assert Apply(t, a).pending == t.pending;
      DefaultsShrink(t, Apply(t, a));
    }
  }
}
