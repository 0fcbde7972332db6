/** The treasury: bank accounts, the signed single-entry ledger, and the
    event-driven auto-posting protocol.

    An emitted event starts a handler. `autoPost` awaits between its dedupe check,
    the default-account read, the first-account read and the insert, so a handler
    is a phase machine and any other request or handler may run between two of its
    phases. A handler's id becomes the id of the row it inserts. Account requests
    that await between a read and a write that relies on it are split likewise:
    deletion between its row count and the delete, creation between its count and
    the insert, promotion between its lookup, the demotion of the others and the
    update. Every other request is one step. */
module Treasury {
  import opened Common

  datatype Origin = FromInvoice | FromPayroll | FromCost

  /** What an automatic row is for: `(sourceType, sourceId)`. */
  datatype Source = Source(origin: Origin, id: Id)

  datatype Direction = Inflow | Outflow

  datatype Category =
    | ClientPayment | Investment | Loan | Fuel | Salary | Maintenance | Toll | Insurance | Tax | General
    | Transfer | Other

  /** The argument of `autoPost`. */
  datatype Post = Post(source: Source, direction: Direction, amount: Cents, category: Category,
                       description: string, date: int, truckId: Option<Id>)

  /** A ledger row; `source` is `None` on manual rows. */
  datatype Row = Row(accountId: Id, date: int, direction: Direction, amount: Cents, category: Category,
                     description: string, truckId: Option<Id>, source: Option<Source>)

  datatype Account = Account(name: string, opening: int, isDefault: bool, active: bool, createdAt: int)

  datatype Phase = Emitted | NoDupe | NoDefault | Chosen(accountId: Id)

  datatype Handler = Handler(post: Post, phase: Phase)

  /** Why a post is neither on its way nor in the ledger. */
  datatype Reason = Duplicate | NoAccount | Failed | RowDeleted | RowCascaded

  /** What is owed to the ledger for a source. */
  datatype Due = Due(source: Source, direction: Direction, amount: Cents)

  datatype Ended = Ended(due: Due, reason: Reason)

  /** How far an account request that may grant the default has come. */
  datatype Pending = Counted(none: bool) | Found(accountId: Id) | OthersDemoted(accountId: Id)

  datatype State = State(
    accounts: map<Id, Account>,
    ledger: map<Id, Row>,
    handlers: map<Id, Handler>,  // events emitted whose handler has not returned
    deleting: set<Id>,           // accounts whose delete request has passed its count
    pending: map<Id, Pending>,   // create and promote requests, by request
    ended: map<Id, Ended>)       // bookkeeping of this model: posts that came to nothing

  datatype Error = AccountNotFound | AccountHasRows | RowNotFound | UnknownTruck

  datatype Outcome = Outcome(state: State, result: Result<(), Error>)

  function DueOf(p: Post): Due { Due(p.source, p.direction, p.amount) }

  function RowOf(p: Post, accountId: Id): Row {
    Row(accountId, p.date, p.direction, p.amount, p.category, p.description, p.truckId, Some(p.source))
  }

  function DueOfRow(r: Row): Due
    requires r.source.Some?
  {
    Due(r.source.value, r.direction, r.amount)
  }

  // ----- the auto-post handler, one function per awaited step -----

  function Emit(t: State, h: Id, p: Post): State {
    t.(handlers := t.handlers[h := Handler(p, Emitted)])
  }

  function End(t: State, h: Id, reason: Reason): State
    requires h in t.handlers
  {
    t.(handlers := t.handlers - {h}, ended := t.ended[h := Ended(DueOf(t.handlers[h].post), reason)])
  }

  function GoTo(t: State, h: Id, phase: Phase): State
    requires h in t.handlers
  {
    t.(handlers := t.handlers[h := t.handlers[h].(phase := phase)])
  }

  predicate Posted(t: State, s: Source) {
    exists r :: r in t.ledger && t.ledger[r].source == Some(s)
  }

  /** Idempotence check on `(sourceType, sourceId)`. */
  function DedupeCheck(t: State, h: Id): State
    requires h in t.handlers
  {
    if Posted(t, t.handlers[h].post.source) then End(t, h, Duplicate) else GoTo(t, h, NoDupe)
  }

  /** `findFirst` over default active accounts. */
  predicate IsDefaultRead(accounts: map<Id, Account>, found: Option<Id>) {
    match found
    case Some(a) => a in accounts && accounts[a].isDefault && accounts[a].active
    case None => forall a :: a in accounts ==> !(accounts[a].isDefault && accounts[a].active)
  }

  /** `findFirst` over active accounts, oldest first. */
  predicate IsFirstRead(accounts: map<Id, Account>, found: Option<Id>) {
    match found
    case Some(a) =>
      a in accounts && accounts[a].active &&
      forall b :: b in accounts && accounts[b].active ==> accounts[a].createdAt <= accounts[b].createdAt
    case None => forall a :: a in accounts ==> !accounts[a].active
  }

  function AfterDefaultRead(t: State, h: Id, found: Option<Id>): State
    requires h in t.handlers
  {
    match found
    case Some(a) => GoTo(t, h, Chosen(a))
    case None => GoTo(t, h, NoDefault)
  }

  function AfterFirstRead(t: State, h: Id, found: Option<Id>): State
    requires h in t.handlers
  {
    match found
    case Some(a) => GoTo(t, h, Chosen(a))
    case None => End(t, h, NoAccount)
  }

  /** The insert; the foreign key refuses a row for an account deleted meanwhile,
      and the handler swallows the error. */
  function InsertRow(t: State, h: Id): State
    requires h in t.handlers && t.handlers[h].phase.Chosen?
  {
    var a := t.handlers[h].phase.accountId;
    if a !in t.accounts then End(t, h, Failed)
    else t.(handlers := t.handlers - {h}, ledger := t.ledger[h := RowOf(t.handlers[h].post, a)])
  }

  // ----- requests on accounts -----

  /** Create request, first half: the first account becomes the default. */
  function CountAccounts(t: State, req: Id): State {
    t.(pending := t.pending[req := Counted(t.accounts == map[])])
  }

  /** The insert of a create; `countedNone` is what its count found before. */
  function InsertAccount(t: State, id: Id, name: string, opening: int, now: int, countedNone: bool): State {
    t.(accounts := t.accounts[id := Account(name, opening, countedNone, true, now)])
  }

  /** Create request, second half. */
  function FinishCreate(t: State, req: Id, id: Id, name: string, opening: int, now: int): State
    requires req in t.pending && t.pending[req].Counted?
  {
    InsertAccount(t, id, name, opening, now, t.pending[req].none).(pending := t.pending - {req})
  }

  /** A whole create request, uninterrupted. */
  function CreateAccount(t: State, id: Id, name: string, opening: int, now: int): State {
    InsertAccount(t, id, name, opening, now, t.accounts == map[])
  }

  function Demoted(accounts: map<Id, Account>, keep: Id): map<Id, Account> {
    map a | a in accounts :: if a == keep then accounts[a] else accounts[a].(isDefault := false)
  }

  function Or<T>(patch: Option<T>, old_: T): T {
    if patch.Some? then patch.value else old_
  }

  function Patched(a: Account, name: Option<string>, opening: Option<int>,
                   isDefault: Option<bool>, active: Option<bool>): Account {
    a.(name := Or(name, a.name), opening := Or(opening, a.opening),
       isDefault := Or(isDefault, a.isDefault), active := Or(active, a.active))
  }

  /** Promotion, first step: the account exists. */
  function FindAccount(t: State, req: Id, id: Id): Outcome {
    if id !in t.accounts then Outcome(t, Err(AccountNotFound))
    else Outcome(t.(pending := t.pending[req := Found(id)]), Ok(()))
  }

  /** Promotion, second step: the other accounts stop being default. */
  function DemoteOthers(t: State, req: Id): State
    requires req in t.pending && t.pending[req].Found?
  {
    var a := t.pending[req].accountId;
    t.(accounts := Demoted(t.accounts, a), pending := t.pending[req := OthersDemoted(a)])
  }

  /** Promotion, last step: the update fails if the account is gone by now. */
  function Promote(t: State, req: Id, name: Option<string>, opening: Option<int>, active: Option<bool>): State
    requires req in t.pending && t.pending[req].OthersDemoted?
  {
    var a := t.pending[req].accountId;
    if a !in t.accounts then t.(pending := t.pending - {req})
    else t.(accounts := t.accounts[a := Patched(t.accounts[a], name, opening, Some(true), active)],
            pending := t.pending - {req})
  }

  /** A whole update request, uninterrupted. */
  function UpdateAccount(t: State, id: Id, name: Option<string>, opening: Option<int>,
                         isDefault: Option<bool>, active: Option<bool>): Outcome {
    if id !in t.accounts then Outcome(t, Err(AccountNotFound))
    else
      var accounts := if isDefault == Some(true) then Demoted(t.accounts, id) else t.accounts;
      Outcome(t.(accounts := accounts[id := Patched(accounts[id], name, opening, isDefault, active)]), Ok(()))
  }

  function RowsOn(t: State, account: Id): set<Id> {
    set r | r in t.ledger && t.ledger[r].accountId == account
  }

  /** Delete request, first half: refuse unless the account has no rows. */
  function CountRows(t: State, id: Id): Outcome {
    if id !in t.accounts then Outcome(t, Err(AccountNotFound))
    else if RowsOn(t, id) != {} then Outcome(t, Err(AccountHasRows))
    else Outcome(t.(deleting := t.deleting + {id}), Ok(()))
  }

  function EndedRows(t: State, rows: set<Id>, reason: Reason): map<Id, Ended> {
    map r | r in rows && r in t.ledger && t.ledger[r].source.Some? :: Ended(DueOfRow(t.ledger[r]), reason)
  }

  /** Delete request, second half: the delete cascades to the account's rows. */
  function DeleteAccount(t: State, id: Id): State
    requires id in t.deleting
  {
    var gone := RowsOn(t, id);
    if id !in t.accounts then t.(deleting := t.deleting - {id})
    else t.(accounts := t.accounts - {id}, deleting := t.deleting - {id},
            ledger := t.ledger - gone, ended := t.ended + EndedRows(t, gone, RowCascaded))
  }

  // ----- requests on rows -----

  /** A manual row may name a truck; the empty id names none. */
  predicate TruckKnown(trucks: set<Id>, row: Row) {
    row.truckId.Some? && row.truckId.value != "" ==> row.truckId.value in trucks
  }

  /** A manual row never carries a source. */
  function CreateRow(t: State, trucks: set<Id>, id: Id, row: Row): Outcome {
    if row.accountId !in t.accounts then Outcome(t, Err(AccountNotFound))
    else if !TruckKnown(trucks, row) then Outcome(t, Err(UnknownTruck))
    else Outcome(t.(ledger := t.ledger[id := row.(source := None)]), Ok(()))
  }

  function RemoveRow(t: State, id: Id): Outcome {
    if id !in t.ledger then Outcome(t, Err(RowNotFound))
    else Outcome(t.(ledger := t.ledger - {id}, ended := t.ended + EndedRows(t, {id}, RowDeleted)), Ok(()))
  }

  // ----- one step of the treasury on its own -----

  datatype Action =
    | DoDedupe(h: Id)
    | DoDefaultRead(h: Id, found: Option<Id>)
    | DoFirstRead(h: Id, found: Option<Id>)
    | DoInsert(h: Id)
    | DoThrow(h: Id)
    | DoCountAccounts(req: Id)
    | DoFinishCreate(req: Id, id: Id, name: string, opening: int, now: int)
    | DoFindAccount(req: Id, id: Id)
    | DoDemoteOthers(req: Id)
    | DoPromote(req: Id, patchName: Option<string>, patchOpening: Option<int>, active: Option<bool>)
    | DoUpdateAccount(id: Id, patchName: Option<string>, patchOpening: Option<int>, isDefault: Option<bool>,
                      active: Option<bool>)
    | DoCountRows(id: Id)
    | DoDeleteAccount(id: Id)
    | DoCreateRow(trucks: set<Id>, id: Id, row: Row)  // with the trucks there are
    | DoRemoveRow(id: Id)

  ghost predicate Enabled(t: State, a: Action) {
    match a
    case DoDedupe(h) => h in t.handlers && t.handlers[h].phase == Emitted
    case DoDefaultRead(h, found) => h in t.handlers && t.handlers[h].phase == NoDupe && IsDefaultRead(t.accounts, found)
    case DoFirstRead(h, found) => h in t.handlers && t.handlers[h].phase == NoDefault && IsFirstRead(t.accounts, found)
    case DoInsert(h) => h in t.handlers && t.handlers[h].phase.Chosen?
    case DoThrow(h) => h in t.handlers
    case DoCountAccounts(req) => req !in t.pending
    case DoFinishCreate(req, _, _, _, _) => req in t.pending && t.pending[req].Counted?
    case DoFindAccount(req, _) => req !in t.pending
    case DoDemoteOthers(req) => req in t.pending && t.pending[req].Found?
    case DoPromote(req, _, _, _) => req in t.pending && t.pending[req].OthersDemoted?
    case DoUpdateAccount(_, _, _, isDefault, _) => isDefault != Some(true)
    case DoDeleteAccount(id) => id in t.deleting
    case _ => true
  }

  /** Ids an action introduces; they must be fresh. */
  function NewIds(a: Action): set<Id> {
    match a
    case DoFinishCreate(_, id, _, _, _) => {id}
    case DoCreateRow(_, id, _) => {id}
    case _ => {}
  }

  function Apply(t: State, a: Action): State
    requires Enabled(t, a)
  {
    match a
    case DoDedupe(h) => DedupeCheck(t, h)
    case DoDefaultRead(h, found) => AfterDefaultRead(t, h, found)
    case DoFirstRead(h, found) => AfterFirstRead(t, h, found)
    case DoInsert(h) => InsertRow(t, h)
    case DoThrow(h) => End(t, h, Failed)
    case DoCountAccounts(req) => CountAccounts(t, req)
    case DoFinishCreate(req, id, name, opening, now) => FinishCreate(t, req, id, name, opening, now)
    case DoFindAccount(req, id) => FindAccount(t, req, id).state
    case DoDemoteOthers(req) => DemoteOthers(t, req)
    case DoPromote(req, name, opening, active) => Promote(t, req, name, opening, active)
    case DoUpdateAccount(id, name, opening, isDefault, active) =>
      UpdateAccount(t, id, name, opening, isDefault, active).state
    case DoCountRows(id) => CountRows(t, id).state
    case DoDeleteAccount(id) => DeleteAccount(t, id)
    case DoCreateRow(trucks, id, row) => CreateRow(t, trucks, id, row).state
    case DoRemoveRow(id) => RemoveRow(t, id).state
  }

  // ----- where every post is -----

  function DueAt(t: State, k: Id): Option<Due> {
    if k in t.handlers then Some(DueOf(t.handlers[k].post))
    else if k in t.ended then Some(t.ended[k].due)
    else if k in t.ledger && t.ledger[k].source.Some? then Some(DueOfRow(t.ledger[k]))
    else None
  }

  /** Every post ever emitted, wherever it is now: on its way, in the ledger, or ended. */
  ghost function Dues(t: State): map<Id, Due> {
    map k | k in t.handlers.Keys + t.ledger.Keys + t.ended.Keys && DueAt(t, k).Some? :: DueAt(t, k).value
  }

  lemma DuesAt(t: State)
    ensures forall k :: k in Dues(t) <==> DueAt(t, k).Some?
    ensures forall k :: k in Dues(t) ==> Dues(t)[k] == DueAt(t, k).value
  {
  }

  lemma SameDues(t: State, t': State)
    requires forall k :: DueAt(t', k) == DueAt(t, k)
    ensures Dues(t') == Dues(t)
  {
    DuesAt(t);
    DuesAt(t');
  }

  /** A post is in one place at a time. */
  ghost predicate OnePlace(t: State) {
    && (forall k :: k in t.handlers ==> k !in t.ledger && k !in t.ended)
    && (forall k :: k in t.ended ==> k !in t.ledger)
  }

  ghost predicate OneDefault(accounts: map<Id, Account>) {
    forall a, b :: a in accounts && b in accounts && accounts[a].isDefault && accounts[b].isDefault ==> a == b
  }

  /** Every ledger row hangs on an existing account. */
  ghost predicate RowsHang(t: State) {
    forall r :: r in t.ledger ==> t.ledger[r].accountId in t.accounts
  }

  ghost predicate TreasuryInv(t: State) {
    OnePlace(t) && RowsHang(t)
  }

  predicate IdsOf(t: State, used: set<Id>) {
    t.handlers.Keys + t.ledger.Keys + t.ended.Keys + t.accounts.Keys <= used
  }

  /** `t'` keeps the invariant of `t` and every post of `t` as it was. */
  ghost predicate Preserves(t: State, t': State, used': set<Id>) {
    TreasuryInv(t') && IdsOf(t', used') && Dues(t') == Dues(t)
  }

  lemma EmitKeeps(t: State, h: Id, p: Post, used: set<Id>)
    requires TreasuryInv(t) && IdsOf(t, used) && h !in used
    ensures TreasuryInv(Emit(t, h, p)) && IdsOf(Emit(t, h, p), used + {h})
    ensures Dues(Emit(t, h, p)) == Dues(t)[h := DueOf(p)]
  {
    EmitDues(t, h, p);
  }

  lemma EmitDues(t: State, h: Id, p: Post)
    requires DueAt(t, h).None?
    ensures Dues(Emit(t, h, p)) == Dues(t)[h := DueOf(p)]
  {
    var t' := Emit(t, h, p);
    assert forall k :: k != h ==> DueAt(t', k) == DueAt(t, k);
    DuesAt(t);
    DuesAt(t');
  }

  lemma EndKeeps(t: State, h: Id, reason: Reason, used: set<Id>)
    requires TreasuryInv(t) && IdsOf(t, used) && h in t.handlers
    ensures Preserves(t, End(t, h, reason), used)
  {
    SameDues(t, End(t, h, reason));
  }

  lemma GoToKeeps(t: State, h: Id, phase: Phase, used: set<Id>)
    requires TreasuryInv(t) && IdsOf(t, used) && h in t.handlers
    ensures Preserves(t, GoTo(t, h, phase), used)
  {
    SameDues(t, GoTo(t, h, phase));
  }

  lemma InsertRowKeeps(t: State, h: Id, used: set<Id>)
    requires TreasuryInv(t) && IdsOf(t, used) && h in t.handlers && t.handlers[h].phase.Chosen?
    ensures Preserves(t, InsertRow(t, h), used)
  {
    if t.handlers[h].phase.accountId !in t.accounts {
      EndKeeps(t, h, Failed, used);
    } else {
      SameDues(t, InsertRow(t, h));
    }
  }

  /** Removing rows from the ledger moves their posts to the ended ones. */
  lemma RowsGoneMove(t: State, gone: set<Id>, reason: Reason, k: Id)
    requires OnePlace(t)
    ensures DueAt(t.(ledger := t.ledger - gone, ended := t.ended + EndedRows(t, gone, reason)), k) == DueAt(t, k)
  {
  }

  lemma RowsGoneKeep(t: State, gone: set<Id>, reason: Reason, used: set<Id>)
    requires TreasuryInv(t) && IdsOf(t, used)
    ensures Preserves(t, t.(ledger := t.ledger - gone, ended := t.ended + EndedRows(t, gone, reason)), used)
  {
    var t' := t.(ledger := t.ledger - gone, ended := t.ended + EndedRows(t, gone, reason));
    assert forall k :: k in t'.ended <==> k in t.ended || (k in gone && k in t.ledger && t.ledger[k].source.Some?);
    assert forall k :: k in t'.ledger <==> k in t.ledger && k !in gone;
    assert Dues(t') == Dues(t) by {
      forall k ensures DueAt(t', k) == DueAt(t, k) {
        RowsGoneMove(t, gone, reason, k);
      }
      SameDues(t, t');
    }
  }

  lemma DeleteAccountKeeps(t: State, id: Id, used: set<Id>)
    requires TreasuryInv(t) && IdsOf(t, used) && id in t.deleting
    ensures Preserves(t, DeleteAccount(t, id), used)
  {
    if id in t.accounts {
      var gone := RowsOn(t, id);
      RowsGoneKeep(t, gone, RowCascaded, used);
      var t1 := t.(ledger := t.ledger - gone, ended := t.ended + EndedRows(t, gone, RowCascaded));
      var t2 := DeleteAccount(t, id);
      assert t2 == t1.(accounts := t2.accounts, deleting := t2.deleting);
      SameDues(t1, t2);
    } else {
      SameDues(t, DeleteAccount(t, id));
    }
  }

  /** A request that only rewrites accounts touches no post. */
  lemma AccountsOnlyKeeps(t: State, t': State, used': set<Id>)
    requires TreasuryInv(t) && t'.handlers == t.handlers && t'.ledger == t.ledger && t'.ended == t.ended
    requires t.accounts.Keys <= t'.accounts.Keys && IdsOf(t', used')
    ensures Preserves(t, t', used')
  {
    SameDues(t, t');
  }

  predicate IsAccountRequest(a: Action) {
    || a.DoCountAccounts? || a.DoFinishCreate? || a.DoFindAccount? || a.DoDemoteOthers? || a.DoPromote?
    || a.DoUpdateAccount? || a.DoCountRows?
  }

  /** `t'` differs from `t` only in accounts and requests, and has the accounts `added`
      beside those of `t`. */
  predicate OnlyAccountsDiffer(t: State, t': State, added: set<Id>) {
    && t'.handlers == t.handlers && t'.ledger == t.ledger && t'.ended == t.ended
    && t'.accounts.Keys == t.accounts.Keys + added
  }

  lemma CreateShape(t: State, req: Id, id: Id, name: string, opening: int, now: int)
    requires req in t.pending && t.pending[req].Counted?
    ensures OnlyAccountsDiffer(t, FinishCreate(t, req, id, name, opening, now), {id})
  {
  }

  lemma PromotionShape(t: State, a: Action)
    requires Enabled(t, a) && (a.DoFindAccount? || a.DoDemoteOthers? || a.DoPromote?)
    ensures OnlyAccountsDiffer(t, Apply(t, a), {})
  {
  }

  /** Requests on accounts, but for the delete itself, touch neither rows nor handlers
      and drop no account. */
  lemma AccountRequestShape(t: State, a: Action)
    requires Enabled(t, a) && IsAccountRequest(a)
    ensures OnlyAccountsDiffer(t, Apply(t, a), NewIds(a))
  {
    match a
    case DoFinishCreate(req, id, name, opening, now) => CreateShape(t, req, id, name, opening, now);
    case DoFindAccount(_, _) => PromotionShape(t, a);
    case DoDemoteOthers(_) => PromotionShape(t, a);
    case DoPromote(_, _, _, _) => PromotionShape(t, a);
    case _ =>
  }

  /** Treasury steps start no handler. */
  lemma SameHandlers(t: State, a: Action, h: Id)
    requires Enabled(t, a) && h in Apply(t, a).handlers
    ensures h in t.handlers
  {
    if IsAccountRequest(a) {
      AccountRequestShape(t, a);
    }
  }

  /** Only the two account reads bring a handler to a phase that names what they found. */
  lemma SamePhase(t: State, a: Action, h: Id)
    requires Enabled(t, a) && h in t.handlers && h in Apply(t, a).handlers
    requires !((a.DoDefaultRead? || a.DoFirstRead?) && a.h == h)
    ensures Apply(t, a).handlers[h].phase == t.handlers[h].phase || Apply(t, a).handlers[h].phase == NoDupe
  {
    if IsAccountRequest(a) {
      AccountRequestShape(t, a);
    }
  }

  lemma AccountRequestKeeps(t: State, a: Action, used: set<Id>)
    requires TreasuryInv(t) && IdsOf(t, used) && Enabled(t, a) && IsAccountRequest(a)
    ensures Preserves(t, Apply(t, a), used + NewIds(a))
  {
    AccountRequestShape(t, a);
    AccountsOnlyKeeps(t, Apply(t, a), used + NewIds(a));
  }

  lemma CreateRowKeeps(t: State, trucks: set<Id>, id: Id, row: Row, used: set<Id>)
    requires TreasuryInv(t) && IdsOf(t, used) && id !in used
    ensures Preserves(t, CreateRow(t, trucks, id, row).state, used + {id})
  {
    SameDues(t, CreateRow(t, trucks, id, row).state);
  }

  /** No treasury step, in any interleaving, creates, loses or alters a post. */
  lemma ApplyKeeps(t: State, a: Action, used: set<Id>)
    requires TreasuryInv(t) && IdsOf(t, used) && Enabled(t, a) && NewIds(a) !! used
    ensures Preserves(t, Apply(t, a), used + NewIds(a))
  {
    match a
    case DoDedupe(h) => EndKeeps(t, h, Duplicate, used); GoToKeeps(t, h, NoDupe, used);
    case DoDefaultRead(h, found) => GoToKeeps(t, h, if found.Some? then Chosen(found.value) else NoDefault, used);
    case DoFirstRead(h, found) =>
      EndKeeps(t, h, NoAccount, used);
      if found.Some? {
        GoToKeeps(t, h, Chosen(found.value), used);
      }
    case DoInsert(h) => InsertRowKeeps(t, h, used);
    case DoThrow(h) => EndKeeps(t, h, Failed, used);
    case DoDeleteAccount(id) => DeleteAccountKeeps(t, id, used);
    case DoCreateRow(trucks, id, row) => CreateRowKeeps(t, trucks, id, row, used);
    case DoRemoveRow(id) => RowsGoneKeep(t, {id}, RowDeleted, used);
    case _ => AccountRequestKeeps(t, a, used);
  }
}
