/** The money side as one state machine: invoices, pay runs and costs emit paid
    and created events, treasury handlers post them, and operations rewrite trips
    underneath. A run is any interleaving of the steps below. */
module Erp {
  import opened Common
  import D = Documents
  import L = DocumentLaws
  import T = Treasury

  datatype Cost = Cost(truckId: Id, date: Day, category: CostCategory, amount: Cents, note: Option<string>)

  datatype CostCategory = Maintenance | Toll | Insurance | Tax | Repair | Other

  datatype State = State(
    trips: map<Id, Trip>,
    clients: map<Id, string>,
    trucks: map<Id, string>,
    billing: D.Book,
    payroll: D.Book,
    costs: map<Id, Cost>,
    treasury: T.State,
    recorded: map<Id, Cost>,  // bookkeeping of this model: every cost ever created
    used: set<Id>)            // bookkeeping of this model: every id ever generated

  /** `COST_TO_TX`: repair folds into maintenance. */
  function LedgerCategory(c: CostCategory): T.Category {
    match c
    case Maintenance => T.Maintenance
    case Toll => T.Toll
    case Insurance => T.Insurance
    case Tax => T.Tax
    case Repair => T.Maintenance
    case Other => T.Other
  }

  function OriginOf(kind: D.Kind): T.Origin {
    if kind.Billing? then T.FromInvoice else T.FromPayroll
  }

  /** The post a paid invoice or run asks for. */
  function PaidPost(kind: D.Kind, id: Id, doc: D.Doc, clients: map<Id, string>): T.Post
    requires doc.paidAt.Some?
  {
    var source := T.Source(OriginOf(kind), id);
    if doc.Invoice? then
      var name := if doc.clientId in clients then clients[doc.clientId] else "";
      T.Post(source, T.Inflow, doc.total, T.ClientPayment, doc.number + " · " + name, doc.paidAt.value, None)
    else
      T.Post(source, T.Outflow, doc.total, T.Salary, doc.number, doc.paidAt.value, None)
  }

  function CostPost(id: Id, c: Cost, truckCode: string): T.Post {
    T.Post(T.Source(T.FromCost, id), T.Outflow, c.amount, LedgerCategory(c.category),
           truckCode + (if c.note.Some? && c.note.value != "" then " · " + c.note.value else ""),
           c.date, Some(c.truckId))
  }

  function BookOf(s: State, kind: D.Kind): D.Book {
    if kind.Billing? then s.billing else s.payroll
  }

  function WithBook(s: State, kind: D.Kind, b: D.Book): State {
    if kind.Billing? then s.(billing := b) else s.(payroll := b)
  }

  // ----- steps -----

  /** `h` is the id reserved for the handler of the event a step may emit. */
  datatype Action =
    | Operate(trips: map<Id, Trip>, clients: map<Id, string>, trucks: map<Id, string>)
    | Document(kind: D.Kind, step: D.Action, h: Id)
    | CreateCost(id: Id, cost: Cost, h: Id)
    | RemoveCost(id: Id)
    | Cash(treasuryStep: T.Action)

  /** When an action can happen. Trips, clients and trucks may be rewritten at any
      time and in any way; generated ids are fresh. */
  ghost predicate Enabled(s: State, a: Action) {
    match a
    case Operate(_, _, _) => true
    case Document(kind, d, h) =>
      D.Enabled(BookOf(s, kind), s.trips, d) && D.NewIds(d) !! s.used && h !in s.used && h !in D.NewIds(d)
    case CreateCost(id, cost, h) => id !in s.used && h !in s.used && id != h
    case RemoveCost(_) => true
    case Cash(c) =>
      T.Enabled(s.treasury, c) && T.NewIds(c) !! s.used && (c.DoCreateRow? ==> c.trucks == s.trucks.Keys)
  }

  function Apply(s: State, a: Action): State
    requires Enabled(s, a)
  {
    match a
    case Operate(trips, clients, trucks) => s.(trips := trips, clients := clients, trucks := trucks)
    case Document(kind, d, h) => ApplyDocument(s, kind, d, h)
    case CreateCost(id, cost, h) => ApplyCost(s, id, cost, h)
    case RemoveCost(id) => s.(costs := s.costs - {id})
    case Cash(c) => s.(treasury := T.Apply(s.treasury, c), used := s.used + T.NewIds(c))
  }

  /** A step on invoices or runs, and the event when it enters paid. */
  function ApplyDocument(s: State, kind: D.Kind, d: D.Action, h: Id): State
    requires D.Enabled(BookOf(s, kind), s.trips, d)
  {
    Commit(s, kind, d, h, D.Apply(BookOf(s, kind), s.trips, s.clients.Keys, d))
  }

  /** Stores the stepped book and emits what it has to. */
  function Commit(s: State, kind: D.Kind, d: D.Action, h: Id, b': D.Book): State {
    var s' := WithBook(s, kind, b').(used := s.used + D.NewIds(d) + {h});
    if D.Pays(BookOf(s, kind), d) && d.id in b'.docs && b'.docs[d.id].paidAt.Some? then
      s'.(treasury := T.Emit(s.treasury, h, PaidPost(kind, d.id, b'.docs[d.id], s.clients)))
    else s'
  }

  /** A cost emits once, when it is created; an unknown truck is refused. */
  function ApplyCost(s: State, id: Id, cost: Cost, h: Id): State {
    if cost.truckId !in s.trucks then s
    else s.(costs := s.costs[id := cost], recorded := s.recorded[id := cost], used := s.used + {id, h},
            treasury := T.Emit(s.treasury, h, CostPost(id, cost, s.trucks[cost.truckId])))
  }

  ghost predicate Step(s: State, s': State) {
    exists a :: Enabled(s, a) && s' == Apply(s, a)
  }

  ghost predicate Init(s: State) {
    && s.billing == D.Book(D.Billing, map[], D.Idle)
    && s.payroll == D.Book(D.Payroll, map[], D.Idle)
    && s.costs == map[] && s.recorded == map[] && s.used == {}
    && s.treasury == T.State(map[], map[], map[], {}, map[], map[])
  }

  ghost predicate StepAt(trace: seq<State>, i: int) {
    0 <= i < |trace| - 1 && Step(trace[i], trace[i + 1])
  }

  ghost predicate IsRun(trace: seq<State>) {
    && trace != [] && Init(trace[0])
    && forall i {:trigger StepAt(trace, i)} :: 0 <= i < |trace| - 1 ==> StepAt(trace, i)
  }

  /** What an action makes of one of the two books. */
  lemma BookAfter(s: State, a: Action, kind: D.Kind)
    requires Enabled(s, a)
    ensures s.used <= Apply(s, a).used
    ensures BookOf(Apply(s, a), kind) ==
            if a.Document? && a.kind == kind then D.Apply(BookOf(s, kind), s.trips, s.clients.Keys, a.step)
            else BookOf(s, kind)
  {
    if a.Document? {
      BookAfterDocument(s, a.kind, a.step, a.h, kind);
    }
  }

  lemma BookAfterDocument(s: State, k: D.Kind, d: D.Action, h: Id, kind: D.Kind)
    requires D.Enabled(BookOf(s, k), s.trips, d)
    ensures s.used <= ApplyDocument(s, k, d, h).used
    ensures BookOf(ApplyDocument(s, k, d, h), kind) ==
            if k == kind then D.Apply(BookOf(s, k), s.trips, s.clients.Keys, d) else BookOf(s, kind)
  {
    BookAfterCommit(s, k, d, h, D.Apply(BookOf(s, k), s.trips, s.clients.Keys, d), kind);
  }

  lemma BookAfterCommit(s: State, k: D.Kind, d: D.Action, h: Id, b': D.Book, kind: D.Kind)
    ensures s.used <= Commit(s, k, d, h, b').used
    ensures BookOf(Commit(s, k, d, h, b'), kind) == if k == kind then b' else BookOf(s, kind)
  {
  }

  // ----- the invariant -----

  /** What the documents say the ledger owes a source, if anything: paid invoices
      and runs, and every cost ever created. */
  function Owed(invoices: map<Id, int>, runs: map<Id, int>, costs: map<Id, int>,
                source: T.Source): Option<(T.Direction, int)> {
    match source.origin
    case FromInvoice => if source.id in invoices then Some((T.Inflow, invoices[source.id])) else None
    case FromPayroll => if source.id in runs then Some((T.Outflow, runs[source.id])) else None
    case FromCost => if source.id in costs then Some((T.Outflow, costs[source.id])) else None
  }

  /** The posts and what is owed match one to one, with the same amounts. */
  ghost predicate Settled(invoices: map<Id, int>, runs: map<Id, int>, costs: map<Id, int>, dues: map<Id, T.Due>) {
    && (forall k :: k in dues ==>
          Owed(invoices, runs, costs, dues[k].source) == Some((dues[k].direction, dues[k].amount)))
    && (forall src :: Owed(invoices, runs, costs, src).Some? ==> exists k :: k in dues && dues[k].source == src)
    && (forall k, k' :: k in dues && k' in dues && dues[k].source == dues[k'].source ==> k == k')
  }

  function CostAmounts(costs: map<Id, Cost>): map<Id, int> {
    map id | id in costs :: costs[id].amount
  }

  ghost predicate AllSettled(s: State) {
    Settled(L.PaidTotals(s.billing.docs), L.PaidTotals(s.payroll.docs), CostAmounts(s.recorded), T.Dues(s.treasury))
  }

  ghost predicate IdsUsed(s: State) {
    && s.billing.docs.Keys <= s.used && s.payroll.docs.Keys <= s.used && s.recorded.Keys <= s.used
    && T.IdsOf(s.treasury, s.used)
  }

  ghost predicate BooksOk(s: State) {
    && s.billing.kind == D.Billing && D.BookInv(s.billing)
    && s.payroll.kind == D.Payroll && D.BookInv(s.payroll)
  }

  ghost predicate Inv(s: State) {
    BooksOk(s) && T.TreasuryInv(s.treasury) && IdsUsed(s) && AllSettled(s)
  }

  // ----- every step keeps the invariant -----

  /** One source becomes owed and its post is emitted, in the same step. */
  lemma SettledGrows(invoices: map<Id, int>, runs: map<Id, int>, costs: map<Id, int>, dues: map<Id, T.Due>,
                     invoices': map<Id, int>, runs': map<Id, int>, costs': map<Id, int>, h: Id, due: T.Due)
    requires Settled(invoices, runs, costs, dues) && h !in dues
    requires Owed(invoices, runs, costs, due.source).None?
    requires Owed(invoices', runs', costs', due.source) == Some((due.direction, due.amount))
    requires forall src :: src != due.source ==> Owed(invoices', runs', costs', src) == Owed(invoices, runs, costs, src)
    ensures Settled(invoices', runs', costs', dues[h := due])
  {
    var dues' := dues[h := due];
    forall src | Owed(invoices', runs', costs', src).Some?
      ensures exists k :: k in dues' && dues'[k].source == src
    {
      if src == due.source {
        assert dues'[h].source == src;
      } else {
        var k :| k in dues && dues[k].source == src;
        assert dues'[k].source == src;
      }
    }
    assert forall k :: k in dues ==> dues[k].source != due.source;
  }

  lemma DuesUsed(t: T.State, used: set<Id>)
    requires T.IdsOf(t, used)
    ensures T.Dues(t).Keys <= used
  {
  }

  /** Ids may only be added to the used ones. */
  lemma MoreUsed(t: T.State, used: set<Id>, used': set<Id>)
    requires T.IdsOf(t, used) && used <= used'
    ensures T.IdsOf(t, used')
  {
  }

  lemma PaidSettles(i: map<Id, int>, r: map<Id, int>, c: map<Id, int>, dues: map<Id, T.Due>, kind: D.Kind, id: Id,
                    h: Id, due: T.Due)
    requires Settled(i, r, c, dues) && h !in dues
    requires due.source == T.Source(OriginOf(kind), id)
    requires due.direction == if kind.Billing? then T.Inflow else T.Outflow
    requires id !in if kind.Billing? then i else r
    ensures kind.Billing? ==> Settled(i[id := due.amount], r, c, dues[h := due])
    ensures kind.Payroll? ==> Settled(i, r[id := due.amount], c, dues[h := due])
  {
    if kind.Billing? {
      SettledGrows(i, r, c, dues, i[id := due.amount], r, c, h, due);
    } else {
      SettledGrows(i, r, c, dues, i, r[id := due.amount], c, h, due);
    }
  }

  lemma DocumentStepKeeps(s: State, kind: D.Kind, d: D.Action, h: Id)
    requires Inv(s) && Enabled(s, Document(kind, d, h))
    ensures Inv(ApplyDocument(s, kind, d, h))
  {
    var b := BookOf(s, kind);
    var b' := D.Apply(b, s.trips, s.clients.Keys, d);
    var used' := s.used + D.NewIds(d) + {h};
    L.ApplyKeeps(b, s.trips, s.clients.Keys, d, s.used);
    L.ApplyPays(b, s.trips, s.clients.Keys, d);
    if D.Pays(b, d) {
      KindKept(b, b', d.id);
      PaidStepKeeps(s, kind, d.id, b', h, PaidPost(kind, d.id, b'.docs[d.id], s.clients), used');
    } else {
      QuietStepKeeps(s, kind, b', used');
    }
  }

  /** A step that pays nothing leaves what is owed as it was. */
  lemma QuietStepKeeps(s: State, kind: D.Kind, b: D.Book, used': set<Id>)
    requires Inv(s) && D.BookInv(b) && b.kind == kind && s.used <= used' && b.docs.Keys <= used'
    requires L.PaidTotals(b.docs) == L.PaidTotals(BookOf(s, kind).docs)
    ensures Inv(WithBook(s, kind, b).(used := used'))
  {
    MoreUsed(s.treasury, s.used, used');
  }

  lemma KindKept(b: D.Book, b': D.Book, id: Id)
    requires D.BookInv(b) && D.BookInv(b') && id in b.docs && id in b'.docs
    ensures b.docs[id].Invoice? <==> b.kind.Billing?
    ensures b'.docs[id].Invoice? <==> b'.kind.Billing?
  {
    assert D.DocOk(b.kind, b.docs[id]) && D.DocOk(b'.kind, b'.docs[id]);
  }

  /** Entering paid: the book owes one more total and the post is on its way. */
  lemma PaidStepKeeps(s: State, kind: D.Kind, id: Id, b: D.Book, h: Id, p: T.Post, used': set<Id>)
    requires Inv(s) && D.BookInv(b) && b.kind == kind && h !in s.used && s.used + {h} <= used'
    requires b.docs.Keys <= used' && id !in L.PaidTotals(BookOf(s, kind).docs)
    requires p.source == T.Source(OriginOf(kind), id) && p.direction == if kind.Billing? then T.Inflow else T.Outflow
    requires L.PaidTotals(b.docs) == L.PaidTotals(BookOf(s, kind).docs)[id := p.amount]
    ensures Inv(WithBook(s, kind, b).(treasury := T.Emit(s.treasury, h, p), used := used'))
  {
    T.EmitKeeps(s.treasury, h, p, s.used);
    MoreUsed(T.Emit(s.treasury, h, p), s.used + {h}, used');
    DuesUsed(s.treasury, s.used);
    PaidSettles(L.PaidTotals(s.billing.docs), L.PaidTotals(s.payroll.docs), CostAmounts(s.recorded),
                T.Dues(s.treasury), kind, id, h, T.DueOf(p));
  }

  lemma CostSettles(i: map<Id, int>, r: map<Id, int>, c: map<Id, int>, dues: map<Id, T.Due>, id: Id, h: Id, due: T.Due)
    requires Settled(i, r, c, dues) && h !in dues && id !in c
    requires due.source == T.Source(T.FromCost, id) && due.direction == T.Outflow
    ensures Settled(i, r, c[id := due.amount], dues[h := due])
  {
    SettledGrows(i, r, c, dues, i, r, c[id := due.amount], h, due);
  }

  lemma CostStepKeeps(s: State, id: Id, cost: Cost, h: Id)
    requires Inv(s) && id !in s.used && h !in s.used && id != h
    ensures Inv(ApplyCost(s, id, cost, h))
  {
    if cost.truckId in s.trucks {
      T.EmitKeeps(s.treasury, h, CostPost(id, cost, s.trucks[cost.truckId]), s.used);
      CostSettled(s, id, cost, h, CostPost(id, cost, s.trucks[cost.truckId]));
      MoreUsed(T.Emit(s.treasury, h, CostPost(id, cost, s.trucks[cost.truckId])), s.used + {h}, s.used + {id, h});
    }
  }

  lemma CostSettled(s: State, id: Id, cost: Cost, h: Id, p: T.Post)
    requires AllSettled(s) && IdsUsed(s) && T.TreasuryInv(s.treasury) && id !in s.used && h !in s.used
    requires p.source == T.Source(T.FromCost, id) && p.direction == T.Outflow && p.amount == cost.amount
    ensures Settled(L.PaidTotals(s.billing.docs), L.PaidTotals(s.payroll.docs), CostAmounts(s.recorded[id := cost]),
                    T.Dues(T.Emit(s.treasury, h, p)))
  {
    T.EmitKeeps(s.treasury, h, p, s.used);
    DuesUsed(s.treasury, s.used);
    CostSettles(L.PaidTotals(s.billing.docs), L.PaidTotals(s.payroll.docs), CostAmounts(s.recorded),
                T.Dues(s.treasury), id, h, T.DueOf(p));
    assert CostAmounts(s.recorded[id := cost]) == CostAmounts(s.recorded)[id := cost.amount];
  }

  lemma CashStepKeeps(s: State, c: T.Action)
    requires Inv(s) && Enabled(s, Cash(c))
    ensures Inv(Apply(s, Cash(c)))
  {
    T.ApplyKeeps(s.treasury, c, s.used);
  }

  lemma StepKeeps(s: State, a: Action)
    requires Inv(s) && Enabled(s, a)
    ensures Inv(Apply(s, a))
  {
    match a
    case Operate(_, _, _) =>
    case Document(kind, d, h) => DocumentStepKeeps(s, kind, d, h);
    case CreateCost(id, cost, h) => CostStepKeeps(s, id, cost, h);
    case RemoveCost(_) =>
    case Cash(c) => CashStepKeeps(s, c);
  }

  /** Every state of every run satisfies the invariant. */
  lemma InitOk(s: State)
    requires Init(s)
    ensures Inv(s)
  {
    assert T.Dues(s.treasury) == map[];
  }

  lemma AnyStepKeeps(s: State, s': State)
    requires Inv(s) && Step(s, s')
    ensures Inv(s')
  {
    var a :| Enabled(s, a) && s' == Apply(s, a);
    StepKeeps(s, a);
  }

  lemma {:induction false} RunKeeps(trace: seq<State>, i: nat)
    requires IsRun(trace) && i < |trace|
    ensures Inv(trace[i])
  {
    if i == 0 {
      InitOk(trace[0]);
    } else {
      RunKeeps(trace, i - 1);
      assert StepAt(trace, i - 1);
      AnyStepKeeps(trace[i - 1], trace[i]);
    }
  }
}
