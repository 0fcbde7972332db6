/** What the automatic ledger rows hold, field by field, over every run. */
module PostContents {
  import opened Common
  import D = Documents
  import L = DocumentLaws
  import T = Treasury
  import opened Erp
  import opened ErpTheorems

  // ----- what an event asks for -----

  /** The category a cost is posted under: repair counts as maintenance, and every other
      category keeps its name. */
  predicate PostedUnder(c: CostCategory, t: T.Category) {
    && (t == T.Maintenance <==> c == Maintenance || c == Repair)
    && (t == T.Toll <==> c == Toll) && (t == T.Insurance <==> c == Insurance)
    && (t == T.Tax <==> c == Tax) && (t == T.Other <==> c == Other)
  }

  predicate AsksForCost(p: T.Post, id: Id, cost: Cost, truckCode: string) {
    && p.source == T.Source(T.FromCost, id) && p.direction == T.Outflow && p.amount == cost.amount
    && PostedUnder(cost.category, p.category) && p.date == cost.date && p.truckId == Some(cost.truckId)
    && p.description == if cost.note == None || cost.note == Some("") then truckCode
                        else truckCode + " · " + cost.note.value
  }

  /** A payment is dated when the document was paid and named after its number, and for an
      invoice after its client too. */
  predicate AsksForPayment(p: T.Post, kind: D.Kind, id: Id, d: D.Doc, clients: map<Id, string>, at: int) {
    && p.amount == d.total && p.date == at && p.truckId == None
    && match kind
       case Billing =>
         && d.Invoice? && p.source == T.Source(T.FromInvoice, id)
         && p.direction == T.Inflow && p.category == T.ClientPayment
         && p.description == d.number + " · " + if d.clientId in clients then clients[d.clientId] else ""
       case Payroll =>
         && d.PayRun? && p.source == T.Source(T.FromPayroll, id)
         && p.direction == T.Outflow && p.category == T.Salary && p.description == d.number
  }

  lemma PaidPostAsks(kind: D.Kind, id: Id, d: D.Doc, clients: map<Id, string>)
    requires d.paidAt.Some? && (d.Invoice? <==> kind.Billing?)
    ensures AsksForPayment(PaidPost(kind, id, d, clients), kind, id, d, clients, d.paidAt.value)
  {
  }

  lemma CostPostAsks(id: Id, cost: Cost, truckCode: string)
    ensures AsksForCost(CostPost(id, cost, truckCode), id, cost, truckCode)
  {
  }

  /** What creating a cost changes: with a known truck the cost is stored and recorded and
      one handler starts; otherwise nothing changes. */
  lemma CostStep(s: State, id: Id, cost: Cost, h: Id)
    ensures var s' := ApplyCost(s, id, cost, h);
            if cost.truckId !in s.trucks then s' == s
            else
              && s'.costs == s.costs[id := cost] && s'.recorded == s.recorded[id := cost]
              && s'.billing == s.billing && s'.payroll == s.payroll && s'.trips == s.trips
              && s'.clients == s.clients && s'.trucks == s.trucks
              && s'.treasury == s.treasury.(handlers := s'.treasury.handlers)
              && s'.treasury.handlers.Keys == s.treasury.handlers.Keys + {h}
              && (forall k :: k in s.treasury.handlers && k != h ==>
                    s'.treasury.handlers[k] == s.treasury.handlers[k])
              && s'.treasury.handlers[h].phase == T.Emitted
              && AsksForCost(s'.treasury.handlers[h].post, id, cost, s.trucks[cost.truckId])
  {
  }

  /** Removing a cost touches neither the ledger nor what was recorded. */
  lemma RemoveCostStep(s: State, id: Id)
    ensures var s' := Apply(s, RemoveCost(id));
            && id !in s'.costs && (forall k :: k in s.costs && k != id ==> k in s'.costs && s'.costs[k] == s.costs[k])
            && s'.costs.Keys <= s.costs.Keys && s'.treasury == s.treasury && s'.recorded == s.recorded
  {
  }

  /** What a manual entry changes: with a known account, and a known truck if it names one,
      its row is added without a source; otherwise nothing changes. */
  lemma EntryStep(s: State, trucks: set<Id>, id: Id, row: T.Row)
    requires Enabled(s, Cash(T.DoCreateRow(trucks, id, row)))
    ensures var s' := Apply(s, Cash(T.DoCreateRow(trucks, id, row)));
            && s'.treasury == s.treasury.(ledger := s'.treasury.ledger)
            && if row.accountId in s.treasury.accounts
                  && (row.truckId == None || row.truckId == Some("") || row.truckId.value in s.trucks)
               then s'.treasury.ledger == s.treasury.ledger[id := row.(source := None)]
               else s'.treasury.ledger == s.treasury.ledger
  {
  }

  // ----- where the posts of a run come from -----

  /** The step from `k` asked for `p`: it paid a document or created a cost. */
  ghost predicate Asked(trace: seq<State>, k: nat, p: T.Post) {
    && k + 1 < |trace|
    && match p.source.origin
       case FromInvoice => PaidAt(trace, k, D.Billing, p)
       case FromPayroll => PaidAt(trace, k, D.Payroll, p)
       case FromCost => CostedAt(trace, k, p)
  }

  ghost predicate PaidAt(trace: seq<State>, k: nat, kind: D.Kind, p: T.Post)
    requires k + 1 < |trace|
  {
    var id := p.source.id;
    && id in DocsAt(trace, kind, k) && DocsAt(trace, kind, k)[id].status != D.Paid
    && id in DocsAt(trace, kind, k + 1) && DocsAt(trace, kind, k + 1)[id].status == D.Paid
    && DocsAt(trace, kind, k + 1)[id].paidAt.Some?
    && AsksForPayment(p, kind, id, DocsAt(trace, kind, k + 1)[id], trace[k].clients,
                      DocsAt(trace, kind, k + 1)[id].paidAt.value)
  }

  ghost predicate CostedAt(trace: seq<State>, k: nat, p: T.Post)
    requires k + 1 < |trace|
  {
    var id := p.source.id;
    && id !in trace[k].recorded && id in trace[k + 1].recorded
    && trace[k + 1].recorded[id].truckId in trace[k].trucks
    && AsksForCost(p, id, trace[k + 1].recorded[id], trace[k].trucks[trace[k + 1].recorded[id].truckId])
  }

  /** The row holds what the post asks for. */
  predicate Holds(r: T.Row, p: T.Post) {
    && r.source == Some(p.source) && r.direction == p.direction && r.amount == p.amount
    && r.category == p.category && r.description == p.description && r.date == p.date && r.truckId == p.truckId
  }

  /** A handler of the step's outcome had its post before, and a sourced row was there
      before or holds the post of a handler. */
  ghost predicate PostsStay(t: T.State, t': T.State) {
    && (forall h :: h in t'.handlers ==> h in t.handlers && t'.handlers[h].post == t.handlers[h].post)
    && (forall r :: r in t'.ledger && t'.ledger[r].source.Some? ==>
          || (r in t.ledger && t'.ledger[r] == t.ledger[r])
          || (r in t.handlers && Holds(t'.ledger[r], t.handlers[r].post)))
  }

  lemma HandlerKeepsPosts(t: T.State, c: T.Action)
    requires T.Enabled(t, c) && (c.DoDedupe? || c.DoDefaultRead? || c.DoFirstRead? || c.DoInsert? || c.DoThrow?)
    ensures PostsStay(t, T.Apply(t, c))
  {
  }

  lemma CashKeepsPosts(t: T.State, c: T.Action)
    requires T.Enabled(t, c)
    ensures PostsStay(t, T.Apply(t, c))
  {
    if T.IsAccountRequest(c) {
      T.AccountRequestShape(t, c);
    } else if c.DoDedupe? || c.DoDefaultRead? || c.DoFirstRead? || c.DoInsert? || c.DoThrow? {
      HandlerKeepsPosts(t, c);
    }
  }

  /** The new handler of a step that is no treasury step, if any, was asked for by it. */
  lemma PaymentAsked(trace: seq<State>, k: nat, kind: D.Kind, d: D.Action, h: Id)
    requires IsRun(trace) && k + 1 < |trace| && Enabled(trace[k], Document(kind, d, h))
    requires trace[k + 1] == Apply(trace[k], Document(kind, d, h))
    ensures forall j :: j in trace[k + 1].treasury.handlers ==>
              || (j in trace[k].treasury.handlers && trace[k + 1].treasury.handlers[j] == trace[k].treasury.handlers[j])
              || Asked(trace, k, trace[k + 1].treasury.handlers[j].post)
    ensures trace[k + 1].treasury.ledger == trace[k].treasury.ledger
  {
    var s := trace[k];
    BookOk(trace, k, kind);
    BookOk(trace, k + 1, kind);
    var b' := D.Apply(BookOf(s, kind), s.trips, s.clients.Keys, d);
    BookAfterCommit(s, kind, d, h, b', kind);
    if D.Pays(BookOf(s, kind), d) {
      L.ApplyPays(BookOf(s, kind), s.trips, s.clients.Keys, d);
      assert D.DocOk(kind, b'.docs[d.id]) && D.DocOk(kind, BookOf(s, kind).docs[d.id]);
      PaidPostAsks(kind, d.id, b'.docs[d.id], s.clients);
      assert PaidAt(trace, k, kind, PaidPost(kind, d.id, b'.docs[d.id], s.clients));
    }
  }

  lemma CostAsked(trace: seq<State>, k: nat, id: Id, cost: Cost, h: Id)
    requires IsRun(trace) && k + 1 < |trace| && Enabled(trace[k], CreateCost(id, cost, h))
    requires trace[k + 1] == Apply(trace[k], CreateCost(id, cost, h))
    ensures forall j :: j in trace[k + 1].treasury.handlers ==>
              || (j in trace[k].treasury.handlers && trace[k + 1].treasury.handlers[j] == trace[k].treasury.handlers[j])
              || Asked(trace, k, trace[k + 1].treasury.handlers[j].post)
    ensures trace[k + 1].treasury.ledger == trace[k].treasury.ledger
  {
    RunKeeps(trace, k);
    if cost.truckId in trace[k].trucks {
      CostPostAsks(id, cost, trace[k].trucks[cost.truckId]);
      assert CostedAt(trace, k, CostPost(id, cost, trace[k].trucks[cost.truckId]));
    }
  }

  /** Every handler in flight and every automatic row goes back to a step that asked for it. */
  ghost predicate HandlerAsked(trace: seq<State>, n: nat, h: Id)
    requires n < |trace| && h in trace[n].treasury.handlers
  {
    exists k: nat :: k < n && Asked(trace, k, trace[n].treasury.handlers[h].post)
  }

  ghost predicate RowAsked(trace: seq<State>, n: nat, r: Id)
    requires n < |trace| && r in trace[n].treasury.ledger
  {
    exists k: nat, p :: k < n && Asked(trace, k, p) && Holds(trace[n].treasury.ledger[r], p)
  }

  ghost predicate AllAsked(trace: seq<State>, n: nat)
    requires n < |trace|
  {
    && (forall h :: h in trace[n].treasury.handlers ==> HandlerAsked(trace, n, h))
    && (forall r :: r in trace[n].treasury.ledger && trace[n].treasury.ledger[r].source.Some? ==> RowAsked(trace, n, r))
  }

  /** What one step of a run does to handlers and rows: what is asked for was asked for
      before, or by this step. */
  ghost predicate StepAsks(trace: seq<State>, k: nat)
    requires k + 1 < |trace|
  {
    var t, t' := trace[k].treasury, trace[k + 1].treasury;
    && (forall h :: h in t'.handlers ==>
          (h in t.handlers && t'.handlers[h].post == t.handlers[h].post) || Asked(trace, k, t'.handlers[h].post))
    && (forall r :: r in t'.ledger && t'.ledger[r].source.Some? ==>
          || (r in t.ledger && t'.ledger[r] == t.ledger[r])
          || (r in t.handlers && Holds(t'.ledger[r], t.handlers[r].post)))
  }

  lemma EachStepAsks(trace: seq<State>, k: nat)
    requires IsRun(trace) && k + 1 < |trace|
    ensures StepAsks(trace, k)
  {
    assert StepAt(trace, k);
    var a :| Enabled(trace[k], a) && trace[k + 1] == Apply(trace[k], a);
    match a
    case Operate(_, _, _) =>
    case Document(kind, d, h) => PaymentAsked(trace, k, kind, d, h);
    case CreateCost(id, cost, h) => CostAsked(trace, k, id, cost, h);
    case RemoveCost(_) =>
    case Cash(c) => CashKeepsPosts(trace[k].treasury, c);
  }

  lemma AskedStays(trace: seq<State>, n: nat)
    requires IsRun(trace) && n + 1 < |trace| && AllAsked(trace, n)
    ensures AllAsked(trace, n + 1)
  {
    EachStepAsks(trace, n);
    var t, t' := trace[n].treasury, trace[n + 1].treasury;
    forall h | h in t'.handlers
      ensures HandlerAsked(trace, n + 1, h)
    {
      HandlerStays(trace, n, h);
    }
    forall r | r in t'.ledger && t'.ledger[r].source.Some?
      ensures RowAsked(trace, n + 1, r)
    {
      RowStays(trace, n, r);
    }
  }

  lemma HandlerStays(trace: seq<State>, n: nat, h: Id)
    requires n + 1 < |trace| && AllAsked(trace, n) && StepAsks(trace, n) && h in trace[n + 1].treasury.handlers
    ensures HandlerAsked(trace, n + 1, h)
  {
    if Asked(trace, n, trace[n + 1].treasury.handlers[h].post) {
    } else {
      assert HandlerAsked(trace, n, h);
    }
  }

  lemma RowStays(trace: seq<State>, n: nat, r: Id)
    requires n + 1 < |trace| && AllAsked(trace, n) && StepAsks(trace, n)
    requires r in trace[n + 1].treasury.ledger && trace[n + 1].treasury.ledger[r].source.Some?
    ensures RowAsked(trace, n + 1, r)
  {
    var t, t' := trace[n].treasury, trace[n + 1].treasury;
    if r in t.ledger && t'.ledger[r] == t.ledger[r] {
      assert RowAsked(trace, n, r);
    } else {
      assert HandlerAsked(trace, n, r);
    }
  }

  lemma {:induction false} EverythingAsked(trace: seq<State>, n: nat)
    requires IsRun(trace) && n < |trace|
    ensures AllAsked(trace, n)
  {
    if n == 0 {
    } else {
      EverythingAsked(trace, n - 1);
      AskedStays(trace, n - 1);
    }
  }

  /** The step that asked for an automatic row, and the post it asked for. */
  lemma RowOrigin(trace: seq<State>, n: nat, r: Id) returns (k: nat, p: T.Post)
    requires IsRun(trace) && n < |trace|
    requires r in trace[n].treasury.ledger && trace[n].treasury.ledger[r].source.Some?
    ensures k < n && Asked(trace, k, p) && Holds(trace[n].treasury.ledger[r], p)
  {
    EverythingAsked(trace, n);
    assert RowAsked(trace, n, r);
    k, p :| k < n && Asked(trace, k, p) && Holds(trace[n].treasury.ledger[r], p);
  }

  // ----- rows against what they are for -----

  lemma CommitSparesCosts(s: State, kind: D.Kind, d: D.Action, h: Id, b: D.Book)
    ensures Commit(s, kind, d, h, b).recorded == s.recorded
  {
  }

  lemma RecordedBy(s: State, a: Action, id: Id)
    requires Enabled(s, a) && s.recorded.Keys <= s.used && id in s.recorded
    ensures id in Apply(s, a).recorded && Apply(s, a).recorded[id] == s.recorded[id]
  {
    match a
    case Document(kind, d, h) =>
      CommitSparesCosts(s, kind, d, h, D.Apply(BookOf(s, kind), s.trips, s.clients.Keys, d));
    case _ =>
  }

  lemma RecordedUsed(trace: seq<State>, k: nat)
    requires IsRun(trace) && k < |trace|
    ensures trace[k].recorded.Keys <= trace[k].used
  {
    RunKeeps(trace, k);
  }

  lemma RecordedStep(trace: seq<State>, k: nat, id: Id)
    requires IsRun(trace) && k + 1 < |trace| && id in trace[k].recorded
    ensures id in trace[k + 1].recorded && trace[k + 1].recorded[id] == trace[k].recorded[id]
  {
    RecordedUsed(trace, k);
    assert StepAt(trace, k);
    var a :| Enabled(trace[k], a) && trace[k + 1] == Apply(trace[k], a);
    RecordedBy(trace[k], a, id);
  }

  lemma {:induction false} RecordedStays(trace: seq<State>, m: nat, n: nat, id: Id)
    requires IsRun(trace) && m <= n < |trace| && id in trace[m].recorded
    ensures id in trace[n].recorded && trace[n].recorded[id] == trace[m].recorded[id]
    decreases n
  {
    if m == n {
    } else {
      RecordedStays(trace, m, n - 1, id);
      RecordedStep(trace, n - 1, id);
    }
  }

  /** In every run the automatic row of a cost carries the cost's date, truck and amount,
      its category with repair counted as maintenance, and the truck's code and the note
      as they were when the cost was created. */
  lemma CostRowHolds(trace: seq<State>, n: nat, r: Id) returns (k: nat)
    requires IsRun(trace) && n < |trace|
    requires var ledger := trace[n].treasury.ledger;
             r in ledger && ledger[r].source.Some? && ledger[r].source.value.origin == T.FromCost
    ensures k < n
    ensures var row, id := trace[n].treasury.ledger[r], trace[n].treasury.ledger[r].source.value.id;
            && id !in trace[k].recorded && id in trace[n].recorded
            && var cost := trace[n].recorded[id];
               && cost.truckId in trace[k].trucks
               && row.direction == T.Outflow && row.amount == cost.amount && row.date == cost.date
               && row.truckId == Some(cost.truckId) && PostedUnder(cost.category, row.category)
               && row.description == if cost.note == None || cost.note == Some("") then trace[k].trucks[cost.truckId]
                                     else trace[k].trucks[cost.truckId] + " · " + cost.note.value
  {
    var p;
    k, p := RowOrigin(trace, n, r);
    RecordedStays(trace, k + 1, n, p.source.id);
  }

  /** A paid document stays paid, so that what its row holds can be read off it later. */
  lemma {:induction false} PaidStays(trace: seq<State>, kind: D.Kind, m: nat, n: nat, id: Id)
    requires IsRun(trace) && m <= n < |trace|
    requires id in DocsAt(trace, kind, m) && DocsAt(trace, kind, m)[id].status == D.Paid
    ensures id in DocsAt(trace, kind, n) && L.Continues(DocsAt(trace, kind, m)[id], DocsAt(trace, kind, n)[id])
    ensures DocsAt(trace, kind, n)[id].status == D.Paid
    decreases n
  {
    if m == n {
    } else {
      PaidStays(trace, kind, m, n - 1, id);
      PaidStep(trace, kind, n - 1, id);
      DocumentsFrozen(trace, kind, m, n, id);
    }
  }

  lemma PaidStep(trace: seq<State>, kind: D.Kind, k: nat, id: Id)
    requires IsRun(trace) && k + 1 < |trace|
    requires id in DocsAt(trace, kind, k) && DocsAt(trace, kind, k)[id].status == D.Paid
    ensures id in DocsAt(trace, kind, k + 1)
  {
    var d := BookStep(trace, k, kind);
    if d.Some? {
      PaidIsKept(BookOf(trace[k], kind), trace[k].trips, trace[k].clients.Keys, d.value, id);
    }
  }

  lemma PaidIsKept(b: D.Book, trips: map<Id, Trip>, clients: set<Id>, d: D.Action, id: Id)
    requires D.Enabled(b, trips, d) && id in b.docs && b.docs[id].status == D.Paid
    ensures id in D.Apply(b, trips, clients, d).docs
  {
  }

  /** In every run the automatic row of a paid invoice or run carries the document's total
      and is dated when it was paid; it names the document's number, an invoice's also the
      client as the client was named then. */
  lemma PaymentRowHolds(trace: seq<State>, n: nat, r: Id, kind: D.Kind) returns (k: nat)
    requires IsRun(trace) && n < |trace|
    requires var ledger := trace[n].treasury.ledger;
             r in ledger && ledger[r].source.Some? &&
             ledger[r].source.value.origin == if kind.Billing? then T.FromInvoice else T.FromPayroll
    ensures k < n
    ensures var row, id := trace[n].treasury.ledger[r], trace[n].treasury.ledger[r].source.value.id;
            && id in DocsAt(trace, kind, k) && DocsAt(trace, kind, k)[id].status != D.Paid
            && id in DocsAt(trace, kind, n)
            && var d := DocsAt(trace, kind, n)[id];
               && d.status == D.Paid && Some(row.date) == d.paidAt && row.amount == d.total && row.truckId == None
               && row.direction == (if kind.Billing? then T.Inflow else T.Outflow)
               && row.category == (if kind.Billing? then T.ClientPayment else T.Salary)
               && (kind.Payroll? ==> row.description == d.number)
               && (kind.Billing? ==>
                     d.Invoice? && row.description == d.number + " · " +
                       if d.clientId in trace[k].clients then trace[k].clients[d.clientId] else "")
  {
    var p;
    k, p := RowOrigin(trace, n, r);
    PaidStays(trace, kind, k + 1, n, p.source.id);
  }
}
