/** The billing and payroll services over their tables, and the costs service.
    Each request runs uninterrupted here; `Erp` interleaves the same steps. */
module DocumentServices {
  import opened Common
  import opened Documents
  import opened DocumentLaws
  import opened DocumentContents
  import E = Erp
  import P = PostContents
  import T = Treasury
  import opened TreasuryServices
  import Numerals

  class DocumentService {
    const kind: Kind
    var docs: map<Id, Doc>

    function Idling(): Book
      reads this
    {
      Book(kind, docs, Idle)
    }

    constructor (kind: Kind)
      ensures this.kind == kind && docs == map[]
    {
      this.kind, docs := kind, map[];
    }

    /** `fetchBillableTrips` / the trip query of `fetchPayableLines`. */
    method FetchTrips(trips: map<Id, Trip>, req: Request) returns (ids: seq<Id>)
      ensures IsOrderedRead(trips, Billable(trips, docs, req), ids)
    {
      var covered := Cover(docs);
      var want := Eligible(trips, req, covered);
      var rest := want;
      ids := [];
      while rest != {}
        invariant rest <= want && forall id :: id in want ==> id in trips
        invariant forall id :: id in ids <==> id in want && id !in rest
        invariant forall i :: 0 <= i < |ids| ==> ids[i] in want
        invariant forall i, j :: 0 <= i < j < |ids| ==> ids[i] != ids[j]
        invariant forall i, j :: 0 <= i < j < |ids| ==> Before(trips[ids[i]], trips[ids[j]])
        invariant forall i, id :: 0 <= i < |ids| && id in rest ==> Before(trips[ids[i]], trips[id])
        decreases rest
      {
        ghost var first := FirstTripExists(trips, rest);
        var id :| id in rest && forall o :: o in rest ==> Before(trips[id], trips[o]);
        ids := ids + [id];
        rest := rest - {id};
      }
    }

    /** The number after the last of the year in text order. */
    method NextNumber(year: nat) returns (number: string)
      ensures IsNextNumber(docs, Prefix(kind, year), number)
    {
      var numbers := NumbersWith(docs, Prefix(kind, year));
      if numbers == {} {
        number := FormatNumber(kind, year, 1);
      } else {
        ghost var last' := MaxTextExists(numbers);
        var last :| last in numbers && forall x :: x in numbers ==> Numerals.TextLeq(x, last);
        number := Successor(Prefix(kind, year), last);
      }
    }

    /** The lines of the trips read and their total, accumulated trip by trip. */
    method SnapshotLines(trips: map<Id, Trip>, ids: seq<Id>) returns (lines: seq<Line>, total: Cents)
      requires forall id :: id in ids ==> id in trips
      ensures lines == LinesOf(kind, trips, ids) && total == LineTotal(lines)
      ensures TakesTrips(kind, lines, trips, ids)
    {
      lines, total := [], 0;
      for i := 0 to |ids|
        invariant lines == LinesOf(kind, trips, ids[..i])
        invariant total == LineTotal(lines)
      {
        assert ids[..i + 1][..i] == ids[..i];
        ghost var front := lines;
        lines, total := AddTrip(lines, total, ids[i], trips[ids[i]]);
        assert lines == front + LinesFor(kind, ids[i], trips[ids[i]]);
      }
      assert ids[..|ids|] == ids;
      LinesAsRead(kind, trips, ids);
    }

    /** One turn of the loop: the lines of one trip. */
    method AddTrip(before: seq<Line>, sum: Cents, id: Id, t: Trip) returns (lines: seq<Line>, total: Cents)
      requires sum == LineTotal(before)
      ensures lines == before + LinesFor(kind, id, t) && total == LineTotal(lines)
    {
      if kind == Billing {
        lines, total := Append(before, sum, BillLine(id, t.date, t.truckCode, t.routeLabel, t.billAmount));
      } else {
        lines, total := Append(before, sum,
            PayLine(id, t.driver.id, t.driver.name, Driver, t.date, t.truckCode, t.driverPay));
        if t.helper.Some? {
          var h := t.helper.value;
          lines, total := Append(lines, total, PayLine(id, h.id, h.name, Helper, t.date, t.truckCode, t.helperPay));
        }
      }
    }

    static method Append(before: seq<Line>, sum: Cents, l: Line) returns (lines: seq<Line>, total: Cents)
      requires sum == LineTotal(before)
      ensures lines == before + [l] && total == LineTotal(lines)
    {
      lines, total := before + [l], sum + l.amount;
      assert lines[..|lines| - 1] == before;
    }

    /** Snapshots the uncovered trips of the request into a new draft. */
    method Create(trips: map<Id, Trip>, clients: set<Id>, req: Request, id: Id)
      returns (r: Result<(), Error>, ids: seq<Id>, number: string)
      requires Fits(kind, req) && id !in docs
      modifies this
      ensures req.from > req.to ==> r == Err(BadRange)
      ensures req.from <= req.to && req.InvoiceFor? && req.clientId !in clients ==> r == Err(UnknownClient)
      ensures r.Ok? || r.error == NothingToCover || r.error == NumberTaken ==>
                && IsOrderedRead(trips, old(Billable(trips, docs, req)), ids)
                && (r == Err(NothingToCover) <==> ids == [])
                && (ids != [] ==> old(IsNextNumber(docs, Prefix(kind, req.year), number)))
                && (r == Err(NumberTaken) <==> ids != [] && old(Stored(docs, number)))
      ensures r.Err? ==> docs == old(docs)
      ensures forall t :: t in ids ==> t in trips
      ensures r == old(WholeCreate(Idling(), trips, clients, req, ids, number, id).result)
      ensures docs == old(WholeCreate(Idling(), trips, clients, req, ids, number, id).book.docs)
      ensures r.Ok? ==> IsDraftOf(docs[id], req, docs[id].lines, number) && TakesTrips(kind, docs[id].lines, trips, ids)
    {
      ids, number := [], "";
      if req.from > req.to {
        r := Err(BadRange);
        return;
      }
      if req.InvoiceFor? && req.clientId !in clients {
        r := Err(UnknownClient);
        return;
      }
      ids := FetchTrips(trips, req);
      if ids == [] {
        r := Err(NothingToCover);
        return;
      }
      NoTripsNoLines(kind, trips, ids);
      var lines, total := SnapshotLines(trips, ids);
      number := NextNumber(req.year);
      if Stored(docs, number) {
        r := Err(NumberTaken);
        return;
      }
      Save(id, req, lines, total, number);
      r := Ok(());
    }

    /** The insert: a draft of the request with the lines, their total and the number. */
    method Save(id: Id, req: Request, lines: seq<Line>, total: Cents, number: string)
      requires Fits(kind, req) && id !in docs && total == LineTotal(lines)
      modifies this
      ensures docs == old(docs)[id := NewDoc(req, lines, number)]
      ensures IsDraftOf(docs[id], req, lines, number)
    {
      if req.InvoiceFor? {
        docs := docs[id := Invoice(number, req.clientId, req.from, req.to, req.issueDate, Draft, total, 0, None,
                                   req.notes, lines)];
      } else {
        var workers := set l | l in lines && l.PayLine? :: l.workerId;
        docs := docs[id := PayRun(number, req.from, req.to, Draft, total, |workers|, None, req.notes, lines)];
      }
    }

    /** Changes status and notes; entering paid sends the event to the treasury. A status
        is refused exactly when the document may not take it. */
    method Change(id: Id, status: Option<Status>, notes: Option<string>, now: int,
                  clients: map<Id, string>, treasury: TreasuryService, h: Id) returns (r: Result<(), Error>)
      requires id in docs ==> IsStatusOf(kind, docs[id].status) && (docs[id].Invoice? <==> kind.Billing?)
      modifies this, treasury
      ensures r == if id !in old(docs) then Err(NotFound)
                   else if status.Some? && !MayBecome(kind, old(docs)[id].status, status.value) then Err(BadTransition)
                   else Ok(())
      ensures r.Err? ==> docs == old(docs) && treasury.View() == old(treasury.View())
      ensures r.Ok? ==>
                && docs.Keys == old(docs).Keys && (forall k :: k in old(docs) && k != id ==> docs[k] == old(docs)[k])
                && IsUpdated(old(docs)[id], docs[id], status, notes, now)
      ensures r.Ok? && !(status == Some(Paid) && old(docs)[id].status != Paid) ==>
                treasury.View() == old(treasury.View())
      ensures r.Ok? && status == Some(Paid) && old(docs)[id].status != Paid ==>
                && treasury.View() == old(treasury.View()).(handlers := treasury.handlers)
                && treasury.handlers.Keys == old(treasury.handlers).Keys + {h}
                && (forall k :: k in old(treasury.handlers) && k != h ==>
                      treasury.handlers[k] == old(treasury.handlers)[k])
                && treasury.handlers[h].phase == T.Emitted
                && P.AsksForPayment(treasury.handlers[h].post, kind, id, docs[id], clients, now)
      ensures docs == old(Update(Idling(), id, status, notes, now).book.docs)
      ensures treasury.View() ==
              if old(Emits(Idling(), id, status)) && id in docs && docs[id].paidAt.Some?
              then T.Emit(old(treasury.View()), h, E.PaidPost(kind, id, docs[id], clients))
              else old(treasury.View())
    {
      if id !in docs {
        return Err(NotFound);
      }
      var before := docs[id];
      var doc := before;
      UpdateSucceedsIff(Idling(), id, status, notes, now);
      if notes.Some? {
        doc := doc.(notes := notes);
      }
      if status.Some? && status.value != before.status {
        if status.value !in Transitions(kind, before.status) {
          return Err(BadTransition);
        }
        doc := doc.(status := status.value, paidAt := if status.value == Paid then Some(now) else doc.paidAt);
        if status.value == Paid && doc.Invoice? {
          doc := doc.(amountPaid := doc.total);
        }
      }
      docs := docs[id := doc];
      if status == Some(Paid) && before.status != Paid {
        Announce(id, doc, now, clients, treasury, h);
      }
      r := Ok(());
    }

    /** The event of a paid invoice or run, as its treasury listener posts it. */
    method Announce(id: Id, doc: Doc, now: int, clients: map<Id, string>, treasury: TreasuryService, h: Id)
      requires (doc.Invoice? <==> kind.Billing?) && doc.paidAt == Some(now)
      modifies treasury
      ensures treasury.View() == T.Emit(old(treasury.View()), h, E.PaidPost(kind, id, doc, clients))
      ensures P.AsksForPayment(treasury.handlers[h].post, kind, id, doc, clients, now)
    {
      if doc.Invoice? {
        var name := if doc.clientId in clients then clients[doc.clientId] else "";
        treasury.OnEvent(h, T.Post(T.Source(T.FromInvoice, id), T.Inflow, doc.total, T.ClientPayment,
                                   doc.number + " · " + name, now, None));
      } else {
        treasury.OnEvent(h, T.Post(T.Source(T.FromPayroll, id), T.Outflow, doc.total, T.Salary, doc.number, now, None));
      }
    }

    /** Only drafts may be deleted, and deleting one releases exactly its trips. */
    method Delete(id: Id) returns (r: Result<(), Error>)
      modifies this
      ensures r.Ok? <==> id in old(docs) && old(docs)[id].status == Draft
      ensures r == Err(NotFound) <==> id !in old(docs)
      ensures r.Err? ==> docs == old(docs)
      ensures r.Ok? ==> id !in docs && forall k :: k in old(docs) && k != id ==> k in docs && docs[k] == old(docs)[k]
      ensures r.Ok? && old(CoveredOnce(docs)) ==> Cover(docs) == old(Cover(docs)) - TripIds(old(docs)[id].lines)
      ensures r == old(Remove(Idling(), id).result)
      ensures docs == old(Remove(Idling(), id).book.docs)
    {
      if id !in docs {
        return Err(NotFound);
      }
      if docs[id].status != Draft {
        return Err(NotDraft);
      }
      ghost var before := docs;
      docs := docs - {id};
      if CoveredOnce(before) {
        CoverWithout(before, docs, id);
      }
      r := Ok(());
    }
  }

  /** The lines are those of the trips read, with what each trip bills or pays. */
  ghost predicate TakesTrips(kind: Kind, lines: seq<Line>, trips: map<Id, Trip>, ids: seq<Id>)
    requires forall id :: id in ids ==> id in trips
  {
    match kind
    case Billing => BillsEach(lines, trips, ids)
    case Payroll =>
      && (forall l :: l in lines ==> l.tripId in ids && PaysItsTrip(l, trips[l.tripId]))
      && (forall id :: id in ids ==> PaysTrip(lines, id, trips[id]))
  }

  lemma LinesAsRead(kind: Kind, trips: map<Id, Trip>, ids: seq<Id>)
    requires forall id :: id in ids ==> id in trips
    ensures TakesTrips(kind, LinesOf(kind, trips, ids), trips, ids)
  {
    if kind.Billing? {
      InvoiceLines(trips, ids);
    } else {
      forall l | l in LinesOf(kind, trips, ids)
        ensures l.tripId in ids && PaysItsTrip(l, trips[l.tripId])
      {
        RunLine(trips, ids, l);
      }
      forall id | id in ids
        ensures PaysTrip(LinesOf(kind, trips, ids), id, trips[id])
      {
        RunPaysTrip(trips, ids, id);
      }
    }
  }

  class CostsService {
    var costs: map<Id, E.Cost>

    constructor ()
      ensures costs == map[]
    {
      costs := map[];
    }

    /** Records a cost and sends its event; an unknown truck is refused. */
    method Create(id: Id, cost: E.Cost, trucks: map<Id, string>, treasury: TreasuryService, h: Id) returns (ok: bool)
      modifies this, treasury
      ensures ok <==> cost.truckId in trucks
      ensures costs == if ok then old(costs)[id := cost] else old(costs)
      ensures ok ==>
                && treasury.View() == old(treasury.View()).(handlers := treasury.handlers)
                && treasury.handlers.Keys == old(treasury.handlers).Keys + {h}
                && (forall k :: k in old(treasury.handlers) && k != h ==>
                      treasury.handlers[k] == old(treasury.handlers)[k])
                && treasury.handlers[h].phase == T.Emitted
                && P.AsksForCost(treasury.handlers[h].post, id, cost, trucks[cost.truckId])
      ensures treasury.View() ==
              if ok then T.Emit(old(treasury.View()), h, E.CostPost(id, cost, trucks[cost.truckId]))
              else old(treasury.View())
    {
      ok := cost.truckId in trucks;
      if ok {
        costs := costs[id := cost];
        Announce(id, cost, trucks[cost.truckId], treasury, h);
      }
    }

    /** The event of a cost, as its treasury listener posts it. */
    method Announce(id: Id, cost: E.Cost, truckCode: string, treasury: TreasuryService, h: Id)
      modifies treasury
      ensures treasury.View() == T.Emit(old(treasury.View()), h, E.CostPost(id, cost, truckCode))
      ensures P.AsksForCost(treasury.handlers[h].post, id, cost, truckCode)
    {
      var category := match cost.category
        case Maintenance => T.Maintenance
        case Toll => T.Toll
        case Insurance => T.Insurance
        case Tax => T.Tax
        case Repair => T.Maintenance
        case Other => T.Other;
      var description := truckCode;
      assert truckCode + "" == truckCode;
      if cost.note.Some? && cost.note.value != "" {
        description := description + " · " + cost.note.value;
        assert description == truckCode + (" · " + cost.note.value);
      }
      treasury.OnEvent(h, T.Post(T.Source(T.FromCost, id), T.Outflow, cost.amount, category, description, cost.date,
                                 Some(cost.truckId)));
    }

    /** Removing a cost leaves the ledger as it is. */
    method Remove(id: Id) returns (ok: bool)
      modifies this
      ensures ok <==> id in old(costs)
      ensures costs == old(costs) - {id}
    {
      ok := id in costs;
      costs := costs - {id};
    }
  }
}
