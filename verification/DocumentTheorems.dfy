/** What the documents of a run hold, in terms of the trips and requests they come from,
    and the statuses they pass through. */
module DocumentTheorems {
  import opened Common
  import D = Documents
  import L = DocumentLaws
  import C = DocumentContents
  import R = Reporting
  import S = Statements
  import opened Sums
  import opened Erp
  import opened ErpTheorems
  import opened ErpRuns
  import N = NumberRuns

  // ----- totals -----

  /** The billing counterpart of `FiguresAgree`: an invoice bills what its trips bill. */
  lemma {:induction false} InvoiceTotal(trips: map<Id, Trip>, ids: seq<Id>)
    requires forall id :: id in ids ==> id in trips
    requires forall i, j :: 0 <= i < j < |ids| ==> ids[i] != ids[j]
    ensures D.LineTotal(D.LinesOf(D.Billing, trips, ids)) == R.Grand(S.TableOf(trips, ids), R.Bill, R.ByClient)
    decreases |ids|
  {
    if ids == [] {
      assert R.Keyed(S.TableOf(trips, ids), R.Bill, R.ByClient) == map[];
    } else {
      var n := |ids| - 1;
      InvoiceTotal(trips, ids[..n]);
      S.TableSnoc(trips, ids);
      GrandGrows(S.TableOf(trips, ids[..n]), ids[n], trips[ids[n]], R.Bill, R.ByClient);
    }
  }

  lemma GrandGrows(ts: R.Table, k: Id, t: Trip, c: R.Column, g: R.Group)
    requires k !in ts
    ensures R.Grand(ts[k := t], c, g) == R.Grand(ts, c, g) + if R.Key(t, g).Some? then R.Amount(t, c) else 0
  {
    KeyedGrows(ts, k, t, c, g);
    if R.Key(t, g).Some? {
      MapSumInsert(R.Keyed(ts, c, g), k, R.Amount(t, c));
    }
  }

  lemma KeyedGrows(ts: R.Table, k: Id, t: Trip, c: R.Column, g: R.Group)
    requires k !in ts
    ensures R.Keyed(ts[k := t], c, g) ==
            if R.Key(t, g).Some? then R.Keyed(ts, c, g)[k := R.Amount(t, c)] else R.Keyed(ts, c, g)
  {
  }

  ghost function PayOf(ts: R.Table): int {
    R.Grand(ts, R.DriverPay, R.ByDriver) + R.Grand(ts, R.HelperPay, R.ByHelper)
  }

  lemma PayGrows(ts: R.Table, k: Id, t: Trip)
    requires k !in ts
    ensures PayOf(ts[k := t]) == PayOf(ts) + t.driverPay + if t.helper.Some? then t.helperPay else 0
  {
    GrandGrows(ts, k, t, R.DriverPay, R.ByDriver);
    GrandGrows(ts, k, t, R.HelperPay, R.ByHelper);
  }

  /** A run pays what its trips pay their drivers and their helpers. */
  lemma {:induction false} RunTotal(trips: map<Id, Trip>, ids: seq<Id>)
    requires forall id :: id in ids ==> id in trips
    requires forall i, j :: 0 <= i < j < |ids| ==> ids[i] != ids[j]
    ensures D.LineTotal(D.LinesOf(D.Payroll, trips, ids)) == PayOf(S.TableOf(trips, ids))
    decreases |ids|
  {
    if ids == [] {
      assert R.Keyed(S.TableOf(trips, ids), R.DriverPay, R.ByDriver) == map[];
      assert R.Keyed(S.TableOf(trips, ids), R.HelperPay, R.ByHelper) == map[];
    } else {
      var n := |ids| - 1;
      RunTotal(trips, ids[..n]);
      S.TableSnoc(trips, ids);
      PayGrows(S.TableOf(trips, ids[..n]), ids[n], trips[ids[n]]);
      PayTotals(D.LinesOf(D.Payroll, trips, ids[..n]), ids[n], trips[ids[n]]);
    }
  }

  lemma PayTotals(front: seq<D.Line>, id: Id, t: Trip)
    ensures D.LineTotal(front + D.LinesFor(D.Payroll, id, t)) ==
            D.LineTotal(front) + t.driverPay + if t.helper.Some? then t.helperPay else 0
  {
    var own := D.LinesFor(D.Payroll, id, t);
    assert (front + [own[0]])[..|front|] == front;
    if t.helper.Some? {
      assert front + own == front + [own[0]] + [own[1]];
      assert (front + [own[0]] + [own[1]])[..|front| + 1] == front + [own[0]];
    } else {
      assert front + own == front + [own[0]];
    }
  }

  // ----- the lines and the draft of a document -----

  /** In every run an invoice has one line for each trip its create read, in that order,
      with the amount, date, truck code and route label the trip had then; its total is
      what these trips bill together. */
  lemma InvoiceBillsItsTrips(trace: seq<State>, n: nat, id: Id) returns (c: Creation)
    requires IsRun(trace) && n < |trace| && id in DocsAt(trace, D.Billing, n)
    ensures c.store < n && Created(trace, D.Billing, id, c)
    ensures C.BillsEach(DocsAt(trace, D.Billing, n)[id].lines, trace[c.read].trips, c.ids)
    ensures DocsAt(trace, D.Billing, n)[id].total == R.Grand(S.TableOf(trace[c.read].trips, c.ids), R.Bill, R.ByClient)
  {
    c := LinesAreSnapshots(trace, D.Billing, n, id);
    C.InvoiceLines(trace[c.read].trips, c.ids);
    InvoiceTotal(trace[c.read].trips, c.ids);
    DocumentsConsistent(trace, n, D.Billing, id);
  }

  /** In every run a pay run has, for each trip its create read and for no other, the
      driver's line and, if the trip had a helper, the helper's, with the pay they had
      then; its total is what these trips pay together. */
  lemma RunPaysItsTrips(trace: seq<State>, n: nat, id: Id) returns (c: Creation)
    requires IsRun(trace) && n < |trace| && id in DocsAt(trace, D.Payroll, n)
    ensures c.store < n && Created(trace, D.Payroll, id, c)
    ensures forall l :: l in DocsAt(trace, D.Payroll, n)[id].lines ==>
              l.tripId in c.ids && C.PaysItsTrip(l, trace[c.read].trips[l.tripId])
    ensures forall t :: t in c.ids ==> C.PaysTrip(DocsAt(trace, D.Payroll, n)[id].lines, t, trace[c.read].trips[t])
    ensures DocsAt(trace, D.Payroll, n)[id].total ==
            R.Grand(S.TableOf(trace[c.read].trips, c.ids), R.DriverPay, R.ByDriver) +
            R.Grand(S.TableOf(trace[c.read].trips, c.ids), R.HelperPay, R.ByHelper)
  {
    c := LinesAreSnapshots(trace, D.Payroll, n, id);
    RunLinesPay(trace[c.read].trips, c.ids);
    RunTotal(trace[c.read].trips, c.ids);
    DocumentsConsistent(trace, n, D.Payroll, id);
  }

  lemma RunLinesPay(trips: map<Id, Trip>, ids: seq<Id>)
    requires forall id :: id in ids ==> id in trips
    ensures forall l :: l in D.LinesOf(D.Payroll, trips, ids) ==> l.tripId in ids && C.PaysItsTrip(l, trips[l.tripId])
    ensures forall t :: t in ids ==> C.PaysTrip(D.LinesOf(D.Payroll, trips, ids), t, trips[t])
  {
    forall l | l in D.LinesOf(D.Payroll, trips, ids)
      ensures l.tripId in ids && C.PaysItsTrip(l, trips[l.tripId])
    {
      C.RunLine(trips, ids, l);
    }
    forall t | t in ids
      ensures C.PaysTrip(D.LinesOf(D.Payroll, trips, ids), t, trips[t])
    {
      C.RunPaysTrip(trips, ids, t);
    }
  }

  /** The trip is on a line of some document that is not void. */
  ghost predicate OnSome(docs: map<Id, D.Doc>, trip: Id) {
    exists id, i :: OnLine(docs, trip, id, i)
  }

  predicate OnLine(docs: map<Id, D.Doc>, trip: Id, id: Id, i: int) {
    id in docs && docs[id].status != D.Void && 0 <= i < |docs[id].lines| && docs[id].lines[i].tripId == trip
  }

  lemma CoveredIffOnSome(docs: map<Id, D.Doc>, trip: Id)
    ensures trip in D.Cover(docs) <==> OnSome(docs, trip)
  {
    if trip in D.Cover(docs) {
      var id :| id in docs && trip in D.Covers(docs[id]);
      var l :| l in docs[id].lines && l.tripId == trip;
      var i :| 0 <= i < |docs[id].lines| && docs[id].lines[i] == l;
      assert OnLine(docs, trip, id, i);
    }
    if id, i :| OnLine(docs, trip, id, i) {
      assert docs[id].lines[i] in docs[id].lines;
      assert trip in D.TripIds(docs[id].lines);
      assert trip in D.Covers(docs[id]);
    }
  }

  /** By date, and by sequence number within a day. */
  predicate ReadBefore(a: Trip, b: Trip) {
    a.date <= b.date && (a.date == b.date ==> a.seqNo <= b.seqNo)
  }

  /** A create reads exactly the trips dated in its period, of its client on an invoice,
      that were on no line of a non-void document when it began; each once, by date and
      sequence number. */
  lemma CreateReadsExactly(trace: seq<State>, kind: D.Kind, id: Id, c: Creation)
    requires IsRun(trace) && Created(trace, kind, id, c)
    ensures var trips := trace[c.read].trips;
            && (forall t :: t in c.ids <==>
                  && t in trips && c.req.from <= trips[t].date <= c.req.to
                  && (kind.Billing? ==> c.req.InvoiceFor? && trips[t].clientId == c.req.clientId)
                  && !OnSome(DocsAt(trace, kind, c.begin), t))
            && (forall i, j :: 0 <= i < j < |c.ids| ==>
                  c.ids[i] != c.ids[j] && ReadBefore(trips[c.ids[i]], trips[c.ids[j]]))
  {
    forall t
      ensures t in D.Cover(DocsAt(trace, kind, c.begin)) <==> OnSome(DocsAt(trace, kind, c.begin), t)
    {
      CoveredIffOnSome(DocsAt(trace, kind, c.begin), t);
    }
  }

  /** A document starts as a draft of its request, with a number of the request's year,
      at a time when its client existed; the request was not inverted. */
  lemma StartsAsDraft(trace: seq<State>, kind: D.Kind, id: Id, c: Creation) returns (seqNo: nat)
    requires IsRun(trace) && Created(trace, kind, id, c)
    ensures var d := DocsAt(trace, kind, c.store + 1)[id];
            && C.IsDraftOf(d, c.req, d.lines, d.number) && C.IsNumberOf(kind, c.req.year, seqNo, d.number)
    ensures seqNo >= 1 && c.req.from <= c.req.to
    ensures kind.Billing? <==> c.req.InvoiceFor?
    ensures kind.Billing? ==> c.req.clientId in trace[c.begin].clients
  {
    BookOk(trace, c.store, kind);
    var b := BookOf(trace[c.store], kind);
    assert D.NumberReady(b.docs, kind, b.session.req.year, b.session.number);
    seqNo :| seqNo >= 1 && b.session.number == D.FormatNumber(kind, c.req.year, seqNo);
    C.NumberText(kind, c.req.year, seqNo);
    C.NewDocIsDraft(c.req, D.LinesOf(kind, trace[c.read].trips, c.ids), b.session.number);
  }

  // ----- statuses -----

  /** From one state of a run to the next a document keeps its status or takes one it may
      become; a document that appears is a draft. */
  lemma StatusMoves(trace: seq<State>, kind: D.Kind, n: nat, id: Id)
    requires IsRun(trace) && n + 1 < |trace| && id in DocsAt(trace, kind, n + 1)
    ensures C.IsStatusOf(kind, DocsAt(trace, kind, n + 1)[id].status)
    ensures if id in DocsAt(trace, kind, n)
            then C.MayBecome(kind, DocsAt(trace, kind, n)[id].status, DocsAt(trace, kind, n + 1)[id].status)
            else DocsAt(trace, kind, n + 1)[id].status == D.Draft
  {
    StatusOk(trace, kind, n + 1, id);
    if id in DocsAt(trace, kind, n) {
      StatusOk(trace, kind, n, id);
      var d := BookStep(trace, n, kind);
      if d.Some? {
        StepMoves(BookOf(trace[n], kind), trace[n].trips, trace[n].clients.Keys, d.value, id);
      }
    } else {
      DocAfter(trace, kind, n, id);
    }
  }

  lemma StatusOk(trace: seq<State>, kind: D.Kind, n: nat, id: Id)
    requires IsRun(trace) && n < |trace| && id in DocsAt(trace, kind, n)
    ensures C.IsStatusOf(kind, DocsAt(trace, kind, n)[id].status)
  {
    BookOk(trace, n, kind);
    assert D.DocOk(kind, DocsAt(trace, kind, n)[id]);
  }

  lemma StepMoves(b: D.Book, trips: map<Id, Trip>, clients: set<Id>, d: D.Action, id: Id)
    requires D.Enabled(b, trips, d) && (d.Store? ==> d.id !in b.docs)
    requires id in b.docs && id in D.Apply(b, trips, clients, d).docs && C.IsStatusOf(b.kind, b.docs[id].status)
    ensures C.MayBecome(b.kind, b.docs[id].status, D.Apply(b, trips, clients, d).docs[id].status)
  {
    match d
    case Change(k, status, notes, now) =>
      if k == id {
        C.UpdateSucceedsIff(b, id, status, notes, now);
      }
    case _ =>
  }

  /** Any status a document may take, it can take next. */
  lemma MoveIsOpen(trace: seq<State>, kind: D.Kind, id: Id, to: D.Status) returns (longer: seq<State>)
    requires IsRun(trace) && id in BookOf(Last(trace), kind).docs
    requires C.MayBecome(kind, BookOf(Last(trace), kind).docs[id].status, to)
    ensures IsRun(longer) && Extends(trace, longer)
    ensures id in BookOf(Last(longer), kind).docs && BookOf(Last(longer), kind).docs[id].status == to
  {
    var s := Last(trace);
    var h := FreshId(s.used);
    var d := D.Change(id, Some(to), None, 0);
    StatusOk(trace, kind, |trace| - 1, id);
    BookOk(trace, |trace| - 1, kind);
    C.UpdateSucceedsIff(BookOf(s, kind), id, Some(to), None, 0);
    longer := GoOn(trace, Document(kind, d, h));
    BookAfterDocument(s, kind, d, h, kind);
  }

  lemma OneDraft(kind: D.Kind) returns (trace: seq<State>, id: Id)
    ensures IsRun(trace) && id in BookOf(Last(trace), kind).docs
    ensures BookOf(Last(trace), kind).docs[id].status == D.Draft
  {
    trace, id := N.ReachNumber(kind, 0, 1);
  }

  /** Every status of the kind is reached by a document of some run. */
  lemma EachStatusReached(kind: D.Kind, to: D.Status) returns (trace: seq<State>, id: Id)
    requires C.IsStatusOf(kind, to)
    ensures IsRun(trace) && id in BookOf(Last(trace), kind).docs && BookOf(Last(trace), kind).docs[id].status == to
  {
    trace, id := OneDraft(kind);
    trace := MoveIsOpen(trace, kind, id, to);
  }
}
