/** What a document holds, field by field: the lines a create snapshots, the draft it
    stores, the number it gives, and which status a request can bring a document to. */
module DocumentContents {
  import opened Common
  import opened Documents
  import opened DocumentLaws
  import opened Numerals

  // ----- lines -----

  /** The invoice line of a trip. */
  predicate BillsTrip(l: Line, id: Id, t: Trip) {
    && l.BillLine? && l.tripId == id && l.amount == t.billAmount
    && l.date == t.date && l.truckCode == t.truckCode && l.routeLabel == t.routeLabel
  }

  /** The line of a trip for one of its workers, and what that worker is paid. */
  predicate PaysWorker(l: Line, id: Id, t: Trip, w: Worker, role: Role, pay: Cents) {
    && l.PayLine? && l.tripId == id && l.workerId == w.id && l.workerName == w.name && l.role == role
    && l.date == t.date && l.truckCode == t.truckCode && l.amount == pay
  }

  /** An invoice has one line a trip, in the order read. */
  ghost predicate BillsEach(lines: seq<Line>, trips: map<Id, Trip>, ids: seq<Id>)
    requires forall id :: id in ids ==> id in trips
  {
    |lines| == |ids| && forall i :: 0 <= i < |ids| ==> BillsTrip(lines[i], ids[i], trips[ids[i]])
  }

  lemma {:induction false} InvoiceLines(trips: map<Id, Trip>, ids: seq<Id>)
    requires forall id :: id in ids ==> id in trips
    ensures BillsEach(LinesOf(Billing, trips, ids), trips, ids)
    decreases |ids|
  {
    if ids == [] {
    } else {
      InvoiceLines(trips, ids[..|ids| - 1]);
    }
  }

  /** A line of a run pays the driver or the helper of its trip. */
  predicate PaysItsTrip(l: Line, t: Trip) {
    || PaysWorker(l, l.tripId, t, t.driver, Driver, t.driverPay)
    || (t.helper.Some? && PaysWorker(l, l.tripId, t, t.helper.value, Helper, t.helperPay))
  }

  /** Every trip read has its driver line, and its helper line exactly if it has a helper. */
  ghost predicate PaysTrip(lines: seq<Line>, id: Id, t: Trip) {
    && (exists l :: l in lines && PaysWorker(l, id, t, t.driver, Driver, t.driverPay))
    && (t.helper.Some? <==> exists l :: l in lines && l.tripId == id && l.PayLine? && l.role == Helper)
  }

  lemma {:induction false} RunLine(trips: map<Id, Trip>, ids: seq<Id>, l: Line)
    requires forall id :: id in ids ==> id in trips
    requires l in LinesOf(Payroll, trips, ids)
    ensures l.tripId in ids && PaysItsTrip(l, trips[l.tripId])
    decreases |ids|
  {
    if ids == [] {
    } else {
      var n := |ids| - 1;
      if l in LinesOf(Payroll, trips, ids[..n]) {
        RunLine(trips, ids[..n], l);
      }
    }
  }

  lemma {:induction false} RunPaysTrip(trips: map<Id, Trip>, ids: seq<Id>, id: Id)
    requires forall k :: k in ids ==> k in trips
    requires id in ids
    ensures PaysTrip(LinesOf(Payroll, trips, ids), id, trips[id])
    decreases |ids|
  {
    var n, lines := |ids| - 1, LinesOf(Payroll, trips, ids);
    if ids[n] == id {
      var own := LinesFor(Payroll, id, trips[id]);
      assert own[0] in lines && PaysWorker(own[0], id, trips[id], trips[id].driver, Driver, trips[id].driverPay);
      assert trips[id].helper.Some? ==> own[1] in lines;
    } else {
      RunPaysTrip(trips, ids[..n], id);
      assert forall l :: l in LinesOf(Payroll, trips, ids[..n]) ==> l in lines;
    }
    forall l | l in lines && l.tripId == id && l.PayLine? && l.role == Helper
      ensures trips[id].helper.Some?
    {
      RunLine(trips, ids, l);
    }
  }

  // ----- the draft -----

  /** The draft stored for a request. */
  ghost predicate IsDraftOf(d: Doc, req: Request, lines: seq<Line>, number: string) {
    && d.number == number && d.lines == lines && d.status == Draft && d.paidAt.None? && d.notes == req.notes
    && d.periodFrom == req.from && d.periodTo == req.to && d.total == LineTotal(lines)
    && (req.InvoiceFor? ==>
          d.Invoice? && d.clientId == req.clientId && d.issueDate == req.issueDate && d.amountPaid == 0)
    && (req.RunFor? ==> d.PayRun? && d.workerCount == |WorkerIds(lines)|)
  }

  lemma NewDocIsDraft(req: Request, lines: seq<Line>, number: string)
    ensures IsDraftOf(NewDoc(req, lines, number), req, lines, number)
  {
  }

  /** `s` writes `n` in decimal, padded with zeros to `width` digits and no further. */
  predicate Writes(s: string, n: nat, width: nat) {
    AllDigits(s) && Value(s) == n && |s| >= width && (|s| > width ==> s[0] != '0')
  }

  /** A prefix for the kind, the year, and a sequence number of at least four digits. */
  ghost predicate IsNumberOf(kind: Kind, year: nat, n: nat, number: string) {
    exists y, digits :: IsNumberWritten(kind, year, n, number, y, digits)
  }

  predicate IsNumberWritten(kind: Kind, year: nat, n: nat, number: string, y: string, digits: string) {
    && number == (if kind.Billing? then "INV-" else "PAY-") + y + "-" + digits
    && Writes(y, year, 1) && Writes(digits, n, 4)
  }

  lemma {:induction false} DecimalWrites(n: nat)
    ensures Writes(Decimal(n), n, 1)
    ensures n > 0 ==> Decimal(n)[0] != '0'
  {
    DecimalValue(n);
    if n < 10 {
    } else {
      DecimalWrites(n / 10);
    }
  }

  lemma PadWrites(n: nat)
    ensures Writes(Pad4(n), n, 4)
  {
    PaddedValue(n);
    DecimalWrites(n);
  }

  lemma NumberText(kind: Kind, year: nat, n: nat)
    ensures IsNumberOf(kind, year, n, FormatNumber(kind, year, n))
  {
    DecimalWrites(year);
    PadWrites(n);
    assert IsNumberWritten(kind, year, n, FormatNumber(kind, year, n), Decimal(year), Pad4(n));
  }

  // ----- a whole create -----

  /** The four steps of a create taken without interruption, the reads giving `ids` and
      `number`. */
  function WholeCreate(b: Book, trips: map<Id, Trip>, clients: set<Id>, req: Request, ids: seq<Id>, number: string,
                       id: Id): Outcome
    requires forall t :: t in ids ==> t in trips
  {
    var begun := ReadCover(b, clients, req);
    if begun.result.Err? then begun
    else
      var read := ReadTrips(begun.book, trips, ids);
      if read.result.Err? then read else Insert(TakeNumber(read.book, number), id)
  }

  lemma {:induction false} NoTripsNoLines(kind: Kind, trips: map<Id, Trip>, ids: seq<Id>)
    requires forall t :: t in ids ==> t in trips
    ensures LinesOf(kind, trips, ids) == [] <==> ids == []
  {
    if ids == [] {
    } else {
      assert LinesFor(kind, ids[|ids| - 1], trips[ids[|ids| - 1]]) != [];
    }
  }

  // ----- status -----

  /** Which status a request can bring a document to. */
  predicate MayBecome(kind: Kind, from: Status, to: Status) {
    match to
    case Draft => from == Draft
    case Sent => kind == Billing && (from == Draft || from == Sent)
    case Approved => kind == Payroll && (from == Draft || from == Approved)
    case Paid => from != Void
    case Void => from != Paid
  }

  /** The statuses a document of the kind can have. */
  predicate IsStatusOf(kind: Kind, s: Status) {
    s == Draft || s == Paid || s == Void || (kind == Billing && s == Sent) || (kind == Payroll && s == Approved)
  }

  /** What an accepted update leaves: the status asked for, the payment if it enters paid,
      the notes if given, and all else as it was. */
  ghost predicate IsUpdated(d: Doc, d': Doc, status: Option<Status>, notes: Option<string>, now: int) {
    && Continues(d, d') && (d'.Invoice? <==> d.Invoice?)
    && d'.status == (if status.Some? then status.value else d.status)
    && d'.notes == (if notes.Some? then notes else d.notes)
    && (if status == Some(Paid) && d.status != Paid
        then d'.paidAt == Some(now) && (d.Invoice? ==> d'.amountPaid == d.total)
        else d'.paidAt == d.paidAt && (d.Invoice? ==> d'.amountPaid == d.amountPaid))
  }

  /** An update succeeds exactly when the document exists and may take the status asked
      for; it then changes that document as described, and otherwise nothing. */
  lemma UpdateSucceedsIff(b: Book, id: Id, status: Option<Status>, notes: Option<string>, now: int)
    requires id in b.docs ==> IsStatusOf(b.kind, b.docs[id].status)
    ensures var o := Update(b, id, status, notes, now);
            && (o.result.Ok? <==> id in b.docs && (status.Some? ==> MayBecome(b.kind, b.docs[id].status, status.value)))
            && (o.result == Err(NotFound) <==> id !in b.docs)
            && (o.result.Err? ==> o.book == b)
            && (o.result.Ok? ==>
                  && o.book == b.(docs := b.docs[id := o.book.docs[id]])
                  && IsUpdated(b.docs[id], o.book.docs[id], status, notes, now))
  {
    if id in b.docs && status.Some? {
      MovesAsStated(b.kind, b.docs[id].status, status.value);
    }
  }

  lemma MovesAsStated(kind: Kind, from: Status, to: Status)
    requires IsStatusOf(kind, from)
    ensures MayBecome(kind, from, to) <==> from == to || to in Transitions(kind, from)
  {
    match from
    case Draft =>
    case Sent =>
    case Approved =>
    case Paid =>
    case Void =>
  }
}
