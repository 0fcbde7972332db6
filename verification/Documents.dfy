/** Billing invoices and pay runs. The two services of the source are the same
    program over different columns: trips not yet covered are snapshotted into
    frozen lines, the document gets the next number of its year, and a transition
    table with two terminal states governs it afterwards. A `Book` is one of the
    two tables together with the create request currently in flight on it.

    `create` awaits four times (covered trips, trips, last number, insert), so it
    is four steps here and every other request may fall between them. Creates of
    one kind do not overlap each other, and every other request is one step;
    `Overlaps` does without either. */
module Documents {
  import opened Common
  import opened Numerals

  datatype Kind = Billing | Payroll

  datatype Status = Draft | Sent | Approved | Paid | Void

  datatype Role = Driver | Helper

  datatype Line =
    | BillLine(tripId: Id, date: Day, truckCode: string, routeLabel: Option<string>, amount: Cents)
    | PayLine(tripId: Id, workerId: Id, workerName: string, role: Role, date: Day, truckCode: string, amount: Cents)

  datatype Doc =
    | Invoice(number: string, clientId: Id, periodFrom: Day, periodTo: Day, issueDate: Day, status: Status,
              total: Cents, amountPaid: Cents, paidAt: Option<int>, notes: Option<string>, lines: seq<Line>)
    | PayRun(number: string, periodFrom: Day, periodTo: Day, status: Status,
             total: Cents, workerCount: nat, paidAt: Option<int>, notes: Option<string>, lines: seq<Line>)

  /** The body of a create request plus the clock values it reads. */
  datatype Request =
    | InvoiceFor(clientId: Id, from: Day, to: Day, issueDate: Day, year: nat, notes: Option<string>)
    | RunFor(from: Day, to: Day, year: nat, notes: Option<string>)

  /** How far the create request in flight has come. */
  datatype Session =
    | Idle
    | HasCover(req: Request, covered: set<Id>)
    | HasLines(req: Request, lines: seq<Line>)
    | HasNumber(req: Request, lines: seq<Line>, number: string)

  datatype Book = Book(kind: Kind, docs: map<Id, Doc>, session: Session)

  datatype Error = BadRange | UnknownClient | NothingToCover | NumberTaken | NotFound | BadTransition | NotDraft

  datatype Outcome = Outcome(book: Book, result: Result<(), Error>)

  /** `TRANSITIONS`: paid and void are terminal. */
  function Transitions(kind: Kind, from: Status): set<Status> {
    match (kind, from)
    case (Billing, Draft) => {Sent, Paid, Void}
    case (Billing, Sent) => {Paid, Void}
    case (Payroll, Draft) => {Approved, Paid, Void}
    case (Payroll, Approved) => {Paid, Void}
    case _ => {}
  }

  function Statuses(kind: Kind): set<Status> {
    if kind.Billing? then {Draft, Sent, Paid, Void} else {Draft, Approved, Paid, Void}
  }

  // ----- cover -----

  function TripIds(lines: seq<Line>): set<Id> {
    set l | l in lines :: l.tripId
  }

  /** The trips a document holds: none once it is void. */
  function Covers(doc: Doc): set<Id> {
    if doc.status == Void then {} else TripIds(doc.lines)
  }

  /** The trip ids on lines of non-void documents. */
  function Cover(docs: map<Id, Doc>): set<Id> {
    set id, t | id in docs && t in Covers(docs[id]) :: t
  }

  /** A request reads the trips in its date range and, for an invoice, of its client. */
  predicate Matches(req: Request, t: Trip) {
    req.from <= t.date <= req.to && (req.InvoiceFor? ==> t.clientId == req.clientId)
  }

  function Eligible(trips: map<Id, Trip>, req: Request, covered: set<Id>): set<Id> {
    set id | id in trips && Matches(req, trips[id]) && id !in covered
  }

  /** What the billable and payable queries return when run in one go. */
  function Billable(trips: map<Id, Trip>, docs: map<Id, Doc>, req: Request): set<Id> {
    Eligible(trips, req, Cover(docs))
  }

  predicate Before(a: Trip, b: Trip) {
    a.date < b.date || (a.date == b.date && a.seqNo <= b.seqNo)
  }

  /** `ids` lists the rows of `want` once each, ordered by (date, seq); ties come
      in any order. */
  ghost predicate IsOrderedRead(trips: map<Id, Trip>, want: set<Id>, ids: seq<Id>) {
    && (forall id :: id in ids <==> id in want)
    && (forall id :: id in want ==> id in trips)
    && (forall i, j :: 0 <= i < j < |ids| ==> ids[i] != ids[j])
    && (forall i, j :: 0 <= i < j < |ids| ==> Before(trips[ids[i]], trips[ids[j]]))
  }

  // ----- snapshot lines -----

  function LinesFor(kind: Kind, id: Id, t: Trip): seq<Line> {
    match kind
    case Billing => [BillLine(id, t.date, t.truckCode, t.routeLabel, t.billAmount)]
    case Payroll =>
      [PayLine(id, t.driver.id, t.driver.name, Driver, t.date, t.truckCode, t.driverPay)] +
      match t.helper
      case None => []
      case Some(h) => [PayLine(id, h.id, h.name, Helper, t.date, t.truckCode, t.helperPay)]
  }

  function LinesOf(kind: Kind, trips: map<Id, Trip>, ids: seq<Id>): seq<Line>
    requires forall id :: id in ids ==> id in trips
  {
    if ids == [] then []
    else LinesOf(kind, trips, ids[..|ids| - 1]) + LinesFor(kind, ids[|ids| - 1], trips[ids[|ids| - 1]])
  }

  function LineTotal(lines: seq<Line>): Cents {
    if lines == [] then 0 else LineTotal(lines[..|lines| - 1]) + lines[|lines| - 1].amount
  }

  function WorkerIds(lines: seq<Line>): set<Id> {
    set l | l in lines && l.PayLine? :: l.workerId
  }

  // ----- numbers -----

  function Prefix(kind: Kind, year: nat): string {
    (if kind.Billing? then "INV-" else "PAY-") + Decimal(year) + "-"
  }

  function FormatNumber(kind: Kind, year: nat, n: nat): string {
    Prefix(kind, year) + Pad4(n)
  }

  predicate Stored(docs: map<Id, Doc>, number: string) {
    exists id :: id in docs && docs[id].number == number
  }

  function NumbersWith(docs: map<Id, Doc>, prefix: string): set<string> {
    set id | id in docs && prefix <= docs[id].number :: docs[id].number
  }

  ghost predicate IsLast(numbers: set<string>, last: string) {
    last in numbers && forall x :: x in numbers ==> TextLeq(x, last)
  }

  /** The number after `last` in text order: parse, add one, pad. */
  function Successor(prefix: string, last: string): string
    requires prefix <= last
  {
    match ParseInt(last[|prefix|..])
    case Some(n) => prefix + Pad4(n + 1)
    case None => prefix + "0NaN"
  }

  ghost predicate IsNextNumber(docs: map<Id, Doc>, prefix: string, number: string) {
    var numbers := NumbersWith(docs, prefix);
    if numbers == {} then number == prefix + Pad4(1)
    else exists last :: IsLast(numbers, last) && number == Successor(prefix, last)
  }

  // ----- the requests -----

  predicate Fits(kind: Kind, req: Request) { kind.Billing? <==> req.InvoiceFor? }

  /** Create, first read: validate, then the covered trip ids. */
  function ReadCover(b: Book, clients: set<Id>, req: Request): Outcome {
    if req.from > req.to then Outcome(b, Err(BadRange))
    else if req.InvoiceFor? && req.clientId !in clients then Outcome(b, Err(UnknownClient))
    else Outcome(b.(session := HasCover(req, Cover(b.docs))), Ok(()))
  }

  /** Create, second read: the trips, snapshotted into lines. */
  function ReadTrips(b: Book, trips: map<Id, Trip>, ids: seq<Id>): Outcome
    requires b.session.HasCover?
    requires forall id :: id in ids ==> id in trips
  {
    var lines := LinesOf(b.kind, trips, ids);
    if lines == [] then Outcome(b.(session := Idle), Err(NothingToCover))
    else Outcome(b.(session := HasLines(b.session.req, lines)), Ok(()))
  }

  /** Create, third read: the number. */
  function TakeNumber(b: Book, number: string): Book
    requires b.session.HasLines?
  {
    b.(session := HasNumber(b.session.req, b.session.lines, number))
  }

  function NewDoc(req: Request, lines: seq<Line>, number: string): Doc {
    match req
    case InvoiceFor(client, from, to, issue, _, notes) =>
      Invoice(number, client, from, to, issue, Draft, LineTotal(lines), 0, None, notes, lines)
    case RunFor(from, to, _, notes) =>
      PayRun(number, from, to, Draft, LineTotal(lines), |WorkerIds(lines)|, None, notes, lines)
  }

  /** Create, insert: the unique index on `number` is checked here. */
  function Insert(b: Book, id: Id): Outcome
    requires b.session.HasNumber?
  {
    var s := b.session;
    if Stored(b.docs, s.number) then Outcome(b.(session := Idle), Err(NumberTaken))
    else Outcome(b.(docs := b.docs[id := NewDoc(s.req, s.lines, s.number)], session := Idle), Ok(()))
  }

  function WithStatus(doc: Doc, status: Status, now: int): Doc {
    var d := doc.(status := status, paidAt := if status == Paid then Some(now) else doc.paidAt);
    if status == Paid && d.Invoice? then d.(amountPaid := d.total) else d
  }

  function Update(b: Book, id: Id, status: Option<Status>, notes: Option<string>, now: int): Outcome {
    if id !in b.docs then Outcome(b, Err(NotFound))
    else
      var doc := b.docs[id];
      var noted := if notes.Some? then doc.(notes := notes) else doc;
      if status.None? || status.value == doc.status then Outcome(b.(docs := b.docs[id := noted]), Ok(()))
      else if status.value !in Transitions(b.kind, doc.status) then Outcome(b, Err(BadTransition))
      else Outcome(b.(docs := b.docs[id := WithStatus(noted, status.value, now)]), Ok(()))
  }

  /** The condition under which `update` emits a paid event. */
  predicate Emits(b: Book, id: Id, status: Option<Status>) {
    && id in b.docs
    && status == Some(Paid)
    && b.docs[id].status != Paid
    && Paid in Transitions(b.kind, b.docs[id].status)
  }

  function Remove(b: Book, id: Id): Outcome {
    if id !in b.docs then Outcome(b, Err(NotFound))
    else if b.docs[id].status != Draft then Outcome(b, Err(NotDraft))
    else Outcome(b.(docs := b.docs - {id}), Ok(()))
  }

  // ----- one step of a book -----

  datatype Action =
    | Begin(req: Request)
    | Snapshot(ids: seq<Id>)
    | Number(number: string)
    | Store(id: Id)
    | Change(id: Id, status: Option<Status>, notes: Option<string>, now: int)
    | Delete(id: Id)

  /** When a step can happen: creates do not overlap, and the reads return what
      their queries say. */
  ghost predicate Enabled(b: Book, trips: map<Id, Trip>, a: Action) {
    match a
    case Begin(req) => b.session.Idle? && Fits(b.kind, req)
    case Snapshot(ids) =>
      b.session.HasCover? && IsOrderedRead(trips, Eligible(trips, b.session.req, b.session.covered), ids)
    case Number(number) =>
      b.session.HasLines? && IsNextNumber(b.docs, Prefix(b.kind, b.session.req.year), number)
    case Store(_) => b.session.HasNumber?
    case _ => true
  }

  /** Ids a step introduces; they must be fresh. */
  function NewIds(a: Action): set<Id> {
    if a.Store? then {a.id} else {}
  }

  function Apply(b: Book, trips: map<Id, Trip>, clients: set<Id>, a: Action): Book
    requires Enabled(b, trips, a)
  {
    match a
    case Begin(req) => ReadCover(b, clients, req).book
    case Snapshot(ids) => ReadTrips(b, trips, ids).book
    case Number(number) => TakeNumber(b, number)
    case Store(id) => Insert(b, id).book
    case Change(id, status, notes, now) => Update(b, id, status, notes, now).book
    case Delete(id) => Remove(b, id).book
  }

  /** Does this step emit a paid event? */
  predicate Pays(b: Book, a: Action) {
    a.Change? && Emits(b, a.id, a.status)
  }

  // ----- the invariant -----

  /** How a trip sits on the lines of one document: once on an invoice; on a run,
      one driver line, directly followed by its helper line if there is one. */
  ghost predicate WellShaped(kind: Kind, lines: seq<Line>) {
    && (forall i :: 0 <= i < |lines| ==> (lines[i].BillLine? <==> kind.Billing?))
    && (forall i, j :: 0 <= i < j < |lines| && lines[i].tripId == lines[j].tripId ==>
          kind.Payroll? && j == i + 1 && lines[i].role == Driver && lines[j].role == Helper)
    && (forall j :: 0 <= j < |lines| && lines[j].PayLine? && lines[j].role == Helper ==>
          j > 0 && lines[j - 1].tripId == lines[j].tripId && lines[j - 1].role == Driver)
  }

  ghost predicate IsNumber(kind: Kind, number: string) {
    exists year: nat, n: nat :: n >= 1 && number == FormatNumber(kind, year, n)
  }

  /** A stored document is internally consistent, whatever became of its trips. */
  ghost predicate DocOk(kind: Kind, d: Doc) {
    && (d.Invoice? <==> kind.Billing?)
    && d.status in Statuses(kind)
    && d.lines != [] && WellShaped(kind, d.lines)
    && IsNumber(kind, d.number)
    && d.total == LineTotal(d.lines)
    && (d.paidAt.Some? <==> d.status == Paid)
    && (d.Invoice? ==> d.amountPaid == if d.status == Paid then d.total else 0)
    && (d.PayRun? ==> d.workerCount == |WorkerIds(d.lines)|)
  }

  ghost predicate DocsOk(kind: Kind, docs: map<Id, Doc>) {
    forall id {:trigger DocOk(kind, docs[id])} :: id in docs ==> DocOk(kind, docs[id])
  }

  ghost predicate NumbersUnique(docs: map<Id, Doc>) {
    forall a, b :: a in docs && b in docs && docs[a].number == docs[b].number ==> a == b
  }

  /** No trip is held by two documents. */
  ghost predicate CoveredOnce(docs: map<Id, Doc>) {
    forall a, b :: a in docs && b in docs && a != b ==> Covers(docs[a]) !! Covers(docs[b])
  }

  /** A number taken for `year` is still free, unless it needs a fifth digit. */
  ghost predicate NumberReady(docs: map<Id, Doc>, kind: Kind, year: nat, number: string) {
    exists n: nat :: n >= 1 && number == FormatNumber(kind, year, n) && (n <= 9999 ==> !Stored(docs, number))
  }

  ghost predicate SessionOk(b: Book) {
    && (!b.session.Idle? ==> Fits(b.kind, b.session.req))
    && (b.session.HasCover? ==> Cover(b.docs) <= b.session.covered)
    && (b.session.HasLines? || b.session.HasNumber? ==>
          && b.session.lines != [] && WellShaped(b.kind, b.session.lines)
          && TripIds(b.session.lines) !! Cover(b.docs))
    && (b.session.HasNumber? ==> NumberReady(b.docs, b.kind, b.session.req.year, b.session.number))
  }

  ghost predicate BookInv(b: Book) {
    DocsOk(b.kind, b.docs) && NumbersUnique(b.docs) && CoveredOnce(b.docs) && SessionOk(b)
  }
}
