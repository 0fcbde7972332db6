/** Runs that bring one year's numbers of a kind to an all-nines number, and the create
    that is refused from then on. */
module NumberRuns {
  import opened Common
  import opened Numerals
  import D = Documents
  import L = DocumentLaws
  import opened Erp
  import ErpTheorems
  import opened ErpRuns

  /** Documents are of one client's trips, and each takes one trip. */
  function TripOf(): Trip {
    Trip("truck", "code", "client", "name", 0, 1, None, Worker("driver", "name"), None, 0, 0, 0)
  }

  function RequestOf(kind: D.Kind, year: nat): D.Request {
    if kind.Billing? then D.InvoiceFor("client", 0, 0, 0, year, None) else D.RunFor(0, 0, year, None)
  }

  function LinesOn(kind: D.Kind, t: Id): seq<D.Line> {
    D.LinesFor(kind, t, TripOf())
  }

  function BookIn(trace: seq<State>, kind: D.Kind): D.Book
    requires trace != []
  {
    BookOf(Last(trace), kind)
  }

  // ----- one step on the documents -----

  /** A run goes on with a step on the documents of a kind that is no update. */
  lemma Go(trace: seq<State>, kind: D.Kind, d: D.Action) returns (longer: seq<State>)
    requires IsRun(trace) && !d.Change? && D.NewIds(d) !! Last(trace).used
    requires D.Enabled(BookIn(trace, kind), Last(trace).trips, d)
    ensures IsRun(longer)
    ensures var s, s' := Last(trace), Last(longer);
            && BookOf(s', kind) == D.Apply(BookOf(s, kind), s.trips, s.clients.Keys, d)
            && s'.trips == s.trips && s'.clients == s.clients && s'.trucks == s.trucks
  {
    var s := Last(trace);
    var h := FreshId(s.used + D.NewIds(d));
    longer := GoOn(trace, Document(kind, d, h));
    CommitMovesBook(s, kind, d, h, D.Apply(BookOf(s, kind), s.trips, s.clients.Keys, d));
  }

  lemma CommitMovesBook(s: State, kind: D.Kind, d: D.Action, h: Id, b: D.Book)
    requires !d.Change?
    ensures var s' := Commit(s, kind, d, h, b);
            BookOf(s', kind) == b && s'.trips == s.trips && s'.clients == s.clients && s'.trucks == s.trucks
  {
  }

  lemma BookFine(trace: seq<State>, kind: D.Kind)
    requires IsRun(trace)
    ensures D.BookInv(BookIn(trace, kind)) && BookIn(trace, kind).kind == kind
  {
    ErpTheorems.BookOk(trace, |trace| - 1, kind);
  }

  // ----- a create -----

  /** There is one trip, which no document of the kind holds. */
  lemma NewTrip(trace: seq<State>, kind: D.Kind) returns (longer: seq<State>, t: Id)
    requires IsRun(trace)
    ensures IsRun(longer) && BookIn(longer, kind) == BookIn(trace, kind)
    ensures Last(longer).trips == map[t := TripOf()] && Last(longer).clients == map["client" := "name"]
    ensures t !in D.Cover(BookIn(trace, kind).docs)
  {
    t := FreshId(D.Cover(BookIn(trace, kind).docs));
    longer := GoOn(trace, Operate(map[t := TripOf()], map["client" := "name"], Last(trace).trucks));
  }

  lemma OnlyTripRead(kind: D.Kind, t: Id, req: D.Request, covered: set<Id>)
    requires t !in covered && req == RequestOf(kind, req.year)
    ensures D.IsOrderedRead(map[t := TripOf()], D.Eligible(map[t := TripOf()], req, covered), [t])
    ensures D.LinesOf(kind, map[t := TripOf()], [t]) == LinesOn(kind, t)
  {
    assert [t][..0] == [];
    assert D.LinesOf(kind, map[t := TripOf()], [t]) == D.LinesOf(kind, map[t := TripOf()], []) + LinesOn(kind, t);
  }

  /** A create of the year reads its trip. */
  lemma HoldLines(trace: seq<State>, kind: D.Kind, year: nat) returns (longer: seq<State>, t: Id)
    requires IsRun(trace) && BookIn(trace, kind).session.Idle?
    ensures IsRun(longer) && t !in D.Cover(BookIn(trace, kind).docs)
    ensures BookIn(longer, kind) == BookIn(trace, kind).(session := D.HasLines(RequestOf(kind, year), LinesOn(kind, t)))
  {
    BookFine(trace, kind);
    longer, t := NewTrip(trace, kind);
    longer := Go(longer, kind, D.Begin(RequestOf(kind, year)));
    OnlyTripRead(kind, t, RequestOf(kind, year), D.Cover(BookIn(trace, kind).docs));
    longer := Go(longer, kind, D.Snapshot([t]));
  }

  /** A create of the year reads its trip and takes its number. */
  lemma HoldNumber(trace: seq<State>, kind: D.Kind, year: nat, number: string) returns (longer: seq<State>, t: Id)
    requires IsRun(trace) && BookIn(trace, kind).session.Idle?
    requires D.IsNextNumber(BookIn(trace, kind).docs, D.Prefix(kind, year), number)
    ensures IsRun(longer) && t !in D.Cover(BookIn(trace, kind).docs)
    ensures BookIn(longer, kind) ==
            BookIn(trace, kind).(session := D.HasNumber(RequestOf(kind, year), LinesOn(kind, t), number))
  {
    BookFine(trace, kind);
    longer, t := HoldLines(trace, kind, year);
    longer := Go(longer, kind, D.Number(number));
  }

  /** A whole create under a number that is free. */
  lemma Draft(trace: seq<State>, kind: D.Kind, year: nat, number: string) returns (longer: seq<State>, id: Id)
    requires IsRun(trace) && BookIn(trace, kind).session.Idle?
    requires D.IsNextNumber(BookIn(trace, kind).docs, D.Prefix(kind, year), number)
    requires !D.Stored(BookIn(trace, kind).docs, number)
    ensures IsRun(longer) && BookIn(longer, kind).session.Idle? && id !in BookIn(trace, kind).docs
    ensures var docs, docs' := BookIn(trace, kind).docs, BookIn(longer, kind).docs;
            id in docs' && docs' == docs[id := docs'[id]] && docs'[id].number == number && docs'[id].status == D.Draft
  {
    var t;
    longer, t := HoldNumber(trace, kind, year, number);
    id := FreshId(Last(longer).used + BookIn(trace, kind).docs.Keys);
    longer := Go(longer, kind, D.Store(id));
  }

  // ----- the numbers of a year -----

  /** The year holds one document of the kind, a draft numbered `n`. */
  ghost predicate Alone(s: State, kind: D.Kind, year: nat, n: nat, id: Id) {
    && BookOf(s, kind).session.Idle? && BookOf(s, kind).docs.Keys == {id}
    && BookOf(s, kind).docs[id].number == D.FormatNumber(kind, year, n) && BookOf(s, kind).docs[id].status == D.Draft
  }

  lemma FirstNumber(kind: D.Kind, docs: map<Id, D.Doc>, year: nat)
    requires docs == map[]
    ensures D.IsNextNumber(docs, D.Prefix(kind, year), D.FormatNumber(kind, year, 1))
  {
    assert D.NumbersWith(docs, D.Prefix(kind, year)) == {};
  }

  lemma OnlyNumber(kind: D.Kind, docs: map<Id, D.Doc>, year: nat, n: nat, id: Id, k: nat)
    requires docs.Keys == {id} && docs[id].number == D.FormatNumber(kind, year, n)
    ensures D.Stored(docs, D.FormatNumber(kind, year, k)) ==> k == n
  {
    if D.Stored(docs, D.FormatNumber(kind, year, k)) {
      L.FormatInjective(kind, year, k, n);
    }
  }

  lemma NumberAfter(kind: D.Kind, docs: map<Id, D.Doc>, year: nat, n: nat, id: Id)
    requires D.DocsOk(kind, docs) && docs.Keys == {id} && docs[id].number == D.FormatNumber(kind, year, n)
    ensures D.IsNextNumber(docs, D.Prefix(kind, year), D.FormatNumber(kind, year, n + 1))
    ensures !D.Stored(docs, D.FormatNumber(kind, year, n + 1))
  {
    OnlyNumber(kind, docs, year, n, id, n + 1);
    assert docs[id].number in D.NumbersWith(docs, D.Prefix(kind, year));
    var number := L.NextNumberExists(docs, D.Prefix(kind, year));
    var m := L.NextAfterLast(kind, docs, year, number);
    OnlyNumber(kind, docs, year, n, id, m);
  }

  lemma DeleteOther(trace: seq<State>, kind: D.Kind, old_: Id, id: Id) returns (longer: seq<State>)
    requires IsRun(trace) && BookIn(trace, kind).docs.Keys == {old_, id} && old_ != id
    requires BookIn(trace, kind).docs[old_].status == D.Draft
    ensures IsRun(longer) && BookIn(longer, kind).docs.Keys == {id}
    ensures BookIn(longer, kind).session == BookIn(trace, kind).session
    ensures BookIn(longer, kind).docs[id] == BookIn(trace, kind).docs[id]
  {
    longer := Go(trace, kind, D.Delete(old_));
  }

  /** For every `n`, a run brings the year to the one number `n`: create the next document,
      delete the draft before it. */
  lemma {:induction false} ReachNumber(kind: D.Kind, year: nat, n: nat) returns (trace: seq<State>, id: Id)
    requires n >= 1
    ensures IsRun(trace) && Alone(Last(trace), kind, year, n, id)
  {
    if n == 1 {
      trace := Start();
      FirstNumber(kind, BookIn(trace, kind).docs, year);
      trace, id := Draft(trace, kind, year, D.FormatNumber(kind, year, 1));
    } else {
      var before;
      trace, before := ReachNumber(kind, year, n - 1);
      BookFine(trace, kind);
      NumberAfter(kind, BookIn(trace, kind).docs, year, n - 1, before);
      trace, id := Draft(trace, kind, year, D.FormatNumber(kind, year, n));
      trace := DeleteOther(trace, kind, before, id);
    }
  }

  /** Both the all-nines number `m` and the one after it are stored, and nothing else. */
  lemma ReachStuck(kind: D.Kind, year: nat, m: nat) returns (trace: seq<State>)
    requires AllNines(m) && m >= 1
    ensures IsRun(trace) && BookIn(trace, kind).session.Idle?
    ensures D.IsNextNumber(BookIn(trace, kind).docs, D.Prefix(kind, year), D.FormatNumber(kind, year, m + 1))
    ensures D.Stored(BookIn(trace, kind).docs, D.FormatNumber(kind, year, m + 1))
  {
    var a, b;
    trace, a := ReachNumber(kind, year, m);
    BookFine(trace, kind);
    NumberAfter(kind, BookIn(trace, kind).docs, year, m, a);
    trace, b := Draft(trace, kind, year, D.FormatNumber(kind, year, m + 1));
    BookFine(trace, kind);
    TwoNumbersStick(kind, BookIn(trace, kind).docs, year, m, a, b);
  }

  lemma TwoNumbersStick(kind: D.Kind, docs: map<Id, D.Doc>, year: nat, m: nat, a: Id, b: Id)
    requires AllNines(m) && D.DocsOk(kind, docs) && docs.Keys == {a, b}
    requires docs[a].number == D.FormatNumber(kind, year, m)
    requires docs[b].number == D.FormatNumber(kind, year, m + 1)
    ensures D.Stored(docs, D.FormatNumber(kind, year, m + 1))
    ensures D.IsNextNumber(docs, D.Prefix(kind, year), D.FormatNumber(kind, year, m + 1))
  {
    assert a in docs && b in docs;
    forall k: nat | D.Stored(docs, D.FormatNumber(kind, year, k))
      ensures k <= m + 1
    {
      var id :| id in docs && docs[id].number == D.FormatNumber(kind, year, k);
      L.FormatInjective(kind, year, k, if id == a then m else m + 1);
    }
    var number := L.NextNumberExists(docs, D.Prefix(kind, year));
    L.StuckAfterNines(kind, docs, year, m, number);
  }

  /** For every all-nines number, 9999 the first, a run in which a create for a trip
      nobody holds is refused for the number it was given. */
  lemma CreateRefusedAfterNines(kind: D.Kind, year: nat, m: nat) returns (trace: seq<State>, t: Id)
    requires AllNines(m) && m >= 1
    ensures IsRun(trace)
    ensures var b := BookIn(trace, kind);
            && b.session == D.HasNumber(RequestOf(kind, year), LinesOn(kind, t), D.FormatNumber(kind, year, m + 1))
            && t !in D.Cover(b.docs)
            && forall id :: D.Insert(b, id) == D.Outcome(b.(session := D.Idle), Err(D.NumberTaken))
  {
    trace := ReachStuck(kind, year, m);
    trace, t := HoldNumber(trace, kind, year, D.FormatNumber(kind, year, m + 1));
  }

  /** Four digits are the first to run out: after 9999 the number given is 10000 for good. */
  lemma CreateRefusedAfter9999(kind: D.Kind, year: nat) returns (trace: seq<State>, t: Id)
    ensures IsRun(trace) && t !in D.Cover(BookIn(trace, kind).docs)
    ensures BookIn(trace, kind).session ==
            D.HasNumber(RequestOf(kind, year), LinesOn(kind, t), D.FormatNumber(kind, year, 10000))
    ensures D.Insert(BookIn(trace, kind), "").result == Err(D.NumberTaken)
  {
    L.NinesAt9999();
    trace, t := CreateRefusedAfterNines(kind, year, 9999);
  }
}
