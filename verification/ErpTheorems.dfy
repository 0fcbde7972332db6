/** What holds in every reachable state of the money side, and along every run. */
module ErpTheorems {
  import opened Common
  import opened Sums
  import D = Documents
  import L = DocumentLaws
  import T = Treasury
  import AD = AccountDefaults
  import N = Numbering
  import opened Numerals
  import opened Erp

  /** In every reachable state no trip is on lines of two non-void invoices, nor
      twice on one. */
  lemma TripBilledOnce(trace: seq<State>, n: nat, a: Id, i: nat, b: Id, j: nat)
    requires IsRun(trace) && n < |trace|
    requires var docs := trace[n].billing.docs;
             && a in docs && b in docs && docs[a].status != D.Void && docs[b].status != D.Void
             && i < |docs[a].lines| && j < |docs[b].lines| && docs[a].lines[i].tripId == docs[b].lines[j].tripId
    ensures a == b && i == j
  {
    RunKeeps(trace, n);
    SameTripSameDoc(trace[n].billing, a, i, b, j);
    assert D.DocOk(D.Billing, trace[n].billing.docs[a]);
  }

  lemma SameTripSameDoc(book: D.Book, a: Id, i: nat, b: Id, j: nat)
    requires D.BookInv(book)
    requires a in book.docs && b in book.docs && book.docs[a].status != D.Void && book.docs[b].status != D.Void
    requires i < |book.docs[a].lines| && j < |book.docs[b].lines|
    requires book.docs[a].lines[i].tripId == book.docs[b].lines[j].tripId
    ensures a == b
  {
    assert book.docs[a].lines[i] in book.docs[a].lines && book.docs[b].lines[j] in book.docs[b].lines;
    assert book.docs[a].lines[i].tripId in D.Covers(book.docs[a]);
    assert book.docs[a].lines[i].tripId in D.Covers(book.docs[b]);
  }

  /** A trip is paid once and whole: two lines of non-void runs for one trip are on
      the same run, in different roles unless they are the same line, and a helper
      line comes with the trip's driver line. */
  lemma TripPaidOnceAndWhole(trace: seq<State>, n: nat, a: Id, i: nat, b: Id, j: nat)
    requires IsRun(trace) && n < |trace|
    requires var docs := trace[n].payroll.docs;
             && a in docs && b in docs && docs[a].status != D.Void && docs[b].status != D.Void
             && i < |docs[a].lines| && j < |docs[b].lines| && docs[a].lines[i].tripId == docs[b].lines[j].tripId
    ensures a == b
    ensures var lines := trace[n].payroll.docs[a].lines;
            && lines[i].PayLine? && lines[j].PayLine?
            && (lines[i].role == lines[j].role ==> i == j)
            && (lines[i].role == D.Helper ==>
                  i > 0 && lines[i - 1].PayLine? && lines[i - 1].role == D.Driver &&
                      lines[i - 1].tripId == lines[i].tripId)
  {
    RunKeeps(trace, n);
    SameTripSameDoc(trace[n].payroll, a, i, b, j);
    assert D.DocOk(D.Payroll, trace[n].payroll.docs[a]);
  }

  // ----- where a document comes from -----

  /** The create that made a document: where it read the covered trips, where it read
      the trips, where it was stored, its request, and the trips it read. */
  datatype Creation = Creation(begin: nat, read: nat, store: nat, req: D.Request, ids: seq<Id>)

  function DocsAt(trace: seq<State>, kind: D.Kind, i: nat): map<Id, D.Doc>
    requires i < |trace|
  {
    BookOf(trace[i], kind).docs
  }

  function SessionAt(trace: seq<State>, kind: D.Kind, i: nat): D.Session
    requires i < |trace|
  {
    BookOf(trace[i], kind).session
  }

  /** From `begin` on the create holds the trips covered at `begin`. */
  ghost predicate Begun(trace: seq<State>, kind: D.Kind, begin: nat, n: nat, req: D.Request) {
    && begin < n < |trace|
    && SessionAt(trace, kind, begin).Idle? && D.Fits(kind, req) && req.from <= req.to
    && (req.InvoiceFor? ==> req.clientId in trace[begin].clients)
    && forall i {:trigger SessionAt(trace, kind, i)} :: begin < i <= n ==>
         SessionAt(trace, kind, i) == D.HasCover(req, D.Cover(DocsAt(trace, kind, begin)))
  }

  predicate Holding(s: D.Session, req: D.Request, lines: seq<D.Line>) {
    (s.HasLines? || s.HasNumber?) && s.req == req && s.lines == lines
  }

  /** From `read` on it holds the lines of exactly the trips that matched its request
      and were not among those covered, as they stood at `read`. */
  ghost predicate HasRead(trace: seq<State>, kind: D.Kind, begin: nat, read: nat, n: nat, req: D.Request,
                          ids: seq<Id>) {
    && read < n < |trace| && Begun(trace, kind, begin, read, req)
    && D.IsOrderedRead(trace[read].trips,
                       D.Eligible(trace[read].trips, req, D.Cover(DocsAt(trace, kind, begin))), ids)
    && forall i {:trigger SessionAt(trace, kind, i)} :: read < i <= n ==>
         Holding(SessionAt(trace, kind, i), req, D.LinesOf(kind, trace[read].trips, ids))
  }

  /** The step from `store` inserts the document that this create made. */
  ghost predicate Created(trace: seq<State>, kind: D.Kind, id: Id, c: Creation) {
    && c.store + 1 < |trace| && HasRead(trace, kind, c.begin, c.read, c.store, c.req, c.ids)
    && SessionAt(trace, kind, c.store).HasNumber?
    && id !in DocsAt(trace, kind, c.store) && id in DocsAt(trace, kind, c.store + 1)
    && DocsAt(trace, kind, c.store + 1)[id] ==
       D.NewDoc(c.req, D.LinesOf(kind, trace[c.read].trips, c.ids), SessionAt(trace, kind, c.store).number)
  }

  /** Every create in flight and every document has its history. */
  ghost predicate CoverHistory(trace: seq<State>, kind: D.Kind, n: nat)
    requires n < |trace|
  {
    SessionAt(trace, kind, n).HasCover? ==>
      exists begin: nat ::
        && Begun(trace, kind, begin, n, SessionAt(trace, kind, n).req)
        && SessionAt(trace, kind, n).covered == D.Cover(DocsAt(trace, kind, begin))
  }

  ghost predicate LinesHistory(trace: seq<State>, kind: D.Kind, n: nat)
    requires n < |trace|
  {
    SessionAt(trace, kind, n).HasLines? || SessionAt(trace, kind, n).HasNumber? ==>
      exists begin: nat, read: nat, ids ::
        && HasRead(trace, kind, begin, read, n, SessionAt(trace, kind, n).req, ids)
        && SessionAt(trace, kind, n).lines == D.LinesOf(kind, trace[read].trips, ids)
  }

  ghost predicate DocHistory(trace: seq<State>, kind: D.Kind, n: nat, id: Id)
    requires n < |trace|
  {
    id in DocsAt(trace, kind, n) ==> exists c: Creation :: c.store < n && Created(trace, kind, id, c)
  }

  /** One step of a run as seen by one book: nothing, or a step of that book. */
  lemma BookStep(trace: seq<State>, n: nat, kind: D.Kind) returns (d: Option<D.Action>)
    requires IsRun(trace) && n + 1 < |trace|
    ensures d.None? ==> BookOf(trace[n + 1], kind) == BookOf(trace[n], kind)
    ensures d.Some? ==>
              && D.Enabled(BookOf(trace[n], kind), trace[n].trips, d.value)
              && (d.value.Store? ==> d.value.id !in BookOf(trace[n], kind).docs)
              && BookOf(trace[n + 1], kind) ==
                 D.Apply(BookOf(trace[n], kind), trace[n].trips, trace[n].clients.Keys, d.value)
    ensures BookOf(trace[n], kind).kind == kind
  {
    RunKeeps(trace, n);
    assert StepAt(trace, n);
    var a :| Enabled(trace[n], a) && trace[n + 1] == Apply(trace[n], a);
    BookAfter(trace[n], a, kind);
    d := if a.Document? && a.kind == kind then Some(a.step) else None;
  }

  /** What a step of a book does to the create in flight and to the documents. */
  lemma SessionAfter(b: D.Book, trips: map<Id, Trip>, clients: set<Id>, d: D.Action)
    requires D.Enabled(b, trips, d) && (d.Store? ==> d.id !in b.docs)
    ensures var b' := D.Apply(b, trips, clients, d);
            && (b'.session.HasCover? && b'.session != b.session ==>
                  && d.Begin? && b.session.Idle? && D.Fits(b.kind, d.req) && d.req.from <= d.req.to
                  && (d.req.InvoiceFor? ==> d.req.clientId in clients)
                  && b'.session == D.HasCover(d.req, D.Cover(b.docs)))
            && (b'.session.HasLines? || b'.session.HasNumber? ==>
                  if d.Snapshot? then
                    && b.session.HasCover?
                    && D.IsOrderedRead(trips, D.Eligible(trips, b.session.req, b.session.covered), d.ids)
                    && Holding(b'.session, b.session.req, D.LinesOf(b.kind, trips, d.ids))
                  else Holding(b.session, b'.session.req, b'.session.lines))
            && forall id :: id in b'.docs && id !in b.docs ==>
                 b.session.HasNumber? && b'.docs[id] == D.NewDoc(b.session.req, b.session.lines, b.session.number)
  {
  }

  lemma CoverHistoryStep(trace: seq<State>, kind: D.Kind, n: nat)
    requires IsRun(trace) && n + 1 < |trace| && CoverHistory(trace, kind, n)
    ensures CoverHistory(trace, kind, n + 1)
  {
    var b := BookOf(trace[n], kind);
    var s' := SessionAt(trace, kind, n + 1);
    var d := BookStep(trace, n, kind);
    if d.Some? {
      SessionAfter(b, trace[n].trips, trace[n].clients.Keys, d.value);
    }
    if s'.HasCover? {
      if s' == SessionAt(trace, kind, n) {
        var begin: nat :| Begun(trace, kind, begin, n, s'.req) && s'.covered == D.Cover(DocsAt(trace, kind, begin));
        assert Begun(trace, kind, begin, n + 1, s'.req);
      } else {
        assert Begun(trace, kind, n, n + 1, s'.req);
      }
    }
  }

  /** Where the lines a create holds after a step come from: the step read them, or it
      held them before. */
  lemma LinesAfter(trace: seq<State>, kind: D.Kind, n: nat) returns (fresh_: bool, ids: seq<Id>)
    requires IsRun(trace) && n + 1 < |trace|
    requires SessionAt(trace, kind, n + 1).HasLines? || SessionAt(trace, kind, n + 1).HasNumber?
    ensures var s, s' := SessionAt(trace, kind, n), SessionAt(trace, kind, n + 1);
            if fresh_ then
              && s.HasCover? && D.IsOrderedRead(trace[n].trips, D.Eligible(trace[n].trips, s.req, s.covered), ids)
              && Holding(s', s.req, D.LinesOf(kind, trace[n].trips, ids))
            else Holding(s, s'.req, s'.lines)
  {
    var d := BookStep(trace, n, kind);
    fresh_, ids := false, [];
    if d.Some? {
      SessionAfter(BookOf(trace[n], kind), trace[n].trips, trace[n].clients.Keys, d.value);
      if d.value.Snapshot? {
        fresh_, ids := true, d.value.ids;
      }
    }
  }

  lemma HasReadStarts(trace: seq<State>, kind: D.Kind, begin: nat, n: nat, req: D.Request, ids: seq<Id>)
    requires n + 1 < |trace| && Begun(trace, kind, begin, n, req)
    requires D.IsOrderedRead(trace[n].trips, D.Eligible(trace[n].trips, req, D.Cover(DocsAt(trace, kind, begin))), ids)
    requires Holding(SessionAt(trace, kind, n + 1), req, D.LinesOf(kind, trace[n].trips, ids))
    ensures HasRead(trace, kind, begin, n, n + 1, req, ids)
  {
  }

  lemma HasReadGoesOn(trace: seq<State>, kind: D.Kind, begin: nat, read: nat, n: nat, req: D.Request, ids: seq<Id>)
    requires n + 1 < |trace| && HasRead(trace, kind, begin, read, n, req, ids)
    requires Holding(SessionAt(trace, kind, n + 1), req, D.LinesOf(kind, trace[read].trips, ids))
    ensures HasRead(trace, kind, begin, read, n + 1, req, ids)
  {
  }

  lemma LinesHistoryStep(trace: seq<State>, kind: D.Kind, n: nat)
    requires IsRun(trace) && n + 1 < |trace| && CoverHistory(trace, kind, n) && LinesHistory(trace, kind, n)
    ensures LinesHistory(trace, kind, n + 1)
  {
    var s, s' := SessionAt(trace, kind, n), SessionAt(trace, kind, n + 1);
    if s'.HasLines? || s'.HasNumber? {
      var fresh_, read := LinesAfter(trace, kind, n);
      if fresh_ {
        var begin: nat :| Begun(trace, kind, begin, n, s.req) && s.covered == D.Cover(DocsAt(trace, kind, begin));
        HasReadStarts(trace, kind, begin, n, s.req, read);
      } else {
        var begin: nat, k: nat, ids :| HasRead(trace, kind, begin, k, n, s.req, ids)
                                       && s.lines == D.LinesOf(kind, trace[k].trips, ids);
        HasReadGoesOn(trace, kind, begin, k, n, s.req, ids);
      }
    }
  }

  /** A document that appears holds what the create in flight held. */
  lemma DocAfter(trace: seq<State>, kind: D.Kind, n: nat, id: Id)
    requires IsRun(trace) && n + 1 < |trace|
    requires id in DocsAt(trace, kind, n + 1) && id !in DocsAt(trace, kind, n)
    ensures var s := SessionAt(trace, kind, n);
            s.HasNumber? && DocsAt(trace, kind, n + 1)[id] == D.NewDoc(s.req, s.lines, s.number)
  {
    var d := BookStep(trace, n, kind);
    if d.Some? {
      SessionAfter(BookOf(trace[n], kind), trace[n].trips, trace[n].clients.Keys, d.value);
    }
  }

  lemma DocHistoryStep(trace: seq<State>, kind: D.Kind, n: nat, id: Id)
    requires IsRun(trace) && n + 1 < |trace| && LinesHistory(trace, kind, n) && DocHistory(trace, kind, n, id)
    ensures DocHistory(trace, kind, n + 1, id)
  {
    if id in DocsAt(trace, kind, n + 1) && id !in DocsAt(trace, kind, n) {
      DocAfter(trace, kind, n, id);
      var s := SessionAt(trace, kind, n);
      var begin: nat, read: nat, ids :| HasRead(trace, kind, begin, read, n, s.req, ids)
                                        && s.lines == D.LinesOf(kind, trace[read].trips, ids);
      assert Created(trace, kind, id, Creation(begin, read, n, s.req, ids));
    }
  }

  lemma {:induction false} Histories(trace: seq<State>, kind: D.Kind, n: nat, id: Id)
    requires IsRun(trace) && n < |trace|
    ensures CoverHistory(trace, kind, n) && LinesHistory(trace, kind, n) && DocHistory(trace, kind, n, id)
  {
    if n == 0 {
    } else {
      Histories(trace, kind, n - 1, id);
      CoverHistoryStep(trace, kind, n - 1);
      LinesHistoryStep(trace, kind, n - 1);
      DocHistoryStep(trace, kind, n - 1, id);
    }
  }

  /** In every run each document was stored by one create, from the trips that matched
      its request and that it found uncovered, as they stood when that create read
      them, and has kept those lines, its client and its period ever since. */
  lemma LinesAreSnapshots(trace: seq<State>, kind: D.Kind, n: nat, id: Id) returns (c: Creation)
    requires IsRun(trace) && n < |trace| && id in DocsAt(trace, kind, n)
    ensures c.store < n && Created(trace, kind, id, c)
    ensures L.Continues(DocsAt(trace, kind, c.store + 1)[id], DocsAt(trace, kind, n)[id])
    ensures DocsAt(trace, kind, n)[id].lines == D.LinesOf(kind, trace[c.read].trips, c.ids)
  {
    c := CreationOf(trace, kind, n, id);
    CreatedLines(trace, kind, id, c);
    DocumentsFrozen(trace, kind, c.store + 1, n, id);
  }

  lemma CreationOf(trace: seq<State>, kind: D.Kind, n: nat, id: Id) returns (c: Creation)
    requires IsRun(trace) && n < |trace| && id in DocsAt(trace, kind, n)
    ensures c.store < n && Created(trace, kind, id, c)
  {
    Histories(trace, kind, n, id);
    c :| c.store < n && Created(trace, kind, id, c);
  }

  lemma CreatedLines(trace: seq<State>, kind: D.Kind, id: Id, c: Creation)
    requires Created(trace, kind, id, c)
    ensures id in DocsAt(trace, kind, c.store + 1)
    ensures DocsAt(trace, kind, c.store + 1)[id].lines == D.LinesOf(kind, trace[c.read].trips, c.ids)
  {
  }

  lemma {:induction false} LineFromTrip(kind: D.Kind, trips: map<Id, Trip>, ids: seq<Id>, l: D.Line)
    requires forall id :: id in ids ==> id in trips
    requires l in D.LinesOf(kind, trips, ids)
    ensures l.tripId in ids && l in D.LinesFor(kind, l.tripId, trips[l.tripId])
    decreases |ids|
  {
    if ids == [] {
    } else {
      var n := |ids| - 1;
      var front, last := D.LinesOf(kind, trips, ids[..n]), D.LinesFor(kind, ids[n], trips[ids[n]]);
      assert l in front || l in last;
      if l in front {
        LineFromTrip(kind, trips, ids[..n], l);
      }
    }
  }

  /** Every line is dated in the document's period and carries what its trip was worth
      when the create read it; that trip was of the invoice's client, and uncovered
      when the create began. */
  lemma LinesMatchDocument(trace: seq<State>, kind: D.Kind, n: nat, id: Id, l: D.Line) returns (c: Creation)
    requires IsRun(trace) && n < |trace| && id in DocsAt(trace, kind, n) && l in DocsAt(trace, kind, n)[id].lines
    ensures c.store < n && Created(trace, kind, id, c)
    ensures var d := DocsAt(trace, kind, n)[id];
            && d.periodFrom <= l.date <= d.periodTo
            && l.tripId in trace[c.read].trips
            && l in D.LinesFor(kind, l.tripId, trace[c.read].trips[l.tripId])
            && (kind.Billing? ==> d.Invoice? && trace[c.read].trips[l.tripId].clientId == d.clientId)
            && l.tripId !in D.Cover(DocsAt(trace, kind, c.begin))
  {
    c := LinesAreSnapshots(trace, kind, n, id);
    LineFromTrip(kind, trace[c.read].trips, c.ids, l);
    CreatedMatches(trace, kind, id, c, l.tripId);
  }

  lemma CreatedMatches(trace: seq<State>, kind: D.Kind, id: Id, c: Creation, t: Id)
    requires Created(trace, kind, id, c) && t in c.ids
    ensures var d := DocsAt(trace, kind, c.store + 1)[id];
            && t in trace[c.read].trips && d.periodFrom <= trace[c.read].trips[t].date <= d.periodTo
            && (kind.Billing? ==> d.Invoice? && trace[c.read].trips[t].clientId == d.clientId)
            && t !in D.Cover(DocsAt(trace, kind, c.begin))
  {
  }

  lemma DocsUsed(trace: seq<State>, n: nat, kind: D.Kind)
    requires IsRun(trace) && n < |trace|
    ensures BookOf(trace[n], kind).docs.Keys <= trace[n].used
  {
    RunKeeps(trace, n);
  }

  lemma ActionFreezes(s: State, a: Action, kind: D.Kind)
    requires Enabled(s, a) && BookOf(s, kind).docs.Keys <= s.used
    ensures L.Frozen(BookOf(s, kind).docs, BookOf(Apply(s, a), kind).docs)
    ensures forall id :: id in BookOf(Apply(s, a), kind).docs && id !in BookOf(s, kind).docs ==> id !in s.used
  {
    BookAfter(s, a, kind);
    if a.Document? && a.kind == kind {
      L.ApplyFreezes(BookOf(s, kind), s.trips, s.clients.Keys, a.step);
    }
  }

  lemma StepFreezes(trace: seq<State>, n: nat, kind: D.Kind)
    requires IsRun(trace) && n + 1 < |trace|
    ensures L.Frozen(DocsAt(trace, kind, n), DocsAt(trace, kind, n + 1)) && trace[n].used <= trace[n + 1].used
    ensures forall id :: id in DocsAt(trace, kind, n + 1) && id !in DocsAt(trace, kind, n) ==> id !in trace[n].used
  {
    DocsUsed(trace, n, kind);
    assert StepAt(trace, n);
    var a :| Enabled(trace[n], a) && trace[n + 1] == Apply(trace[n], a);
    BookAfter(trace[n], a, kind);
    ActionFreezes(trace[n], a, kind);
  }

  /** Frozen documents: between any two moments of a run a document keeps its
      lines, number and total, and once paid or void it stays so. */
  lemma {:induction false} DocumentsFrozen(trace: seq<State>, kind: D.Kind, m: nat, n: nat, id: Id)
    requires IsRun(trace) && m <= n < |trace|
    requires id in BookOf(trace[m], kind).docs
    ensures id in trace[n].used
    ensures id in BookOf(trace[n], kind).docs ==>
              L.Continues(BookOf(trace[m], kind).docs[id], BookOf(trace[n], kind).docs[id])
    decreases n
  {
    if m == n {
      DocsUsed(trace, n, kind);
    } else {
      DocumentsFrozen(trace, kind, m, n - 1, id);
      StepFreezes(trace, n - 1, kind);
    }
  }

  /** In every reachable state every invoice and run is internally consistent. */
  lemma DocumentsConsistent(trace: seq<State>, n: nat, kind: D.Kind, id: Id)
    requires IsRun(trace) && n < |trace| && id in BookOf(trace[n], kind).docs
    ensures var d := BookOf(trace[n], kind).docs[id];
            && d.total == D.LineTotal(d.lines) && d.lines != []
            && (d.paidAt.Some? <==> d.status == D.Paid)
            && (kind.Billing? ==> d.Invoice? && d.amountPaid == if d.status == D.Paid then d.total else 0)
            && (kind.Payroll? ==> d.PayRun? && d.workerCount == |D.WorkerIds(d.lines)|)
  {
    RunKeeps(trace, n);
    assert D.DocOk(kind, BookOf(trace[n], kind).docs[id]);
  }

  /** Document numbers are unique in every reachable state, and an insert is
      refused for its number only once that number needs a fifth digit. */
  lemma NumbersStayUnique(trace: seq<State>, n: nat, kind: D.Kind)
    requires IsRun(trace) && n < |trace|
    ensures D.NumbersUnique(BookOf(trace[n], kind).docs)
    ensures var b := BookOf(trace[n], kind);
            b.session.HasNumber? && |b.session.number| == |D.Prefix(kind, b.session.req.year)| + 4 ==>
              D.Insert(b, "").result.Ok?
  {
    RunKeeps(trace, n);
    var b := BookOf(trace[n], kind);
    if b.session.HasNumber? && |b.session.number| == |D.Prefix(kind, b.session.req.year)| + 4 {
      L.ShortNumberFree(b.docs, kind, b.session.req.year, b.session.number);
    }
  }

  ghost predicate SpreadAt(trace: seq<State>, kind: D.Kind, n: nat)
    requires n < |trace|
  {
    N.AllSpread(BookOf(trace[n], kind))
  }

  lemma SpreadAtStart(trace: seq<State>, kind: D.Kind)
    requires IsRun(trace)
    ensures SpreadAt(trace, kind, 0)
  {
    N.NothingTaken(BookOf(trace[0], kind));
  }

  lemma SpreadStep(trace: seq<State>, n: nat, kind: D.Kind)
    requires IsRun(trace) && n + 1 < |trace| && SpreadAt(trace, kind, n)
    ensures SpreadAt(trace, kind, n + 1)
  {
    var b := BookOf(trace[n], kind);
    assert D.BookInv(b) by {
      BookOk(trace, n, kind);
    }
    var d := BookStep(trace, n, kind);
    if d.Some? {
      N.StepKeepsSpread(b, trace[n].trips, trace[n].clients.Keys, d.value);
    }
  }

  lemma {:induction false} NumbersSpread(trace: seq<State>, n: nat, kind: D.Kind)
    requires IsRun(trace) && n < |trace|
    ensures SpreadAt(trace, kind, n)
  {
    if n == 0 {
      SpreadAtStart(trace, kind);
    } else {
      var before: nat := n - 1;
      NumbersSpread(trace, before, kind);
      SpreadStep(trace, before, kind);
      assert n == before + 1;
    }
  }

  lemma BookOk(trace: seq<State>, n: nat, kind: D.Kind)
    requires IsRun(trace) && n < |trace|
    ensures D.BookInv(BookOf(trace[n], kind)) && BookOf(trace[n], kind).kind == kind
  {
    RunKeeps(trace, n);
  }

  /** In every reachable state the number a create would take is already there exactly
      when the number that sorts last in its year is all nines and is not the greatest:
      never before 9999, and from then on until one of the two is deleted. */
  lemma NumberRefusedIff(trace: seq<State>, n: nat, kind: D.Kind, year: nat, last: nat, number: string)
    requires IsRun(trace) && n < |trace|
    requires D.IsNextNumber(DocsAt(trace, kind, n), D.Prefix(kind, year), number)
    requires D.IsLast(D.NumbersWith(DocsAt(trace, kind, n), D.Prefix(kind, year)), D.FormatNumber(kind, year, last))
    ensures D.Stored(DocsAt(trace, kind, n), number) <==>
            AllNines(last) && N.StoredBeyond(BookOf(trace[n], kind), year, last)
  {
    NumbersSpread(trace, n, kind);
    BookOk(trace, n, kind);
    N.RefusedIff(BookOf(trace[n], kind), year, last, number);
  }

  // ----- the ledger -----

  function HandlersFor(t: T.State, src: T.Source): set<Id> {
    set h | h in t.handlers && t.handlers[h].post.source == src
  }

  function RowsFor(t: T.State, src: T.Source): set<Id> {
    set r | r in t.ledger && t.ledger[r].source == Some(src)
  }

  function EndedFor(t: T.State, src: T.Source): set<Id> {
    set e | e in t.ended && t.ended[e].due.source == src
  }

  /** Is a source owed anything in this state? */
  function OwedIn(s: State, src: T.Source): Option<(T.Direction, int)> {
    Owed(L.PaidTotals(s.billing.docs), L.PaidTotals(s.payroll.docs), CostAmounts(s.recorded), src)
  }

  lemma AtMostOneElement(xs: set<Id>)
    requires forall x, y :: x in xs && y in xs ==> x == y
    ensures |xs| == if xs == {} then 0 else 1
  {
    if xs != {} {
      var x :| x in xs;
      assert xs == {x};
    }
  }

  /** The ids under which a source's posts are known. */
  lemma PostsFor(t: T.State, src: T.Source)
    requires T.OnePlace(t)
    ensures forall k :: k in T.Dues(t) && T.Dues(t)[k].source == src <==>
                        k in HandlersFor(t, src) + RowsFor(t, src) + EndedFor(t, src)
    ensures HandlersFor(t, src) !! RowsFor(t, src) && EndedFor(t, src) !! HandlersFor(t, src) + RowsFor(t, src)
  {
    T.DuesAt(t);
  }

  /** At most one posting per source, exactly: in every state of every interleaving
      a paid invoice, a paid run or a created cost has one post, which is on its
      way, in the ledger or ended; any other source has none. */
  lemma OnePostPerSource(trace: seq<State>, n: nat, src: T.Source)
    requires IsRun(trace) && n < |trace|
    ensures var t := trace[n].treasury;
            |HandlersFor(t, src)| + |RowsFor(t, src)| + |EndedFor(t, src)| ==
            if OwedIn(trace[n], src).Some? then 1 else 0
  {
    RunKeeps(trace, n);
    var t := trace[n].treasury;
    var hs, rs, es := HandlersFor(t, src), RowsFor(t, src), EndedFor(t, src);
    PostsFor(t, src);
    var all := hs + rs + es;
    assert |all| == |hs + rs| + |es| && |hs + rs| == |hs| + |rs|;
    forall x, y | x in all && y in all
      ensures x == y
    {
    }
    AtMostOneElement(all);
    if OwedIn(trace[n], src).Some? {
      var k :| k in T.Dues(t) && T.Dues(t)[k].source == src;
      assert k in all;
    } else {
      if k :| k in all {
        assert false;
      }
      assert all == {};
    }
  }

  /** The dedupe check of `autoPost` finds nothing in any run: the source's one
      post is the handler itself. */
  lemma DedupeNeverFires(trace: seq<State>, n: nat, h: Id)
    requires IsRun(trace) && n < |trace| && h in trace[n].treasury.handlers
    ensures !T.Posted(trace[n].treasury, trace[n].treasury.handlers[h].post.source)
  {
    RunKeeps(trace, n);
    var t := trace[n].treasury;
    T.DuesAt(t);
    assert forall r :: r in t.ledger && t.ledger[r].source.Some? ==>
        T.DueAt(t, r) == Some(T.DueOfRow(t.ledger[r])) && r in T.Dues(t) && h in T.Dues(t);
  }

  // ----- conservation -----

  ghost function HandlerAmounts(t: T.State, origin: T.Origin): map<Id, int> {
    map h | h in t.handlers && t.handlers[h].post.source.origin == origin :: t.handlers[h].post.amount
  }

  ghost function RowAmounts(t: T.State, origin: T.Origin): map<Id, int> {
    map r | r in t.ledger && t.ledger[r].source.Some? && t.ledger[r].source.value.origin == origin :: t.ledger[r].amount
  }

  ghost function EndedAmounts(t: T.State, origin: T.Origin): map<Id, int> {
    map e | e in t.ended && t.ended[e].due.source.origin == origin :: t.ended[e].due.amount
  }

  ghost function DueAmounts(t: T.State, origin: T.Origin): map<Id, int> {
    map k | k in T.Dues(t) && T.Dues(t)[k].source.origin == origin :: T.Dues(t)[k].amount
  }

  /** What the documents owe the ledger under one origin. */
  function OwedAmounts(s: State, origin: T.Origin): map<Id, int> {
    match origin
    case FromInvoice => L.PaidTotals(s.billing.docs)
    case FromPayroll => L.PaidTotals(s.payroll.docs)
    case FromCost => CostAmounts(s.recorded)
  }

  lemma DuesByPlace(t: T.State, origin: T.Origin)
    requires T.OnePlace(t)
    ensures MapSum(DueAmounts(t, origin)) ==
            MapSum(HandlerAmounts(t, origin)) + MapSum(RowAmounts(t, origin)) + MapSum(EndedAmounts(t, origin))
  {
    DueAmountAt(t, origin);
    var hs, rs, es := HandlerAmounts(t, origin), RowAmounts(t, origin), EndedAmounts(t, origin);
    var live := map k | k in DueAmounts(t, origin) && k !in es :: DueAmounts(t, origin)[k];
    MapSumSplit(DueAmounts(t, origin), live, es);
    MapSumSplit(live, hs, rs);
  }

  lemma DueAmountAt(t: T.State, origin: T.Origin)
    requires T.OnePlace(t)
    ensures forall k :: k in DueAmounts(t, origin) <==>
              k in HandlerAmounts(t, origin) || k in RowAmounts(t, origin) || k in EndedAmounts(t, origin)
    ensures forall k :: k in HandlerAmounts(t, origin) ==>
              DueAmounts(t, origin)[k] == HandlerAmounts(t, origin)[k] && k !in RowAmounts(t, origin) &&
                  k !in EndedAmounts(t, origin)
    ensures forall k :: k in RowAmounts(t, origin) ==>
              DueAmounts(t, origin)[k] == RowAmounts(t, origin)[k] && k !in EndedAmounts(t, origin)
    ensures forall k :: k in EndedAmounts(t, origin) ==> DueAmounts(t, origin)[k] == EndedAmounts(t, origin)[k]
  {
    T.DuesAt(t);
  }

  lemma DuesCoverOwed(s: State, origin: T.Origin)
    requires AllSettled(s)
    ensures MapSum(DueAmounts(s.treasury, origin)) == MapSum(OwedAmounts(s, origin))
  {
    var dues := T.Dues(s.treasury);
    var to := map k | k in DueAmounts(s.treasury, origin) :: dues[k].source.id;
    forall k, k' | k in to && k' in to && to[k] == to[k']
      ensures k == k'
    {
      assert dues[k].source == dues[k'].source;
    }
    forall id | id in OwedAmounts(s, origin)
      ensures exists k :: k in to && to[k] == id
    {
      assert OwedIn(s, T.Source(origin, id)).Some?;
      var k :| k in dues && dues[k].source == T.Source(origin, id);
      assert k in to && to[k] == id;
    }
    MapSumRename(DueAmounts(s.treasury, origin), OwedAmounts(s, origin), to);
  }

  /** Ledger conservation over every run: automatic rows, plus amounts still on
      their way, plus skipped, failed, hand-deleted and cascaded posts, equal the
      totals of paid invoices, of paid runs, or of all costs ever created. */
  lemma LedgerConserves(trace: seq<State>, n: nat, origin: T.Origin)
    requires IsRun(trace) && n < |trace|
    ensures var t := trace[n].treasury;
            MapSum(RowAmounts(t, origin)) + MapSum(HandlerAmounts(t, origin)) + MapSum(EndedAmounts(t, origin)) ==
            MapSum(OwedAmounts(trace[n], origin))
  {
    RunKeeps(trace, n);
    DuesByPlace(trace[n].treasury, origin);
    DuesCoverOwed(trace[n], origin);
  }

  /** An automatic row carries the direction and the amount its document owes:
      paid invoices come in, paid runs and costs go out. */
  lemma RowMatchesDocument(trace: seq<State>, n: nat, r: Id)
    requires IsRun(trace) && n < |trace|
    requires r in trace[n].treasury.ledger && trace[n].treasury.ledger[r].source.Some?
    ensures var row := trace[n].treasury.ledger[r];
            OwedIn(trace[n], row.source.value) == Some((row.direction, row.amount))
  {
    RunKeeps(trace, n);
    T.DuesAt(trace[n].treasury);
    assert T.DueAt(trace[n].treasury, r) == Some(T.DueOfRow(trace[n].treasury.ledger[r]));
  }

  // ----- accounts -----

  /** In every reachable state every ledger row hangs on an existing account. */
  lemma RowsAlwaysHang(trace: seq<State>, n: nat)
    requires IsRun(trace) && n < |trace|
    ensures T.RowsHang(trace[n].treasury)
  {
    RunKeeps(trace, n);
  }

  /** Nothing but the handlers differs. */
  ghost predicate OnlyHandlersMove(t: T.State, t': T.State) {
    t' == t.(handlers := t'.handlers)
  }

  /** Handlers stay as they are, and new ones start at the beginning. */
  ghost predicate HandlersStart(t: T.State, t': T.State) {
    forall h :: h in t'.handlers ==>
      t'.handlers[h].phase == T.Emitted || (h in t.handlers && t'.handlers[h] == t.handlers[h])
  }

  /** One step of a run as seen by the treasury: a treasury step, or one at most an
      event arrives in. */
  lemma TreasuryStep(trace: seq<State>, n: nat) returns (c: Option<T.Action>)
    requires IsRun(trace) && n + 1 < |trace|
    ensures T.IdsOf(trace[n].treasury, trace[n].used)
    ensures c.None? ==>
              && OnlyHandlersMove(trace[n].treasury, trace[n + 1].treasury)
              && HandlersStart(trace[n].treasury, trace[n + 1].treasury)
    ensures c.Some? ==>
              && Enabled(trace[n], Cash(c.value)) && trace[n + 1] == Apply(trace[n], Cash(c.value))
              && T.Enabled(trace[n].treasury, c.value) && T.NewIds(c.value) !! trace[n].used
              && trace[n + 1].treasury == T.Apply(trace[n].treasury, c.value)
  {
    IdsInUse(trace, n);
    assert StepAt(trace, n);
    var a :| Enabled(trace[n], a) && trace[n + 1] == Apply(trace[n], a);
    if !a.Cash? {
      OtherStepsEmitAtMost(trace[n], a);
    }
    c := if a.Cash? then Some(a.treasuryStep) else None;
  }

  lemma IdsInUse(trace: seq<State>, n: nat)
    requires IsRun(trace) && n < |trace|
    ensures T.IdsOf(trace[n].treasury, trace[n].used)
  {
    RunKeeps(trace, n);
  }

  lemma OtherStepsEmitAtMost(s: State, a: Action)
    requires Enabled(s, a) && !a.Cash?
    ensures OnlyHandlersMove(s.treasury, Apply(s, a).treasury) && HandlersStart(s.treasury, Apply(s, a).treasury)
  {
    match a
    case Operate(_, _, _) =>
    case Document(kind, d, h) =>
      CommitEmitsAtMost(s, kind, d, h, D.Apply(BookOf(s, kind), s.trips, s.clients.Keys, d));
    case CreateCost(_, _, _) =>
    case RemoveCost(_) =>
  }

  lemma CommitEmitsAtMost(s: State, kind: D.Kind, d: D.Action, h: Id, b: D.Book)
    ensures OnlyHandlersMove(s.treasury, Commit(s, kind, d, h, b).treasury)
    ensures HandlersStart(s.treasury, Commit(s, kind, d, h, b).treasury)
  {
  }

  function AccountsAt(trace: seq<State>, i: nat): map<Id, T.Account>
    requires i < |trace|
  {
    trace[i].treasury.accounts
  }

  ghost predicate UniqueAt(trace: seq<State>, i: nat)
    requires i < |trace|
  {
    T.OneDefault(AccountsAt(trace, i))
  }

  /** Every create or promotion that the step from `i` ends was safe in state `i`. */
  ghost predicate EndsSafelyAt(trace: seq<State>, i: nat)
    requires i + 1 < |trace|
  {
    AD.EndsSafely(trace[i].treasury, trace[i + 1].treasury)
  }

  lemma UniqueStep(trace: seq<State>, i: nat)
    requires IsRun(trace) && i + 1 < |trace| && UniqueAt(trace, i)
    ensures UniqueAt(trace, i + 1) <==> EndsSafelyAt(trace, i)
  {
    var c := TreasuryStep(trace, i);
    if c.Some? {
      AD.StepKeepsUniqueIff(trace[i].treasury, c.value, trace[i].used);
    }
  }

  /** At most one account is default throughout a run, creates and promotions overlapping
      as they may, exactly when each of them that ended was safe when it did: a create
      that had counted no account found none default, and a promotion that had demoted
      the others found none of them default again, or its own account gone. */
  lemma {:induction false} AccountsSound(trace: seq<State>, n: nat)
    requires IsRun(trace) && n < |trace|
    ensures (forall i: nat :: i <= n ==> UniqueAt(trace, i)) <==> (forall i: nat :: i < n ==> EndsSafelyAt(trace, i))
  {
    if n == 0 {
      assert UniqueAt(trace, 0);
    } else {
      AccountsSound(trace, n - 1);
      if UniqueAt(trace, n - 1) {
        UniqueStep(trace, n - 1);
      }
    }
  }

  /** Requests that do not overlap never leave two defaults: while at most one create or
      promotion is in flight at a time, at most one account is default. */
  lemma {:induction false} SerialRequestsKeepOneDefault(trace: seq<State>, n: nat)
    requires IsRun(trace) && n < |trace|
    requires forall i: nat :: i <= n ==> AD.AtMostOnePending(trace[i].treasury)
    ensures AD.Serial(trace[n].treasury) && T.OneDefault(AccountsAt(trace, n))
  {
    if n == 0 {
    } else {
      SerialRequestsKeepOneDefault(trace, n - 1);
      var c := TreasuryStep(trace, n - 1);
      if c.Some? {
        AD.SerialStep(trace[n - 1].treasury, c.value, trace[n - 1].used);
      } else {
        AD.DefaultsShrink(trace[n - 1].treasury, trace[n].treasury);
      }
    }
  }
}
