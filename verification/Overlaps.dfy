/** Requests on one kind of document, overlapping as they may: any number of creates,
    updates and deletes in flight, each split at its awaits. `Documents` takes an update
    or a delete as one step and one create at a time; here is exactly when what holds
    there survives without these assumptions. */
module Overlaps {
  import opened Common
  import D = Documents
  import L = DocumentLaws
  import T = Treasury
  import E = Erp
  import ET = ErpTheorems

  /** An update that has read its document, found it with a status, and passed the
      transition check; or that has written paid and not yet announced it. */
  datatype Update =
    | Read(id: Id, found: D.Status, status: Option<D.Status>, notes: Option<string>, now: int)
    | WrotePaid(id: Id, now: int)

  datatype State = State(
    kind: D.Kind,
    docs: map<Id, D.Doc>,
    creates: map<Id, D.Session>,  // by request, as are the next two
    updates: map<Id, Update>,
    deletes: map<Id, Id>,         // deletes that found their document a draft
    treasury: T.State,
    used: set<Id>)

  datatype Action =
    | Create(req: Id, step: D.Action, trips: map<Id, Trip>, clients: set<Id>)
    | ReadUpdate(req: Id, id: Id, status: Option<D.Status>, notes: Option<string>, now: int)
    | WriteUpdate(req: Id)
    | Announce(req: Id, h: Id, names: map<Id, string>)
    | ReadDelete(req: Id, id: Id)
    | WriteDelete(req: Id)
    | Cash(cash: T.Action)
    | Arrive(h: Id, post: T.Post)  // an event about another kind of document

  /** The table as the create request `req` sees it. */
  function BookFor(s: State, req: Id): D.Book {
    D.Book(s.kind, s.docs, if req in s.creates then s.creates[req] else D.Idle)
  }

  function SourceOf(s: State, id: Id): T.Source { T.Source(E.OriginOf(s.kind), id) }

  ghost predicate Enabled(s: State, a: Action) {
    match a
    case Create(req, d, trips, _) =>
      !d.Change? && !d.Delete? && D.Enabled(BookFor(s, req), trips, d) && D.NewIds(d) !! s.used
    case ReadUpdate(req, _, _, _, _) => req !in s.updates
    case WriteUpdate(req) => req in s.updates && s.updates[req].Read?
    case Announce(req, h, _) => req in s.updates && s.updates[req].WrotePaid? && h !in s.used
    case ReadDelete(req, _) => req !in s.deletes
    case WriteDelete(req) => req in s.deletes
    case Cash(c) => T.Enabled(s.treasury, c) && T.NewIds(c) !! s.used
    case Arrive(h, p) => h !in s.used && p.source.origin != E.OriginOf(s.kind)
  }

  function AfterCreate(s: State, req: Id, d: D.Action, b: D.Book): State {
    s.(docs := b.docs, used := s.used + D.NewIds(d),
       creates := if b.session.Idle? then s.creates - {req} else s.creates[req := b.session])
  }

  /** The first await of `update`: find the document and check the transition. */
  function AfterReadUpdate(s: State, req: Id, id: Id, status: Option<D.Status>, notes: Option<string>,
                           now: int): State {
    if id !in s.docs then s
    else
      var found := s.docs[id].status;
      if status.None? || status.value == found then s.(updates := s.updates[req := Read(id, found, None, notes, now)])
      else if status.value !in D.Transitions(s.kind, found) then s
      else s.(updates := s.updates[req := Read(id, found, status, notes, now)])
  }

  /** What the update writes, whatever the status is by now. The total it read is the
      total still: totals never change. */
  function Written(doc: D.Doc, u: Update): D.Doc
    requires u.Read?
  {
    var noted := L.Noted(doc, u.notes);
    if u.status.Some? then D.WithStatus(noted, u.status.value, u.now) else noted
  }

  /** The second await: the write, which fails if the document is gone. */
  function AfterWriteUpdate(s: State, req: Id): State
    requires req in s.updates && s.updates[req].Read?
  {
    var u := s.updates[req];
    if u.id !in s.docs then s.(updates := s.updates - {req})
    else s.(docs := s.docs[u.id := Written(s.docs[u.id], u)],
            updates := if u.status == Some(D.Paid) then s.updates[req := WrotePaid(u.id, u.now)] else s.updates - {req})
  }

  /** The detail read after the write, and the event. */
  function AfterAnnounce(s: State, req: Id, h: Id, names: map<Id, string>): State
    requires req in s.updates && s.updates[req].WrotePaid?
  {
    var u := s.updates[req];
    if u.id !in s.docs then s.(updates := s.updates - {req})
    else
      var doc := s.docs[u.id];
      var detail := doc.(paidAt := Some(if doc.paidAt.Some? then doc.paidAt.value else u.now));
      s.(updates := s.updates - {req}, used := s.used + {h},
         treasury := T.Emit(s.treasury, h, E.PaidPost(s.kind, u.id, detail, names)))
  }

  function AfterReadDelete(s: State, req: Id, id: Id): State {
    if id in s.docs && s.docs[id].status == D.Draft then s.(deletes := s.deletes[req := id]) else s
  }

  function AfterWriteDelete(s: State, req: Id): State
    requires req in s.deletes
  {
    s.(docs := s.docs - {s.deletes[req]}, deletes := s.deletes - {req})
  }

  function Apply(s: State, a: Action): State
    requires Enabled(s, a)
  {
    match a
    case Create(req, d, trips, clients) => AfterCreate(s, req, d, D.Apply(BookFor(s, req), trips, clients, d))
    case ReadUpdate(req, id, status, notes, now) => AfterReadUpdate(s, req, id, status, notes, now)
    case WriteUpdate(req) => AfterWriteUpdate(s, req)
    case Announce(req, h, names) => AfterAnnounce(s, req, h, names)
    case ReadDelete(req, id) => AfterReadDelete(s, req, id)
    case WriteDelete(req) => AfterWriteDelete(s, req)
    case Cash(c) => s.(treasury := T.Apply(s.treasury, c), used := s.used + T.NewIds(c))
    case Arrive(h, p) => s.(treasury := T.Emit(s.treasury, h, p), used := s.used + {h})
  }

  ghost predicate Init(s: State) {
    && s.docs == map[] && s.creates == map[] && s.updates == map[] && s.deletes == map[] && s.used == {}
    && s.treasury == T.State(map[], map[], map[], {}, map[], map[])
  }

  /** The states of a run and the steps between them. */
  datatype Run = Run(states: seq<State>, steps: seq<Action>)

  ghost predicate StepAt(r: Run, i: nat) {
    i < |r.steps| < |r.states| && Enabled(r.states[i], r.steps[i]) && r.states[i + 1] == Apply(r.states[i], r.steps[i])
  }

  ghost predicate IsRun(r: Run) {
    && |r.states| == |r.steps| + 1 && Init(r.states[0])
    && forall i: nat {:trigger StepAt(r, i)} :: i < |r.steps| ==> StepAt(r, i)
  }

  // ----- what every step keeps -----

  ghost predicate Shaped(kind: D.Kind, lines: seq<D.Line>) {
    lines != [] && D.WellShaped(kind, lines)
  }

  ghost predicate DocsShaped(s: State) {
    forall id {:trigger s.docs[id]} :: id in s.docs ==>
      && id in s.used && (s.docs[id].Invoice? <==> s.kind.Billing?) && Shaped(s.kind, s.docs[id].lines)
  }

  ghost predicate SessionShaped(kind: D.Kind, session: D.Session) {
    && (!session.Idle? ==> D.Fits(kind, session.req))
    && (session.HasLines? || session.HasNumber? ==> Shaped(kind, session.lines))
  }

  ghost predicate CreatesShaped(s: State) {
    forall r {:trigger s.creates[r]} :: r in s.creates ==> SessionShaped(s.kind, s.creates[r])
  }

  /** An update in flight was allowed from the status it found. */
  ghost predicate UpdatesAllowed(s: State) {
    forall r {:trigger s.updates[r]} :: r in s.updates && s.updates[r].Read? && s.updates[r].status.Some? ==>
      s.updates[r].status.value in D.Transitions(s.kind, s.updates[r].found)
  }

  ghost predicate Sound(s: State) {
    && DocsShaped(s) && CreatesShaped(s) && UpdatesAllowed(s)
    && T.TreasuryInv(s.treasury) && T.IdsOf(s.treasury, s.used)
  }

  lemma CreateStepShaped(b: D.Book, trips: map<Id, Trip>, clients: set<Id>, d: D.Action)
    requires D.Enabled(b, trips, d) && !d.Change? && !d.Delete? && SessionShaped(b.kind, b.session)
    ensures var b' := D.Apply(b, trips, clients, d);
            && SessionShaped(b.kind, b'.session)
            && forall id :: id in b'.docs ==>
                 (id in b.docs && b'.docs[id] == b.docs[id]) ||
                 (id in D.NewIds(d) && (b'.docs[id].Invoice? <==> b.kind.Billing?) && Shaped(b.kind, b'.docs[id].lines))
  {
    if d.Snapshot? {
      L.SnapshotShape(b.kind, trips, d.ids);
    }
  }

  lemma CreateKeeps(s: State, req: Id, d: D.Action, trips: map<Id, Trip>, clients: set<Id>)
    requires Sound(s) && Enabled(s, Create(req, d, trips, clients))
    ensures Sound(Apply(s, Create(req, d, trips, clients)))
  {
    CreateStepShaped(BookFor(s, req), trips, clients, d);
    AfterCreateKeeps(s, req, d, D.Apply(BookFor(s, req), trips, clients, d));
  }

  lemma AfterCreateKeeps(s: State, req: Id, d: D.Action, b: D.Book)
    requires Sound(s) && SessionShaped(s.kind, b.session)
    requires forall id :: id in b.docs ==>
               (id in s.docs && b.docs[id] == s.docs[id]) ||
               (id in D.NewIds(d) && (b.docs[id].Invoice? <==> s.kind.Billing?) && Shaped(s.kind, b.docs[id].lines))
    ensures Sound(AfterCreate(s, req, d, b))
  {
  }

  lemma WriteKeeps(s: State, req: Id)
    requires Sound(s) && req in s.updates && s.updates[req].Read?
    ensures Sound(AfterWriteUpdate(s, req))
  {
    var u := s.updates[req];
    if u.id in s.docs {
      WrittenCovers(s.docs[u.id], u);
    }
  }

  lemma WrittenCovers(doc: D.Doc, u: Update)
    requires u.Read?
    ensures Written(doc, u).number == doc.number && Written(doc, u).lines == doc.lines
    ensures Written(doc, u).status == if u.status.Some? then u.status.value else doc.status
    ensures Written(doc, u).Invoice? <==> doc.Invoice?
  {
  }

  lemma EmitKeeps(s: State, h: Id, p: T.Post)
    requires Sound(s) && h !in s.used
    ensures Sound(s.(treasury := T.Emit(s.treasury, h, p), used := s.used + {h}))
  {
    T.EmitKeeps(s.treasury, h, p, s.used);
  }

  lemma ReadUpdateKeeps(s: State, req: Id, id: Id, status: Option<D.Status>, notes: Option<string>, now: int)
    requires Sound(s)
    ensures Sound(AfterReadUpdate(s, req, id, status, notes, now))
  {
  }

  lemma DeleteKeeps(s: State, req: Id, id: Id)
    requires Sound(s)
    ensures Sound(AfterReadDelete(s, req, id)) && (req in s.deletes ==> Sound(AfterWriteDelete(s, req)))
  {
  }

  lemma StepKeeps(s: State, a: Action)
    requires Sound(s) && Enabled(s, a)
    ensures Sound(Apply(s, a))
  {
    match a
    case Create(req, d, trips, clients) => CreateKeeps(s, req, d, trips, clients);
    case WriteUpdate(req) => WriteKeeps(s, req);
    case Announce(req, h, names) => AnnounceKeeps(s, req, h, names);
    case ReadUpdate(req, id, status, notes, now) => ReadUpdateKeeps(s, req, id, status, notes, now);
    case ReadDelete(req, id) => DeleteKeeps(s, req, id);
    case WriteDelete(req) => DeleteKeeps(s, req, "");
    case Cash(c) => T.ApplyKeeps(s.treasury, c, s.used);
    case Arrive(h, p) => EmitKeeps(s, h, p);
  }

  lemma AnnounceKeeps(s: State, req: Id, h: Id, names: map<Id, string>)
    requires Sound(s) && Enabled(s, Announce(req, h, names))
    ensures Sound(Apply(s, Announce(req, h, names)))
  {
    var s' := Apply(s, Announce(req, h, names));
    if s.updates[req].id in s.docs {
      var p := s'.treasury.handlers[h].post;
      EmitKeeps(s, h, p);
    }
  }

  lemma SoundStep(r: Run, i: nat)
    requires IsRun(r) && i < |r.steps| && Sound(r.states[i])
    ensures Sound(r.states[i + 1]) && r.states[i + 1].kind == r.states[i].kind
  {
    assert StepAt(r, i);
    StepKeeps(r.states[i], r.steps[i]);
  }

  lemma {:induction false} RunSound(r: Run, n: nat)
    requires IsRun(r) && n < |r.states|
    ensures Sound(r.states[n]) && r.states[n].kind == r.states[0].kind
  {
    if n == 0 {
    } else {
      RunSound(r, n - 1);
      SoundStep(r, n - 1);
    }
  }

  // ----- a trip on one document -----

  /** The trips a step puts on a document: those of an insert that is not refused, and
      those of a void document that a stale write brings back. */
  function Taken(s: State, a: Action): set<Id> {
    if a.Create? && a.step.Store? && BookFor(s, a.req).session.HasNumber? then
      var session := s.creates[a.req];
      if D.Stored(s.docs, session.number) then {} else D.TripIds(session.lines)
    else if a.WriteUpdate? && a.req in s.updates && s.updates[a.req].Read? then
      var u := s.updates[a.req];
      if Revives(s, u) then D.TripIds(s.docs[u.id].lines) else {}
    else {}
  }

  predicate Revives(s: State, u: Update)
    requires u.Read?
  {
    u.id in s.docs && s.docs[u.id].status == D.Void && u.status.Some? && u.status.value != D.Void
  }

  /** No trip that the step takes is on a non-void document by now. */
  predicate TakesFree(s: State, a: Action) {
    Taken(s, a) !! D.Cover(s.docs)
  }

  /** A document put in where none held a trip leaves each trip with one document exactly
      when the trips it holds are not covered. */
  lemma PutCoversOnceIff(docs: map<Id, D.Doc>, id: Id, d: D.Doc)
    requires D.CoveredOnce(docs) && (id in docs ==> D.Covers(docs[id]) == {})
    ensures D.CoveredOnce(docs[id := d]) <==> D.Covers(d) !! D.Cover(docs)
  {
    var after := docs[id := d];
    if D.Covers(d) !! D.Cover(docs) {
      forall a | a in docs
        ensures D.Covers(docs[a]) !! D.Covers(d)
      {
        L.InCover(docs, a);
      }
    }
    if D.CoveredOnce(after) {
      forall k | k in docs
        ensures D.Covers(docs[k]) !! D.Covers(d)
      {
        assert k != id ==> after[k] == docs[k] && after[id] == d;
      }
    }
  }

  lemma CreateTakes(s: State, req: Id, d: D.Action, trips: map<Id, Trip>, clients: set<Id>)
    requires Sound(s) && Enabled(s, Create(req, d, trips, clients)) && D.CoveredOnce(s.docs)
    ensures var a := Create(req, d, trips, clients); D.CoveredOnce(Apply(s, a).docs) <==> TakesFree(s, a)
  {
    if d.Store? {
      var session := s.creates[req];
      assert d.id !in s.docs;
      PutCoversOnceIff(s.docs, d.id, D.NewDoc(session.req, session.lines, session.number));
    }
  }

  lemma WriteTakes(s: State, req: Id)
    requires Enabled(s, WriteUpdate(req)) && D.CoveredOnce(s.docs)
    ensures D.CoveredOnce(AfterWriteUpdate(s, req).docs) <==> TakesFree(s, WriteUpdate(req))
  {
    var u := s.updates[req];
    if u.id in s.docs {
      WrittenCovers(s.docs[u.id], u);
      if Revives(s, u) {
        PutCoversOnceIff(s.docs, u.id, Written(s.docs[u.id], u));
      } else {
        L.ReplaceHolds(s.docs, u.id, Written(s.docs[u.id], u));
      }
    }
  }

  lemma DeleteTakes(s: State, a: Action)
    requires Enabled(s, a) && a.WriteDelete? && D.CoveredOnce(s.docs)
    ensures D.CoveredOnce(Apply(s, a).docs) && TakesFree(s, a)
  {
  }

  lemma DocsUntouched(s: State, a: Action)
    requires Enabled(s, a) && !a.Create? && !a.WriteUpdate? && !a.WriteDelete?
    ensures Apply(s, a).docs == s.docs && TakesFree(s, a)
  {
  }

  /** A step keeps each trip on at most one document exactly when the trips it takes, if
      any, are free. */
  lemma CoverStepIff(s: State, a: Action)
    requires Sound(s) && Enabled(s, a) && D.CoveredOnce(s.docs)
    ensures D.CoveredOnce(Apply(s, a).docs) <==> TakesFree(s, a)
  {
    match a
    case Create(req, d, trips, clients) => CreateTakes(s, req, d, trips, clients);
    case WriteUpdate(req) => WriteTakes(s, req);
    case WriteDelete(_) => DeleteTakes(s, a);
    case _ => DocsUntouched(s, a);
  }

  ghost predicate CoveredOnceAt(r: Run, i: nat)
    requires i < |r.states|
  {
    D.CoveredOnce(r.states[i].docs)
  }

  predicate TakesFreeAt(r: Run, i: nat)
    requires i < |r.steps| < |r.states|
  {
    TakesFree(r.states[i], r.steps[i])
  }

  lemma RunStep(r: Run, i: nat)
    requires IsRun(r) && i < |r.steps|
    ensures Sound(r.states[i]) && Enabled(r.states[i], r.steps[i])
    ensures r.states[i + 1] == Apply(r.states[i], r.steps[i])
  {
    RunSound(r, i);
    assert StepAt(r, i);
  }

  lemma CoverStepAt(r: Run, i: nat)
    requires IsRun(r) && i < |r.steps| && CoveredOnceAt(r, i)
    ensures CoveredOnceAt(r, i + 1) <==> TakesFreeAt(r, i)
  {
    RunStep(r, i);
    CoverStepIff(r.states[i], r.steps[i]);
  }

  /** However requests overlap: each trip is on at most one non-void document throughout a
      run exactly when every insert, and every stale write that brings a void document
      back, finds the trips it takes on no non-void document. */
  lemma {:induction false} BilledOnceIff(r: Run, n: nat)
    requires IsRun(r) && n < |r.states|
    ensures (forall i: nat :: i <= n ==> CoveredOnceAt(r, i)) <==> (forall i: nat :: i < n ==> TakesFreeAt(r, i))
  {
    if n == 0 {
      assert CoveredOnceAt(r, 0);
    } else {
      BilledOnceIff(r, n - 1);
      if CoveredOnceAt(r, n - 1) {
        CoverStepAt(r, n - 1);
      }
    }
  }

  /** The line `i` of the non-void document `a`. */
  predicate LiveLine(s: State, a: Id, i: nat) {
    a in s.docs && s.docs[a].status != D.Void && i < |s.docs[a].lines|
  }

  /** Two lines of non-void documents, for the same trip. */
  predicate SameTrip(s: State, a: Id, i: nat, b: Id, j: nat) {
    LiveLine(s, a, i) && LiveLine(s, b, j) && s.docs[a].lines[i].tripId == s.docs[b].lines[j].tripId
  }

  /** Two lines of non-void documents for one trip are on the same document, and on an
      invoice they are the same line. */
  ghost predicate TripOnce(s: State) {
    forall a, b, i: nat, j: nat :: SameTrip(s, a, i, b, j) ==> a == b && (s.kind.Billing? ==> i == j)
  }

  /** What `TripBilledOnce` says of the one-step machine is that no trip is covered twice. */
  lemma TripOnceIff(s: State)
    requires Sound(s)
    ensures TripOnce(s) <==> D.CoveredOnce(s.docs)
  {
    if D.CoveredOnce(s.docs) {
      forall a, b, i: nat, j: nat | SameTrip(s, a, i, b, j)
        ensures a == b && (s.kind.Billing? ==> i == j)
      {
        LiveLineCovers(s, a, i);
        LiveLineCovers(s, b, j);
      }
    }
    if TripOnce(s) {
      forall a, b, t | a in s.docs && b in s.docs && t in D.Covers(s.docs[a]) && t in D.Covers(s.docs[b])
        ensures a == b
      {
        var i := LineOf(s, a, t);
        var j := LineOf(s, b, t);
        assert SameTrip(s, a, i, b, j);
      }
    }
  }

  lemma LiveLineCovers(s: State, a: Id, i: nat)
    requires LiveLine(s, a, i)
    ensures s.docs[a].lines[i].tripId in D.Covers(s.docs[a])
  {
    assert s.docs[a].lines[i] in s.docs[a].lines;
  }

  lemma LineOf(s: State, a: Id, t: Id) returns (i: nat)
    requires a in s.docs && t in D.Covers(s.docs[a])
    ensures LiveLine(s, a, i) && s.docs[a].lines[i].tripId == t
  {
    var l :| l in s.docs[a].lines && l.tripId == t;
    i :| i < |s.docs[a].lines| && s.docs[a].lines[i] == l;
  }

  // ----- one post per paid document -----

  /** The updates that wrote paid and are about to announce it. */
  function Announcing(updates: map<Id, Update>, id: Id): set<Id> {
    set r | r in updates && updates[r].WrotePaid? && updates[r].id == id
  }

  lemma AnnouncingPut(updates: map<Id, Update>, req: Id, u: Update, id: Id)
    requires req in updates ==> updates[req].Read?
    ensures |Announcing(updates[req := u], id)| ==
            |Announcing(updates, id)| + if u.WrotePaid? && u.id == id then 1 else 0
  {
    assert Announcing(updates[req := u], id) ==
           Announcing(updates, id) + if u.WrotePaid? && u.id == id then {req} else {};
  }

  lemma AnnouncingDrop(updates: map<Id, Update>, req: Id, id: Id)
    requires req in updates
    ensures |Announcing(updates - {req}, id)| ==
            |Announcing(updates, id)| - if updates[req].WrotePaid? && updates[req].id == id then 1 else 0
  {
    assert Announcing(updates - {req}, id) == Announcing(updates, id) - {req};
  }

  predicate IsPaid(s: State, id: Id) { id in s.docs && s.docs[id].status == D.Paid }

  /** The posts about a document: handlers, ledger rows and ended posts, and the events
      about to be announced. */
  function PostsOf(s: State, id: Id): nat {
    |ET.HandlersFor(s.treasury, SourceOf(s, id))| + |ET.RowsFor(s.treasury, SourceOf(s, id))| +
    |ET.EndedFor(s.treasury, SourceOf(s, id))| + |Announcing(s.updates, id)|
  }

  predicate HasOnePost(s: State, id: Id) {
    PostsOf(s, id) == if IsPaid(s, id) then 1 else 0
  }

  /** A paid document has one post, and any other has none. */
  ghost predicate OnePost(s: State) {
    forall id :: HasOnePost(s, id)
  }

  /** No write of a status and no delete hits a paid document. */
  predicate SparesPaid(s: State, a: Action) {
    && (a.WriteUpdate? && a.req in s.updates && s.updates[a.req].Read? && s.updates[a.req].status.Some? ==>
          !IsPaid(s, s.updates[a.req].id))
    && (a.WriteDelete? && a.req in s.deletes ==> !IsPaid(s, s.deletes[a.req]))
  }

  ghost function DuesFor(t: T.State, src: T.Source): set<Id> {
    set k | k in T.Dues(t) && T.Dues(t)[k].source == src
  }

  lemma PostsAreDues(s: State, id: Id)
    requires T.OnePlace(s.treasury)
    ensures PostsOf(s, id) == |DuesFor(s.treasury, SourceOf(s, id))| + |Announcing(s.updates, id)|
  {
    var t, src := s.treasury, SourceOf(s, id);
    var hs, rs, es := ET.HandlersFor(t, src), ET.RowsFor(t, src), ET.EndedFor(t, src);
    ET.PostsFor(t, src);
    assert DuesFor(t, src) == hs + rs + es;
    assert |hs + rs + es| == |hs + rs| + |es| && |hs + rs| == |hs| + |rs|;
  }

  /** A step that moves no post and pays, voids or deletes nothing paid. */
  lemma PostsStay(s: State, s': State)
    requires OnePost(s) && T.OnePlace(s.treasury) && T.OnePlace(s'.treasury) && s'.kind == s.kind
    requires forall id :: DuesFor(s'.treasury, SourceOf(s, id)) == DuesFor(s.treasury, SourceOf(s, id))
    requires forall id :: |Announcing(s'.updates, id)| == |Announcing(s.updates, id)|
    requires forall id :: IsPaid(s', id) <==> IsPaid(s, id)
    ensures OnePost(s')
  {
    forall id
      ensures HasOnePost(s', id)
    {
      assert HasOnePost(s, id);
      PostsAreDues(s, id);
      PostsAreDues(s', id);
    }
  }

  lemma WriteMoves(s: State, req: Id, id: Id)
    requires req in s.updates && s.updates[req].Read?
    ensures var u := s.updates[req];
            PostsOf(AfterWriteUpdate(s, req), id) ==
            PostsOf(s, id) + if u.id == id && id in s.docs && u.status == Some(D.Paid) then 1 else 0
  {
    var u := s.updates[req];
    if u.id in s.docs && u.status == Some(D.Paid) {
      AnnouncingPut(s.updates, req, WrotePaid(u.id, u.now), id);
    } else {
      AnnouncingDrop(s.updates, req, id);
    }
  }

  lemma WritePays(s: State, req: Id, id: Id)
    requires req in s.updates && s.updates[req].Read?
    ensures var u := s.updates[req];
            IsPaid(AfterWriteUpdate(s, req), id) ==
            if u.id == id && id in s.docs && u.status.Some? then u.status == Some(D.Paid) else IsPaid(s, id)
  {
  }

  lemma WritePostIff(s: State, req: Id, id: Id)
    requires req in s.updates && s.updates[req].Read? && HasOnePost(s, id)
    ensures HasOnePost(AfterWriteUpdate(s, req), id) <==> (s.updates[req].id == id ==> SparesPaid(s, WriteUpdate(req)))
  {
    WriteMoves(s, req, id);
    WritePays(s, req, id);
  }

  /** A write of a status keeps one post per paid document exactly when its document is
      not paid by then. */
  lemma WritePosts(s: State, req: Id)
    requires Enabled(s, WriteUpdate(req)) && OnePost(s)
    ensures OnePost(Apply(s, WriteUpdate(req))) <==> SparesPaid(s, WriteUpdate(req))
  {
    var s' := AfterWriteUpdate(s, req);
    forall id
      ensures HasOnePost(s', id) <==> (s.updates[req].id == id ==> SparesPaid(s, WriteUpdate(req)))
    {
      assert HasOnePost(s, id);
      WritePostIff(s, req, id);
    }
    assert HasOnePost(s', s.updates[req].id) <==> SparesPaid(s, WriteUpdate(req));
  }

  lemma DeletePosts(s: State, req: Id)
    requires Enabled(s, WriteDelete(req)) && OnePost(s)
    ensures OnePost(Apply(s, WriteDelete(req))) <==> SparesPaid(s, WriteDelete(req))
  {
    var id, s' := s.deletes[req], Apply(s, WriteDelete(req));
    forall k
      ensures HasOnePost(s', k) <==> (k == id ==> !IsPaid(s, k))
    {
      assert HasOnePost(s, k);
      assert PostsOf(s', k) == PostsOf(s, k);
    }
    assert HasOnePost(s', id) <==> !IsPaid(s, id);
  }

  lemma EmittedDues(t: T.State, h: Id, p: T.Post, used: set<Id>, src: T.Source)
    requires T.TreasuryInv(t) && T.IdsOf(t, used) && h !in used
    ensures DuesFor(T.Emit(t, h, p), src) == DuesFor(t, src) + (if p.source == src then {h} else {})
    ensures h !in DuesFor(t, src)
  {
    T.EmitKeeps(t, h, p, used);
    E.DuesUsed(t, used);
  }

  lemma EmittedCount(t: T.State, h: Id, p: T.Post, used: set<Id>, src: T.Source)
    requires T.TreasuryInv(t) && T.IdsOf(t, used) && h !in used
    ensures |DuesFor(T.Emit(t, h, p), src)| == |DuesFor(t, src)| + if p.source == src then 1 else 0
  {
    EmittedDues(t, h, p, used, src);
  }

  lemma AnnounceMoves(s: State, req: Id, h: Id, p: T.Post, s': State, id: Id)
    requires Sound(s) && h !in s.used && req in s.updates && s.updates[req].WrotePaid?
    requires p.source == SourceOf(s, s.updates[req].id)
    requires s'.kind == s.kind && s'.treasury == T.Emit(s.treasury, h, p) && s'.updates == s.updates - {req}
    ensures PostsOf(s', id) == PostsOf(s, id)
  {
    T.EmitKeeps(s.treasury, h, p, s.used);
    PostsAreDues(s, id);
    PostsAreDues(s', id);
    EmittedCount(s.treasury, h, p, s.used, SourceOf(s, id));
    AnnouncingDrop(s.updates, req, id);
  }

  /** An update that wrote paid finds its document again: it is still paid. */
  lemma AnnouncedIsPaid(s: State, req: Id)
    requires OnePost(s) && req in s.updates && s.updates[req].WrotePaid?
    ensures IsPaid(s, s.updates[req].id)
  {
    assert req in Announcing(s.updates, s.updates[req].id);
    assert HasOnePost(s, s.updates[req].id);
  }

  /** Announcing turns an event to come into a post. */
  lemma AnnouncePosts(s: State, req: Id, h: Id, names: map<Id, string>)
    requires Sound(s) && Enabled(s, Announce(req, h, names)) && OnePost(s)
    ensures OnePost(Apply(s, Announce(req, h, names)))
  {
    var s' := Apply(s, Announce(req, h, names));
    AnnouncedIsPaid(s, req);
    forall id
      ensures HasOnePost(s', id)
    {
      assert HasOnePost(s, id);
      AnnounceMoves(s, req, h, s'.treasury.handlers[h].post, s', id);
    }
  }

  lemma ArrivePosts(s: State, h: Id, p: T.Post)
    requires Sound(s) && Enabled(s, Arrive(h, p)) && OnePost(s)
    ensures OnePost(Apply(s, Arrive(h, p)))
  {
    var s' := Apply(s, Arrive(h, p));
    StepKeeps(s, Arrive(h, p));
    forall id
      ensures DuesFor(s'.treasury, SourceOf(s, id)) == DuesFor(s.treasury, SourceOf(s, id))
    {
      EmittedDues(s.treasury, h, p, s.used, SourceOf(s, id));
    }
    PostsStay(s, s');
  }

  lemma CashPosts(s: State, c: T.Action)
    requires Sound(s) && Enabled(s, Cash(c)) && OnePost(s)
    ensures OnePost(Apply(s, Cash(c)))
  {
    T.ApplyKeeps(s.treasury, c, s.used);
    PostsStay(s, Apply(s, Cash(c)));
  }

  lemma CreatePosts(s: State, req: Id, d: D.Action, trips: map<Id, Trip>, clients: set<Id>)
    requires Sound(s) && Enabled(s, Create(req, d, trips, clients)) && OnePost(s)
    ensures OnePost(Apply(s, Create(req, d, trips, clients)))
  {
    var s' := Apply(s, Create(req, d, trips, clients));
    assert forall id :: IsPaid(s', id) <==> IsPaid(s, id);
    PostsStay(s, s');
  }

  /** A step that moves nothing but reads. */
  lemma ReadPosts(s: State, s': State, req: Id)
    requires Sound(s) && OnePost(s) && s' == s.(updates := s'.updates, deletes := s'.deletes)
    requires s'.updates == s.updates ||
             (req !in s.updates && req in s'.updates && s'.updates[req].Read? &&
              s'.updates == s.updates[req := s'.updates[req]])
    ensures OnePost(s')
  {
    forall id
      ensures |Announcing(s'.updates, id)| == |Announcing(s.updates, id)|
    {
      if s'.updates != s.updates {
        AnnouncingPut(s.updates, req, s'.updates[req], id);
      }
    }
    PostsStay(s, s');
  }

  lemma ReadStepPosts(s: State, a: Action)
    requires Sound(s) && Enabled(s, a) && OnePost(s) && (a.ReadUpdate? || a.ReadDelete?)
    ensures OnePost(Apply(s, a))
  {
    ReadPosts(s, Apply(s, a), a.req);
  }

  /** A step keeps one post per paid document exactly when it neither writes a status to a
      paid document nor deletes one. */
  lemma PostStepIff(s: State, a: Action)
    requires Sound(s) && Enabled(s, a) && OnePost(s)
    ensures OnePost(Apply(s, a)) <==> SparesPaid(s, a)
  {
    match a
    case Create(req, d, trips, clients) => CreatePosts(s, req, d, trips, clients);
    case ReadUpdate(_, _, _, _, _) => ReadStepPosts(s, a);
    case WriteUpdate(req) => WritePosts(s, req);
    case Announce(req, h, names) => AnnouncePosts(s, req, h, names);
    case ReadDelete(_, _) => ReadStepPosts(s, a);
    case WriteDelete(req) => DeletePosts(s, req);
    case Cash(c) => CashPosts(s, c);
    case Arrive(h, p) => ArrivePosts(s, h, p);
  }

  ghost predicate OnePostAt(r: Run, i: nat)
    requires i < |r.states|
  {
    OnePost(r.states[i])
  }

  predicate SparesPaidAt(r: Run, i: nat)
    requires i < |r.steps| < |r.states|
  {
    SparesPaid(r.states[i], r.steps[i])
  }

  lemma NoPosts(s: State)
    requires Init(s)
    ensures OnePost(s)
  {
    forall id
      ensures HasOnePost(s, id)
    {
      assert ET.HandlersFor(s.treasury, SourceOf(s, id)) == {} && ET.RowsFor(s.treasury, SourceOf(s, id)) == {};
      assert ET.EndedFor(s.treasury, SourceOf(s, id)) == {} && Announcing(s.updates, id) == {};
    }
  }

  lemma PostStepAt(r: Run, i: nat)
    requires IsRun(r) && i < |r.steps| && OnePostAt(r, i)
    ensures OnePostAt(r, i + 1) <==> SparesPaidAt(r, i)
  {
    RunStep(r, i);
    PostStepIff(r.states[i], r.steps[i]);
  }

  lemma OnePostAtStart(r: Run)
    requires IsRun(r)
    ensures OnePostAt(r, 0)
  {
    NoPosts(r.states[0]);
  }

  /** However requests overlap: throughout a run a paid document has one post, under way,
      in the ledger or ended, and any other has none, exactly when no write of a status
      and no delete hits a document that is paid by then. */
  lemma {:induction false} OnePostIff(r: Run, n: nat)
    requires IsRun(r) && n < |r.states|
    ensures (forall i: nat :: i <= n ==> OnePostAt(r, i)) <==> (forall i: nat :: i < n ==> SparesPaidAt(r, i))
  {
    if n == 0 {
      OnePostAtStart(r);
    } else {
      OnePostIff(r, n - 1);
      if OnePostAt(r, n - 1) {
        PostStepAt(r, n - 1);
      }
    }
  }

  // ----- writes that come in time -----

  /** The write finds the status that its read found. */
  predicate Fresh(s: State, a: Action) {
    && (a.WriteUpdate? && a.req in s.updates && s.updates[a.req].Read? && s.updates[a.req].id in s.docs ==>
          s.docs[s.updates[a.req].id].status == s.updates[a.req].found)
    && (a.WriteDelete? && a.req in s.deletes && s.deletes[a.req] in s.docs ==>
          s.docs[s.deletes[a.req]].status == D.Draft)
  }

  /** A write that comes in time harms neither property: paid and void are terminal. */
  lemma FreshIsSafe(s: State, a: Action)
    requires Sound(s) && Enabled(s, a) && Fresh(s, a)
    ensures SparesPaid(s, a) && (!a.Create? ==> TakesFree(s, a))
  {
    if a.WriteUpdate? {
      assert s.updates[a.req].status.Some? ==>
          s.updates[a.req].status.value in D.Transitions(s.kind, s.updates[a.req].found);
    }
  }

  predicate FreshAt(r: Run, i: nat)
    requires i < |r.steps| < |r.states|
  {
    Fresh(r.states[i], r.steps[i])
  }

  /** When every write comes in time, a paid document has one post and any other none. */
  lemma WritesInTimePostOnce(r: Run, n: nat)
    requires IsRun(r) && n < |r.states| && forall i: nat :: i < n ==> FreshAt(r, i)
    ensures OnePostAt(r, n)
  {
    forall i: nat | i < n
      ensures SparesPaidAt(r, i)
    {
      assert FreshAt(r, i);
      RunStep(r, i);
      FreshIsSafe(r.states[i], r.steps[i]);
    }
    OnePostIff(r, n);
  }

  /** The one-step update is its two steps taken without interruption. */
  lemma WholeUpdateIsSteps(s: State, req: Id, id: Id, status: Option<D.Status>, notes: Option<string>, now: int)
    requires req !in s.updates
    ensures var read := AfterReadUpdate(s, req, id, status, notes, now);
            var one := D.Update(BookFor(s, req), id, status, notes, now);
            && Enabled(s, ReadUpdate(req, id, status, notes, now))
            && if req !in read.updates then one.result.Err? && read == s && one.book.docs == s.docs
            else Enabled(read, WriteUpdate(req)) && one.result.Ok?
                 && AfterWriteUpdate(read, req).docs == one.book.docs
                 && (req in AfterWriteUpdate(read, req).updates <==> D.Emits(BookFor(s, req), id, status))
  {
    var read := AfterReadUpdate(s, req, id, status, notes, now);
    if req in read.updates {
      assert read.updates[req].Read? && read.docs == s.docs && id in s.docs;
      WholeWrite(s, req, id, status, notes, now);
    }
  }

  lemma WholeWrite(s: State, req: Id, id: Id, status: Option<D.Status>, notes: Option<string>, now: int)
    requires req !in s.updates && req in AfterReadUpdate(s, req, id, status, notes, now).updates
    ensures var written := AfterWriteUpdate(AfterReadUpdate(s, req, id, status, notes, now), req);
            var one := D.Update(BookFor(s, req), id, status, notes, now);
            && one.result.Ok? && written.docs == one.book.docs
            && (req in written.updates <==> D.Emits(BookFor(s, req), id, status))
  {
    var doc := s.docs[id];
    if status.None? || status.value == doc.status {
      assert D.Update(BookFor(s, req), id, status, notes, now).book.docs == s.docs[id := L.Noted(doc, notes)];
    }
  }

  /** And the event it announces is the one the one-step update emits. */
  lemma WholeAnnounceIsEmit(s: State, req: Id, id: Id, notes: Option<string>, now: int, h: Id, names: map<Id, string>)
    requires req !in s.updates && D.Emits(BookFor(s, req), id, Some(D.Paid))
    ensures var wrote := AfterWriteUpdate(AfterReadUpdate(s, req, id, Some(D.Paid), notes, now), req);
            && req in wrote.updates && wrote.updates[req].WrotePaid?
            && id in wrote.docs && wrote.docs[id].paidAt == Some(now)
            && AfterAnnounce(wrote, req, h, names).treasury ==
               T.Emit(s.treasury, h, E.PaidPost(s.kind, id, wrote.docs[id], names))
            && AfterAnnounce(wrote, req, h, names).docs == wrote.docs
            && AfterAnnounce(wrote, req, h, names).updates == s.updates
  {
  }

  /** So is the one-step delete. */
  lemma WholeDeleteIsSteps(s: State, req: Id, id: Id)
    requires req !in s.deletes
    ensures var read, one := AfterReadDelete(s, req, id), D.Remove(BookFor(s, req), id);
            && Enabled(s, ReadDelete(req, id))
            && if req !in read.deletes then one.result.Err? && read == s && one.book.docs == s.docs
            else Enabled(read, WriteDelete(req)) && one.result.Ok? && AfterWriteDelete(read, req).docs == one.book.docs
  {
  }
}
