/** Runs in which a stale update bills a trip twice, or posts an invoice twice. */
module OverlapRuns {
  import opened Common
  import D = Documents
  import L = DocumentLaws
  import T = Treasury
  import E = Erp
  import ET = ErpTheorems
  import opened NumberRuns
  import opened Overlaps

  function Now(r: Run): State
    requires r.states != []
  {
    r.states[|r.states| - 1]
  }

  /** A run goes on with any enabled step. */
  lemma GoOn(r: Run, a: Action) returns (longer: Run)
    requires IsRun(r) && Enabled(Now(r), a)
    ensures IsRun(longer) && Now(longer) == Apply(Now(r), a)
  {
    longer := Run(r.states + [Apply(Now(r), a)], r.steps + [a]);
    forall i: nat | i < |longer.steps|
      ensures StepAt(longer, i)
    {
      if i < |r.steps| {
        assert StepAt(r, i);
      }
    }
  }

  lemma Start() returns (r: Run)
    ensures IsRun(r) && Init(Now(r)) && Now(r).kind == D.Billing
  {
    r := Run([State(D.Billing, map[], map[], map[], map[], T.State(map[], map[], map[], {}, map[], map[]), {})], []);
  }

  // ----- invoices for one trip -----

  /** What a create leaves alone. */
  predicate OnlyInvoiced(s: State, s': State, id: Id) {
    && s' == s.(docs := s'.docs, used := s.used + {id})
    && s'.docs.Keys == s.docs.Keys + {id} && forall k :: k in s.docs ==> s'.docs[k] == s.docs[k]
  }

  /** One step of a create. */
  lemma Creating(r: Run, d: D.Action) returns (longer: Run)
    requires IsRun(r) && Enabled(Now(r), Create("c", d, map["t" := TripOf()], {"client"}))
    ensures IsRun(longer)
    ensures var b := D.Apply(BookFor(Now(r), "c"), map["t" := TripOf()], {"client"}, d);
            Now(longer) == AfterCreate(Now(r), "c", d, b)
  {
    longer := GoOn(r, Create("c", d, map["t" := TripOf()], {"client"}));
  }

  /** A create for the one trip, up to its number. */
  lemma HoldTrip(r: Run, year: nat) returns (longer: Run)
    requires IsRun(r) && Now(r).kind == D.Billing && Now(r).creates == map[]
    requires "t" !in D.Cover(Now(r).docs)
    ensures IsRun(longer)
    ensures Now(longer) ==
            Now(r).(creates := map["c" := D.HasLines(RequestOf(D.Billing, year), LinesOn(D.Billing, "t"))])
  {
    longer := Creating(r, D.Begin(RequestOf(D.Billing, year)));
    assert Now(longer).creates == map["c" := D.HasCover(RequestOf(D.Billing, year), D.Cover(Now(r).docs))];
    OnlyTripRead(D.Billing, "t", RequestOf(D.Billing, year), D.Cover(Now(r).docs));
    longer := Creating(longer, D.Snapshot(["t"]));
  }

  lemma StoredIsOfYear(docs: map<Id, D.Doc>, year: nat, number: string)
    requires D.Stored(docs, number) && D.Prefix(D.Billing, year) <= number
    ensures number in D.NumbersWith(docs, D.Prefix(D.Billing, year))
  {
  }

  /** The create takes the year's first number and inserts. */
  lemma NumberAndStore(r: Run, year: nat, id: Id) returns (longer: Run)
    requires IsRun(r) && Now(r).kind == D.Billing && id !in Now(r).used && id !in Now(r).docs
    requires Now(r).creates == map["c" := D.HasLines(RequestOf(D.Billing, year), LinesOn(D.Billing, "t"))]
    requires D.NumbersWith(Now(r).docs, D.Prefix(D.Billing, year)) == {}
    ensures IsRun(longer)
    ensures var number := D.FormatNumber(D.Billing, year, 1);
            var doc := D.NewDoc(RequestOf(D.Billing, year), LinesOn(D.Billing, "t"), number);
            Now(longer) ==
            Now(r).(docs := Now(r).docs[id := doc], used := Now(r).used + {id}, creates := map[])
  {
    var number := D.FormatNumber(D.Billing, year, 1);
    if D.Stored(Now(r).docs, number) {
      StoredIsOfYear(Now(r).docs, year, number);
    }
    longer := Creating(r, D.Number(number));
    longer := Creating(longer, D.Store(id));
    assert Now(longer).creates == map[];
  }

  /** The first invoice of the year, for the one trip. */
  lemma Invoice(r: Run, year: nat, id: Id) returns (longer: Run)
    requires IsRun(r) && Now(r).kind == D.Billing && Now(r).creates == map[]
    requires "t" !in D.Cover(Now(r).docs) && id !in Now(r).used && id !in Now(r).docs
    requires D.NumbersWith(Now(r).docs, D.Prefix(D.Billing, year)) == {}
    ensures IsRun(longer) && OnlyInvoiced(Now(r), Now(longer), id)
    ensures Now(longer).docs[id] ==
            D.NewDoc(RequestOf(D.Billing, year), LinesOn(D.Billing, "t"), D.FormatNumber(D.Billing, year, 1))
  {
    longer := HoldTrip(r, year);
    longer := NumberAndStore(longer, year, id);
  }

  /** One draft invoice `a`, numbered in year 0, that bills the one trip. */
  lemma OneInvoice() returns (r: Run)
    ensures IsRun(r) && Drafted(Now(r))
  {
    r := Start();
    assert D.NumbersWith(Now(r).docs, D.Prefix(D.Billing, 0)) == {};
    r := Invoice(r, 0, "a");
  }

  function FirstInvoice(): D.Doc {
    D.NewDoc(RequestOf(D.Billing, 0), LinesOn(D.Billing, "t"), D.FormatNumber(D.Billing, 0, 1))
  }

  predicate Drafted(s: State) {
    && s.kind == D.Billing && s.docs == map["a" := FirstInvoice()] && s.used == {"a"}
    && s.creates == map[] && s.updates == map[] && s.deletes == map[]
    && s.treasury == T.State(map[], map[], map[], {}, map[], map[])
  }

  // ----- a trip billed twice -----

  /** Two updates have read the draft: one to pay it, one to void it. */
  lemma PayAndVoidRead() returns (r: Run)
    ensures IsRun(r) && Now(r).kind == D.Billing && Now(r).docs == map["a" := FirstInvoice()]
    ensures Now(r).creates == map[] && Now(r).used == {"a"}
    ensures Now(r).updates == map["p" := Read("a", D.Draft, Some(D.Paid), None, 0),
                                  "v" := Read("a", D.Draft, Some(D.Void), None, 0)]
  {
    r := OneInvoice();
    r := GoOn(r, ReadUpdate("p", "a", Some(D.Paid), None, 0));
    r := GoOn(r, ReadUpdate("v", "a", Some(D.Void), None, 0));
  }

  /** The void is written; the update that pays is still under way. */
  lemma Voided() returns (r: Run)
    ensures IsRun(r) && Now(r).kind == D.Billing && Now(r).creates == map[] && Now(r).used == {"a"}
    ensures Now(r).docs == map["a" := FirstInvoice().(status := D.Void)]
    ensures Now(r).updates == map["p" := Read("a", D.Draft, Some(D.Paid), None, 0)]
  {
    r := PayAndVoidRead();
    r := GoOn(r, WriteUpdate("v"));
    assert Now(r).updates == map["p" := Read("a", D.Draft, Some(D.Paid), None, 0)];
  }

  lemma OtherYear(docs: map<Id, D.Doc>)
    requires docs.Keys == {"a"} && docs["a"].number == D.FormatNumber(D.Billing, 0, 1)
    ensures D.NumbersWith(docs, D.Prefix(D.Billing, 1)) == {}
  {
    if D.Prefix(D.Billing, 1) <= D.FormatNumber(D.Billing, 0, 1) {
      L.PrefixTellsYear(D.Billing, 1, 0, 1);
    }
  }

  /** The voided trip is billed again, on `b`. */
  lemma BilledAgain() returns (r: Run)
    ensures IsRun(r) && Now(r).docs.Keys == {"a", "b"}
    ensures Now(r).docs["a"].status == D.Void && Now(r).docs["a"].lines == LinesOn(D.Billing, "t")
    ensures Now(r).docs["b"].status == D.Draft && Now(r).docs["b"].lines == LinesOn(D.Billing, "t")
    ensures Now(r).updates == map["p" := Read("a", D.Draft, Some(D.Paid), None, 0)]
  {
    r := Voided();
    OtherYear(Now(r).docs);
    assert D.Cover(Now(r).docs) == {};
    r := Invoice(r, 1, "b");
  }

  /** An update that read a draft pays it after it was voided and its trip billed again:
      the trip is now on two non-void invoices. */
  lemma StaleWriteBillsTwice() returns (r: Run)
    ensures IsRun(r) && !TripOnce(Now(r))
    ensures Now(r).docs.Keys == {"a", "b"} && IsPaid(Now(r), "a") && Now(r).docs["b"].status == D.Draft
  {
    r := BilledAgain();
    r := GoOn(r, WriteUpdate("p"));
    var s := Now(r);
    assert LiveLine(s, "a", 0) && LiveLine(s, "b", 0);
    assert SameTrip(s, "a", 0, "b", 0);
  }

  // ----- an invoice posted twice -----

  /** An account, and two updates that have both read the draft to pay it. */
  lemma BothPayRead() returns (r: Run)
    ensures IsRun(r) && Now(r).kind == D.Billing && Now(r).docs == map["a" := FirstInvoice()]
    ensures Now(r).updates == map["p" := Read("a", D.Draft, Some(D.Paid), None, 0),
                                  "q" := Read("a", D.Draft, Some(D.Paid), None, 0)]
    ensures Now(r).used == {"a"} && Now(r).treasury == T.State(map[], map[], map[], {}, map[], map[])
  {
    r := OneInvoice();
    r := GoOn(r, ReadUpdate("p", "a", Some(D.Paid), None, 0));
    r := GoOn(r, ReadUpdate("q", "a", Some(D.Paid), None, 0));
  }

  /** Both have written paid. */
  lemma BothPaid() returns (r: Run)
    ensures IsRun(r) && Now(r).kind == D.Billing && IsPaid(Now(r), "a")
    ensures Now(r).updates == map["p" := WrotePaid("a", 0), "q" := WrotePaid("a", 0)]
    ensures Now(r).used == {"a"} && Now(r).treasury == T.State(map[], map[], map[], {}, map[], map[])
  {
    r := BothPayRead();
    r := GoOn(r, WriteUpdate("p"));
    r := GoOn(r, WriteUpdate("q"));
  }

  /** Both have announced it: two handlers post the same invoice. */
  lemma BothAnnounced() returns (r: Run)
    ensures IsRun(r) && Now(r).kind == D.Billing && IsPaid(Now(r), "a") && Now(r).used == {"a", "h", "i"}
    ensures var t := Now(r).treasury;
            && t.accounts == map[] && t.ledger == map[] && t.ended == map[] && t.pending == map[]
            && t.handlers.Keys == {"h", "i"}
            && (forall k :: k in t.handlers ==> t.handlers[k].phase == T.Emitted)
            && (forall k :: k in t.handlers ==> t.handlers[k].post.source == T.Source(T.FromInvoice, "a"))
  {
    r := BothPaid();
    r := GoOn(r, Announce("p", "h", map[]));
    r := GoOn(r, Announce("q", "i", map[]));
  }

  /** One step of the treasury. */
  lemma Pay(r: Run, c: T.Action) returns (longer: Run)
    requires IsRun(r) && T.Enabled(Now(r).treasury, c) && T.NewIds(c) !! Now(r).used
    ensures IsRun(longer) && Now(longer).treasury == T.Apply(Now(r).treasury, c)
    ensures Now(longer).docs == Now(r).docs && Now(longer).kind == Now(r).kind
    ensures Now(longer).used == Now(r).used + T.NewIds(c)
  {
    longer := GoOn(r, Cash(c));
  }

  predicate TwoHandlers(t: T.State, phase: T.Phase) {
    && t.ledger == map[] && t.handlers.Keys == {"h", "i"}
    && forall k :: k in t.handlers ==>
         t.handlers[k].phase == phase && t.handlers[k].post.source == T.Source(T.FromInvoice, "a")
  }

  /** Both handlers have found no posting of the invoice. */
  lemma BothDeduped() returns (r: Run)
    ensures IsRun(r) && Now(r).kind == D.Billing && IsPaid(Now(r), "a")
    ensures TwoHandlers(Now(r).treasury, T.NoDupe) && "x" in Now(r).treasury.accounts
    ensures Now(r).treasury.accounts["x"].isDefault && Now(r).treasury.accounts["x"].active
  {
    r := BothAnnounced();
    r := Pay(r, T.DoDedupe("h"));
    r := Pay(r, T.DoDedupe("i"));
    r := Pay(r, T.DoCountAccounts("n"));
    r := Pay(r, T.DoFinishCreate("n", "x", "", 0, 0));
  }

  lemma BothChosen() returns (r: Run)
    ensures IsRun(r) && Now(r).kind == D.Billing && IsPaid(Now(r), "a")
    ensures TwoHandlers(Now(r).treasury, T.Chosen("x")) && "x" in Now(r).treasury.accounts
  {
    r := BothDeduped();
    r := Pay(r, T.DoDefaultRead("h", Some("x")));
    r := Pay(r, T.DoDefaultRead("i", Some("x")));
  }

  /** Two updates that overlap both enter paid and both announce it; when both handlers
      have passed their dedupe check, the ledger holds the invoice twice. */
  lemma OverlappingUpdatesPostTwice() returns (r: Run)
    ensures IsRun(r) && IsPaid(Now(r), "a") && !OnePost(Now(r))
    ensures ET.RowsFor(Now(r).treasury, SourceOf(Now(r), "a")) == {"h", "i"}
  {
    r := BothChosen();
    r := Pay(r, T.DoInsert("h"));
    r := Pay(r, T.DoInsert("i"));
    var rows := ET.RowsFor(Now(r).treasury, SourceOf(Now(r), "a"));
    assert rows == {"h", "i"} && |rows| == 2;
    assert !HasOnePost(Now(r), "a");
  }
}
