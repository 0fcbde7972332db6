/** Accounts-receivable aging: sent invoices, banded by days since issue, per client. */
module Aging {
  import opened Common
  import opened Sums
  import opened Ordering
  import opened Documents
  import E = Erp

  const DAY_MS := 86400000

  datatype Band = Current | D30 | D60 | D90

  /** Whole days from issue (a UTC midnight) to `now` in milliseconds, rounded down. */
  function AgeDays(now: int, issued: Day): int {
    (now - issued * DAY_MS) / DAY_MS
  }

  function BandOf(now: int, issued: Day): Band {
    var age := AgeDays(now, issued);
    if age <= 30 then Current else if age <= 60 then D30 else if age <= 90 then D60 else D90
  }

  function Rank(b: Band): nat {
    match b case Current => 0 case D30 => 1 case D60 => 2 case D90 => 3
  }

  /** As the clock advances an invoice only moves to an older band. */
  lemma BandsOnlyAge(now: int, later: int, issued: Day)
    requires now <= later
    ensures Rank(BandOf(now, issued)) <= Rank(BandOf(later, issued))
  {
  }

  /** The bands in days: 0..30, 31..60, 61..90, older; a day boundary is a midnight. */
  lemma BandBoundaries(now: int, issued: Day)
    ensures BandOf(now, issued) == Current <==> now < (issued + 31) * 86400000
    ensures BandOf(now, issued) == D30 <==> (issued + 31) * 86400000 <= now < (issued + 61) * 86400000
    ensures BandOf(now, issued) == D60 <==> (issued + 61) * 86400000 <= now < (issued + 91) * 86400000
    ensures BandOf(now, issued) == D90 <==> (issued + 91) * 86400000 <= now
  {
  }

  predicate Invoices(docs: map<Id, Doc>) {
    forall id :: id in docs ==> docs[id].Invoice?
  }

  function Outstanding(d: Doc): int
    requires d.Invoice?
  {
    d.total as int - d.amountPaid as int
  }

  predicate Counted(d: Doc) {
    d.Invoice? && d.status == Sent && Outstanding(d) > 0
  }

  /** The counted invoices among `ids`, with what is outstanding on each. */
  function Amounts(docs: map<Id, Doc>, ids: set<Id>): map<Id, int> {
    map id | id in ids && id in docs && Counted(docs[id]) :: Outstanding(docs[id])
  }

  /** … of one client, in the bands named. */
  function Part(docs: map<Id, Doc>, ids: set<Id>, now: int, client: Id, bands: set<Band>): map<Id, int> {
    map id | id in ids && id in docs && Counted(docs[id]) && docs[id].clientId == client &&
        BandOf(now, docs[id].issueDate) in bands ::
      Outstanding(docs[id])
  }

  function Cell(docs: map<Id, Doc>, ids: set<Id>, now: int, client: Id, band: Band): map<Id, int> {
    Part(docs, ids, now, client, {band})
  }

  function Clients(docs: map<Id, Doc>, ids: set<Id>): set<Id> {
    set id | id in ids && id in docs && Counted(docs[id]) :: docs[id].clientId
  }

  datatype Bands = Bands(current: int, d30: int, d60: int, d90: int)

  function Sum(b: Bands): int { b.current + b.d30 + b.d60 + b.d90 }

  function In(b: Bands, band: Band): int {
    match band case Current => b.current case D30 => b.d30 case D60 => b.d60 case D90 => b.d90
  }

  function Plus(b: Bands, band: Band, amount: int): Bands {
    match band
    case Current => b.(current := b.current + amount)
    case D30 => b.(d30 := b.d30 + amount)
    case D60 => b.(d60 := b.d60 + amount)
    case D90 => b.(d90 := b.d90 + amount)
  }

  /** Every band of the client holds exactly its counted invoices of that age. */
  ghost predicate Banded(docs: map<Id, Doc>, ids: set<Id>, now: int, client: Id, b: Bands) {
    forall band :: In(b, band) == MapSum(Cell(docs, ids, now, client, band))
  }

  datatype AgingRow = AgingRow(clientId: Id, clientName: string, bands: Bands, total: int)

  predicate LargerFirst(a: AgingRow, b: AgingRow) { a.total >= b.total }

  lemma CellGrows(docs: map<Id, Doc>, ids: set<Id>, now: int, id: Id, client: Id, band: Band)
    requires id in docs && id !in ids
    ensures MapSum(Cell(docs, ids + {id}, now, client, band)) == MapSum(Cell(docs, ids, now, client, band)) +
            if Counted(docs[id]) && docs[id].clientId == client && BandOf(now, docs[id].issueDate) == band
            then Outstanding(docs[id]) else 0
  {
    var cell := Cell(docs, ids, now, client, band);
    if Counted(docs[id]) && docs[id].clientId == client && BandOf(now, docs[id].issueDate) == band {
      MapSumInsert(cell, id, Outstanding(docs[id]));
      assert Cell(docs, ids + {id}, now, client, band) == cell[id := Outstanding(docs[id])];
    } else {
      assert Cell(docs, ids + {id}, now, client, band) == cell;
    }
  }

  lemma SplitBand(docs: map<Id, Doc>, ids: set<Id>, now: int, client: Id, band: Band, others: set<Band>)
    requires band !in others
    ensures MapSum(Part(docs, ids, now, client, {band} + others)) ==
            MapSum(Cell(docs, ids, now, client, band)) + MapSum(Part(docs, ids, now, client, others))
  {
    MapSumSplit(Part(docs, ids, now, client, {band} + others), Cell(docs, ids, now, client, band),
                Part(docs, ids, now, client, others));
  }

  /** The four bands of a client add up to what the client owes. */
  lemma BandsAddUp(docs: map<Id, Doc>, ids: set<Id>, now: int, client: Id, b: Bands, owner: map<Id, Id>)
    requires Banded(docs, ids, now, client, b)
    requires owner == map id | id in Amounts(docs, ids) :: docs[id].clientId
    ensures Sum(b) == MapSum(Filed(Amounts(docs, ids), owner, client))
  {
    SplitBand(docs, ids, now, client, D60, {D90});
    SplitBand(docs, ids, now, client, D30, {D60} + {D90});
    SplitBand(docs, ids, now, client, Current, {D30} + ({D60} + {D90}));
    assert Filed(Amounts(docs, ids), owner, client) == Part(docs, ids, now, client,
        {Current} + ({D30} + ({D60} + {D90})));
    assert In(b, Current) == b.current && In(b, D30) == b.d30 && In(b, D60) == b.d60 && In(b, D90) == b.d90;
  }

  /** The running bands after the invoices `ids`. */
  ghost predicate Running(docs: map<Id, Doc>, ids: set<Id>, now: int, byClient: map<Id, Bands>) {
    && byClient.Keys == Clients(docs, ids)
    && forall c, band :: (if c in byClient then In(byClient[c], band) else 0) == MapSum(Cell(docs, ids, now, c, band))
  }

  /** What one turn of the loop does to the running bands. */
  function Turn(byClient: map<Id, Bands>, inv: Doc, now: int): map<Id, Bands>
    requires inv.Invoice?
  {
    if Outstanding(inv) <= 0 then byClient
    else
      var e := if inv.clientId in byClient then byClient[inv.clientId] else Bands(0, 0, 0, 0);
      byClient[inv.clientId := Plus(e, BandOf(now, inv.issueDate), Outstanding(inv))]
  }

  lemma TurnKeeps(docs: map<Id, Doc>, ids: set<Id>, now: int, byClient: map<Id, Bands>, id: Id)
    requires Running(docs, ids, now, byClient) && id in docs && id !in ids
    requires docs[id].Invoice? && docs[id].status == Sent
    ensures Running(docs, ids + {id}, now, Turn(byClient, docs[id], now))
  {
    var inv := docs[id];
    var after := Turn(byClient, inv, now);
    forall c, band
      ensures (if c in after then In(after[c], band) else 0) == MapSum(Cell(docs, ids + {id}, now, c, band))
    {
      CellGrows(docs, ids, now, id, c, band);
      assert (if c in byClient then In(byClient[c], band) else 0) == MapSum(Cell(docs, ids, now, c, band));
    }
    ClientsGrow(docs, ids, id);
  }

  lemma ClientsGrow(docs: map<Id, Doc>, ids: set<Id>, id: Id)
    requires id in docs
    ensures Clients(docs, ids + {id}) == Clients(docs, ids) + if Counted(docs[id]) then {docs[id].clientId} else {}
  {
  }

  lemma NothingRunning(docs: map<Id, Doc>, ids: set<Id>, now: int)
    requires forall id :: id in ids && id in docs ==> docs[id].status != Sent
    ensures Running(docs, ids, now, map[])
  {
    forall c, band
      ensures MapSum(Cell(docs, ids, now, c, band)) == 0
    {
      assert Cell(docs, ids, now, c, band) == map[];
    }
    assert Clients(docs, ids) == {};
  }

  /** One turn of the loop. */
  method AddInvoice(before: map<Id, Bands>, inv: Doc, now: int) returns (byClient: map<Id, Bands>)
    requires inv.Invoice?
    ensures byClient == Turn(before, inv, now)
  {
    byClient := before;
    var outstanding := inv.total as int - inv.amountPaid as int;
    if outstanding > 0 {
      var e := if inv.clientId in before then before[inv.clientId] else Bands(0, 0, 0, 0);
      var age := (now - inv.issueDate * 86400000) / 86400000;
      if age <= 30 {
        e := e.(current := e.current + outstanding);
      } else if age <= 60 {
        e := e.(d30 := e.d30 + outstanding);
      } else if age <= 90 {
        e := e.(d60 := e.d60 + outstanding);
      } else {
        e := e.(d90 := e.d90 + outstanding);
      }
      byClient := byClient[inv.clientId := e];
    }
  }

  /** The first loop: running bands per client. */
  method Accumulate(docs: map<Id, Doc>, now: int) returns (byClient: map<Id, Bands>)
    requires Invoices(docs)
    ensures byClient.Keys == Clients(docs, docs.Keys)
    ensures forall c :: c in byClient ==> Banded(docs, docs.Keys, now, c, byClient[c])
  {
    byClient := map[];
    var rest := set id | id in docs && docs[id].status == Sent;
    NothingRunning(docs, docs.Keys - rest, now);
    while rest != {}
      invariant forall id :: id in rest ==> id in docs && docs[id].status == Sent
      invariant Running(docs, docs.Keys - rest, now, byClient)
      decreases rest
    {
      var id :| id in rest;
      var inv := docs[id];
      TurnKeeps(docs, docs.Keys - rest, now, byClient, id);
      assert docs.Keys - rest + {id} == docs.Keys - (rest - {id});
      rest := rest - {id};
      byClient := AddInvoice(byClient, inv, now);
    }
    assert docs.Keys - rest == docs.Keys;
  }

  /** The row of one client. */
  function RowFor(client: Id, v: Bands, clients: map<Id, string>): AgingRow {
    AgingRow(client, if client in clients then clients[client] else "", v, Sum(v))
  }

  /** A row of one of these clients, under the client's name, with the sum of its bands. */
  predicate IsRow(r: AgingRow, of: set<Id>, clients: map<Id, string>) {
    && r.clientId in of && r.clientName == (if r.clientId in clients then clients[r.clientId] else "")
    && r.total == r.bands.current + r.bands.d30 + r.bands.d60 + r.bands.d90
  }

  lemma ListedRows(rows: seq<AgingRow>, cells: map<Id, AgingRow>, clients: map<Id, string>)
    requires Lists(rows, cells) && forall c :: c in cells ==> cells[c] == RowFor(c, cells[c].bands, clients)
    ensures forall i :: 0 <= i < |rows| ==> IsRow(rows[i], cells.Keys, clients)
  {
    forall i | 0 <= i < |rows|
      ensures IsRow(rows[i], cells.Keys, clients)
    {
      assert rows[i] in cells.Values;
    }
  }

  /** The aging report. There is one row for each client with something outstanding;
      each band of a row holds exactly that client's counted invoices of that age;
      the grand total is everything outstanding. */
  method Report(docs: map<Id, Doc>, clients: map<Id, string>, now: int)
    returns (rows: seq<AgingRow>, grand: int, ghost cells: map<Id, AgingRow>)
    requires Invoices(docs)
    ensures cells.Keys == Clients(docs, docs.Keys)
    ensures forall c :: c in cells ==>
              Banded(docs, docs.Keys, now, c, cells[c].bands) && cells[c] == RowFor(c, cells[c].bands, clients)
    ensures Lists(rows, cells) && SortedBy(rows, LargerFirst)
    ensures forall i :: 0 <= i < |rows| ==> IsRow(rows[i], Clients(docs, docs.Keys), clients)
    ensures forall i, j :: 0 <= i < j < |rows| ==> rows[i].total >= rows[j].total
    ensures grand == MapSum(Amounts(docs, docs.Keys))
  {
    var byClient := Accumulate(docs, now);
    var table: map<Id, AgingRow> := map[];
    grand := 0;
    ghost var totals: map<Id, int> := map[];
    var rest := byClient.Keys;
    while rest != {}
      invariant rest <= byClient.Keys
      invariant forall c :: c in table <==> c in byClient && c !in rest
      invariant totals.Keys == table.Keys
      invariant forall c :: c in table ==> table[c] == RowFor(c, byClient[c], clients) && totals[c] == Sum(byClient[c])
      invariant grand == MapSum(totals)
      decreases rest
    {
      var c :| c in rest;
      var v := byClient[c];
      var name := if c in clients then clients[c] else "";
      var row := AgingRow(c, name, v, v.current + v.d30 + v.d60 + v.d90);
      MapSumInsert(totals, c, row.total);
      totals := totals[c := row.total];
      grand := grand + row.total;
      table := table[c := row];
      rest := rest - {c};
    }
    GrandTotal(docs, now, byClient, totals);
    cells := table;
    rows := Listing(table, LargerFirst);
    ListedRows(rows, table, clients);
  }

  lemma GrandTotal(docs: map<Id, Doc>, now: int, byClient: map<Id, Bands>, totals: map<Id, int>)
    requires byClient.Keys == Clients(docs, docs.Keys) == totals.Keys
    requires forall c :: c in byClient ==> Banded(docs, docs.Keys, now, c, byClient[c]) && totals[c] == Sum(byClient[c])
    ensures MapSum(totals) == MapSum(Amounts(docs, docs.Keys))
  {
    var owner := map id | id in Amounts(docs, docs.Keys) :: docs[id].clientId;
    forall c | c in totals
      ensures totals[c] == MapSum(Filed(Amounts(docs, docs.Keys), owner, c))
    {
      BandsAddUp(docs, docs.Keys, now, c, byClient[c], owner);
    }
    FilingConserves(Amounts(docs, docs.Keys), owner, totals);
  }

  /** In every reachable state the aging grand total is the sum of the totals of
      all sent invoices, because sent implies nothing paid yet. */
  lemma GrandIsSentTotals(trace: seq<E.State>, n: nat)
    requires E.IsRun(trace) && n < |trace|
    ensures var docs := trace[n].billing.docs;
            Invoices(docs) &&
            MapSum(Amounts(docs, docs.Keys)) == MapSum(map id | id in docs && docs[id].status == Sent :: docs[id].total)
  {
    E.RunKeeps(trace, n);
    SentTotals(trace[n].billing.docs);
  }

  lemma SentTotals(docs: map<Id, Doc>)
    requires DocsOk(Billing, docs)
    ensures Invoices(docs)
    ensures MapSum(Amounts(docs, docs.Keys)) == MapSum(map id | id in docs && docs[id].status == Sent :: docs[id].total)
  {
    assert forall id :: id in docs ==> DocOk(Billing, docs[id]);
    var sent: map<Id, int> := map id | id in docs && docs[id].status == Sent :: docs[id].total;
    var empty: map<Id, int> := map id | id in docs && docs[id].status == Sent && docs[id].total == 0 :: 0;
    MapSumSplit(sent, Amounts(docs, docs.Keys), empty);
    MapSumZero(empty);
  }
}
