/** The per-worker, per-client and per-truck reports. The rows of a report are the
    trips of its range, keyed by trip id and read in any order; every figure is
    specified as a filtered sum over that table, whatever order the loop takes. */
module Reporting {
  import opened Common
  import opened Sums
  import opened Ordering

  // ----- figures of the trip table -----

  type Table = map<Id, Trip>

  datatype Column = One | Bill | DriverPay | HelperPay

  datatype Group = ByTruck | ByClient | ByDriver | ByHelper | ByDate(day: Day)

  function Amount(t: Trip, c: Column): int {
    match c
    case One => 1
    case Bill => t.billAmount
    case DriverPay => t.driverPay
    case HelperPay => t.helperPay
  }

  /** The key a trip is grouped under; a trip without helper has none under ByHelper,
      and a trip of another day has none under ByDate. */
  function Key(t: Trip, g: Group): Option<Id> {
    match g
    case ByTruck => Some(t.truckId)
    case ByClient => Some(t.clientId)
    case ByDriver => Some(t.driver.id)
    case ByHelper => if t.helper.Some? then Some(t.helper.value.id) else None
    case ByDate(day) => if t.date == day then Some(t.truckId) else None
  }

  function Cell(ts: Table, c: Column, g: Group, id: Id): map<Id, int> {
    map k | k in ts && Key(ts[k], g) == Some(id) :: Amount(ts[k], c)
  }

  /** The sum of one column over the trips grouped under `id`. */
  ghost function Figure(ts: Table, c: Column, g: Group, id: Id): int {
    MapSum(Cell(ts, c, g, id))
  }

  /** A column of the trips that have a key, and their keys. */
  function Keyed(ts: Table, c: Column, g: Group): map<Id, int> {
    map k | k in ts && Key(ts[k], g).Some? :: Amount(ts[k], c)
  }

  function KeysOf(ts: Table, g: Group): map<Id, Id> {
    map k | k in ts && Key(ts[k], g).Some? :: Key(ts[k], g).value
  }

  /** A column over all trips that have a key. */
  ghost function Grand(ts: Table, c: Column, g: Group): int {
    MapSum(Keyed(ts, c, g))
  }

  function Present(ts: Table, g: Group): set<Id> {
    set k | k in ts && Key(ts[k], g).Some? :: Key(ts[k], g).value
  }

  lemma CellGrows(ts: Table, k: Id, t: Trip, c: Column, g: Group, id: Id)
    requires k !in ts
    ensures Cell(ts[k := t], c, g, id) ==
            if Key(t, g) == Some(id) then Cell(ts, c, g, id)[k := Amount(t, c)] else Cell(ts, c, g, id)
  {
  }

  lemma FigureGrows(ts: Table, k: Id, t: Trip, c: Column, g: Group, id: Id)
    requires k !in ts
    ensures Figure(ts[k := t], c, g, id) == Figure(ts, c, g, id) + if Key(t, g) == Some(id) then Amount(t, c) else 0
  {
    CellGrows(ts, k, t, c, g, id);
    if Key(t, g) == Some(id) {
      MapSumInsert(Cell(ts, c, g, id), k, Amount(t, c));
    }
  }

  lemma PresentGrows(ts: Table, k: Id, t: Trip, g: Group)
    requires k !in ts
    ensures Present(ts[k := t], g) == Present(ts, g) + if Key(t, g).Some? then {Key(t, g).value} else {}
  {
    var ts' := ts[k := t];
    assert ts'[k] == t && forall j :: j in ts ==> ts'[j] == ts[j];
    forall x | x in Present(ts, g)
      ensures x in Present(ts', g)
    {
      var j :| j in ts && Key(ts[j], g) == Some(x);
      assert Key(ts'[j], g) == Some(x);
    }
    if Key(t, g).Some? {
      assert Key(ts'[k], g) == Key(t, g);
    }
  }

  lemma FigureAbsent(ts: Table, c: Column, g: Group, id: Id)
    requires id !in Present(ts, g)
    ensures Figure(ts, c, g, id) == 0
  {
    assert forall k :: k in ts && Key(ts[k], g).Some? ==> Key(ts[k], g).value in Present(ts, g);
    assert Cell(ts, c, g, id) == map[];
  }

  /** Grouping loses nothing: per-key figures add up to the grand figure. */
  lemma FiguresConserve(ts: Table, c: Column, g: Group, cells: map<Id, int>)
    requires Present(ts, g) <= cells.Keys
    requires forall id :: id in cells ==> cells[id] == Figure(ts, c, g, id)
    ensures MapSum(cells) == Grand(ts, c, g)
  {
    forall id
      ensures Filed(Keyed(ts, c, g), KeysOf(ts, g), id) == Cell(ts, c, g, id)
    {
      FiledIsCell(ts, c, g, id);
    }
    forall k | k in Keyed(ts, c, g)
      ensures KeysOf(ts, g)[k] in cells
    {
      assert Key(ts[k], g).value in Present(ts, g);
    }
    FilingConserves(Keyed(ts, c, g), KeysOf(ts, g), cells);
  }

  lemma FiledIsCell(ts: Table, c: Column, g: Group, id: Id)
    ensures Filed(Keyed(ts, c, g), KeysOf(ts, g), id) == Cell(ts, c, g, id)
  {
  }

  /** `done` is the part of `ts` without the trips of `rest`. */
  ghost predicate Without(done: Table, ts: Table, rest: set<Id>) {
    && rest <= ts.Keys
    && (forall k :: k in done <==> k in ts && k !in rest)
    && (forall k :: k in done ==> done[k] == ts[k])
  }

  /** Larger amounts first, names breaking ties. */
  predicate Precedes(x: int, xName: string, y: int, yName: string, nameLe: (string, string) -> bool) {
    x > y || (x == y && nameLe(xName, yName))
  }

  // ----- worker pay -----

  datatype PayRow = PayRow(workerId: Id, workerName: string, driverPay: int, helperPay: int, totalPay: int)

  function PayOrder(nameLe: (string, string) -> bool): (PayRow, PayRow) -> bool {
    (a: PayRow, b: PayRow) => Precedes(a.totalPay, a.workerName, b.totalPay, b.workerName, nameLe)
  }

  lemma PayOrderTotal(nameLe: (string, string) -> bool)
    requires TotalPreorder(nameLe)
    ensures TotalPreorder(PayOrder(nameLe))
  {
    var le := PayOrder(nameLe);
    forall x, y ensures le(x, y) || le(y, x) {
      assert nameLe(x.workerName, y.workerName) || nameLe(y.workerName, x.workerName);
    }
    forall x, y, z | le(x, y) && le(y, z) ensures le(x, z) {
      assert nameLe(x.workerName, y.workerName) && nameLe(y.workerName, z.workerName) ==>
          nameLe(x.workerName, z.workerName);
    }
  }

  function Workers(ts: Table): set<Id> { Present(ts, ByDriver) + Present(ts, ByHelper) }

  /** Worker `w` appears on a trip under this name. */
  predicate NamedIn(ts: Table, w: Worker) {
    exists k :: k in ts && (ts[k].driver == w || ts[k].helper == Some(w))
  }

  /** Each worker goes by one name, as names are joined from the worker table. */
  ghost predicate OneName(ts: Table) {
    forall v, w :: NamedIn(ts, v) && NamedIn(ts, w) && v.id == w.id ==> v == w
  }

  /** What a worker earned: driver pay on trips driven, helper pay on trips helped. */
  ghost predicate Earned(ts: Table, w: Id, driver: int, helper: int) {
    driver == Figure(ts, DriverPay, ByDriver, w) && helper == Figure(ts, HelperPay, ByHelper, w)
  }

  /** The pay of every worker on the trips, one row each. */
  ghost predicate IsPayTable(ts: Table, cells: map<Id, PayRow>) {
    && cells.Keys == Workers(ts)
    && forall w :: w in cells ==>
         && cells[w].workerId == w && NamedIn(ts, Worker(w, cells[w].workerName))
         && Earned(ts, w, cells[w].driverPay, cells[w].helperPay)
         && cells[w].totalPay == cells[w].driverPay + cells[w].helperPay
  }

  datatype Acc = Acc(name: string, driver: int, helper: int)

  function AccOf(acc: map<Id, Acc>, w: Id): Acc { if w in acc then acc[w] else Acc("", 0, 0) }

  /** The accumulators after the rows `ts`. */
  ghost predicate PayRunning(ts: Table, acc: map<Id, Acc>) {
    && acc.Keys == Workers(ts)
    && (forall w :: w in acc ==> NamedIn(ts, Worker(w, acc[w].name)))
    && (forall w :: Earned(ts, w, AccOf(acc, w).driver, AccOf(acc, w).helper))
  }

  function Ensure(acc: map<Id, Acc>, w: Worker): map<Id, Acc> {
    if w.id in acc then acc else acc[w.id := Acc(w.name, 0, 0)]
  }

  /** One trip: the driver, then the helper if there is one. */
  function PayTurn(acc: map<Id, Acc>, t: Trip): map<Id, Acc> {
    var a := Ensure(acc, t.driver);
    var b := a[t.driver.id := a[t.driver.id].(driver := a[t.driver.id].driver + t.driverPay)];
    match t.helper
    case None => b
    case Some(h) =>
      var c := Ensure(b, h);
      c[h.id := c[h.id].(helper := c[h.id].helper + t.helperPay)]
  }

  lemma PayTurnFigures(acc: map<Id, Acc>, t: Trip, w: Id)
    ensures AccOf(PayTurn(acc, t), w).driver == AccOf(acc, w).driver + if t.driver.id == w then t.driverPay else 0
    ensures AccOf(PayTurn(acc, t), w).helper ==
            AccOf(acc, w).helper + if Key(t, ByHelper) == Some(w) then t.helperPay else 0
    ensures w in PayTurn(acc, t) <==> w in acc || t.driver.id == w || Key(t, ByHelper) == Some(w)
    ensures w in PayTurn(acc, t) ==>
              var v := Worker(w, PayTurn(acc, t)[w].name);
              v == t.driver || t.helper == Some(v) || (w in acc && acc[w].name == v.name)
  {
  }

  lemma NamesGrow(ts: Table, k: Id, t: Trip, w: Worker)
    requires k !in ts && (NamedIn(ts, w) || t.driver == w || t.helper == Some(w))
    ensures NamedIn(ts[k := t], w)
  {
    assert ts[k := t][k] == t;
    if NamedIn(ts, w) {
      var j :| j in ts && (ts[j].driver == w || ts[j].helper == Some(w));
      assert ts[k := t][j] == ts[j];
    }
  }

  lemma WorkersGrow(ts: Table, k: Id, t: Trip)
    requires k !in ts
    ensures forall w :: w in Workers(ts[k := t]) <==>
              w in Workers(ts) || t.driver.id == w || Key(t, ByHelper) == Some(w)
  {
    PresentGrows(ts, k, t, ByDriver);
    PresentGrows(ts, k, t, ByHelper);
  }

  lemma EarnedGrows(ts: Table, acc: map<Id, Acc>, k: Id, t: Trip, w: Id)
    requires k !in ts && Earned(ts, w, AccOf(acc, w).driver, AccOf(acc, w).helper)
    ensures Earned(ts[k := t], w, AccOf(PayTurn(acc, t), w).driver, AccOf(PayTurn(acc, t), w).helper)
  {
    PayTurnFigures(acc, t, w);
    FigureGrows(ts, k, t, DriverPay, ByDriver, w);
    FigureGrows(ts, k, t, HelperPay, ByHelper, w);
  }

  lemma NameKept(ts: Table, acc: map<Id, Acc>, k: Id, t: Trip, w: Id)
    requires k !in ts && w in PayTurn(acc, t) && (w in acc ==> NamedIn(ts, Worker(w, acc[w].name)))
    ensures NamedIn(ts[k := t], Worker(w, PayTurn(acc, t)[w].name))
  {
    PayTurnFigures(acc, t, w);
    NamesGrow(ts, k, t, Worker(w, PayTurn(acc, t)[w].name));
  }

  lemma PayTurnKeeps(ts: Table, acc: map<Id, Acc>, k: Id, t: Trip)
    requires PayRunning(ts, acc) && k !in ts
    ensures PayRunning(ts[k := t], PayTurn(acc, t))
  {
    var after := PayTurn(acc, t);
    forall w
      ensures Earned(ts[k := t], w, AccOf(after, w).driver, AccOf(after, w).helper)
    {
      assert Earned(ts, w, AccOf(acc, w).driver, AccOf(acc, w).helper);
      EarnedGrows(ts, acc, k, t, w);
    }
    WorkersGrow(ts, k, t);
    forall w
      ensures w in after <==> w in Workers(ts[k := t])
    {
      PayTurnFigures(acc, t, w);
    }
    forall w | w in after
      ensures NamedIn(ts[k := t], Worker(w, after[w].name))
    {
      NameKept(ts, acc, k, t, w);
    }
  }

  lemma PayStart()
    ensures PayRunning(map[], map[])
  {
    forall w ensures Earned(map[], w, 0, 0) {
      FigureAbsent(map[], DriverPay, ByDriver, w);
      FigureAbsent(map[], HelperPay, ByHelper, w);
    }
  }

  method AddTrip(before: map<Id, Acc>, t: Trip) returns (acc: map<Id, Acc>)
    ensures acc == PayTurn(before, t)
  {
    acc := before;
    if t.driver.id !in acc {
      acc := acc[t.driver.id := Acc(t.driver.name, 0, 0)];
    }
    acc := acc[t.driver.id := acc[t.driver.id].(driver := acc[t.driver.id].driver + t.driverPay)];
    if t.helper.Some? {
      var h := t.helper.value;
      if h.id !in acc {
        acc := acc[h.id := Acc(h.name, 0, 0)];
      }
      acc := acc[h.id := acc[h.id].(helper := acc[h.id].helper + t.helperPay)];
    }
  }

  method AggregateWorkerPay(ts: Table, nameLe: (string, string) -> bool)
    returns (rows: seq<PayRow>, ghost cells: map<Id, PayRow>)
    requires TotalPreorder(nameLe)
    ensures IsPayTable(ts, cells) && Lists(rows, cells) && SortedBy(rows, PayOrder(nameLe))
    ensures forall i, j :: 0 <= i < j < |rows| ==>
              rows[i].totalPay > rows[j].totalPay ||
              (rows[i].totalPay == rows[j].totalPay && nameLe(rows[i].workerName, rows[j].workerName))
  {
    var acc: map<Id, Acc> := map[];
    var rest := ts.Keys;
    ghost var done: Table := map[];
    PayStart();
    while rest != {}
      invariant Without(done, ts, rest) && PayRunning(done, acc)
      decreases rest
    {
      var k :| k in rest;
      var t := ts[k];
      PayTurnKeeps(done, acc, k, t);
      done := done[k := t];
      rest := rest - {k};
      acc := AddTrip(acc, t);
    }
    assert done == ts;
    var table := map w | w in acc :: PayRow(w, acc[w].name, acc[w].driver, acc[w].helper,
        acc[w].driver + acc[w].helper);
    PayFinish(ts, acc, table);
    PayOrderTotal(nameLe);
    cells := table;
    rows := Listing(table, PayOrder(nameLe));
  }

  lemma PayFinish(ts: Table, acc: map<Id, Acc>, table: map<Id, PayRow>)
    requires PayRunning(ts, acc) && table.Keys == acc.Keys
    requires forall w :: w in acc ==> table[w] == PayRow(w, acc[w].name, acc[w].driver, acc[w].helper,
             acc[w].driver + acc[w].helper)
    ensures IsPayTable(ts, table)
  {
    forall w | w in acc
      ensures Earned(ts, w, acc[w].driver, acc[w].helper)
    {
      assert Earned(ts, w, AccOf(acc, w).driver, AccOf(acc, w).helper);
    }
  }

  /** A worker-pay table accounts for all driver pay, and for the helper pay of all
      trips that have a helper. */
  lemma PayConserves(ts: Table, cells: map<Id, PayRow>)
    requires IsPayTable(ts, cells)
    ensures MapSum(map w | w in cells :: cells[w].driverPay) == Grand(ts, DriverPay, ByDriver)
    ensures MapSum(map w | w in cells :: cells[w].helperPay) == Grand(ts, HelperPay, ByHelper)
  {
    FiguresConserve(ts, DriverPay, ByDriver, map w | w in cells :: cells[w].driverPay);
    FiguresConserve(ts, HelperPay, ByHelper, map w | w in cells :: cells[w].helperPay);
  }

  // ----- client billables -----

  datatype ClientRow = ClientRow(clientId: Id, clientName: string, tripCount: int, billAmount: int)

  function ClientOrder(nameLe: (string, string) -> bool): (ClientRow, ClientRow) -> bool {
    (a: ClientRow, b: ClientRow) => Precedes(a.billAmount, a.clientName, b.billAmount, b.clientName, nameLe)
  }

  lemma ClientOrderTotal(nameLe: (string, string) -> bool)
    requires TotalPreorder(nameLe)
    ensures TotalPreorder(ClientOrder(nameLe))
  {
    var le := ClientOrder(nameLe);
    forall x, y ensures le(x, y) || le(y, x) {
      assert nameLe(x.clientName, y.clientName) || nameLe(y.clientName, x.clientName);
    }
    forall x, y, z | le(x, y) && le(y, z) ensures le(x, z) {
      assert nameLe(x.clientName, y.clientName) && nameLe(y.clientName, z.clientName) ==>
          nameLe(x.clientName, z.clientName);
    }
  }

  /** Some trip bills client `c` under this name. */
  predicate ClientNamed(ts: Table, c: Id, name: string) {
    exists k :: k in ts && ts[k].clientId == c && ts[k].clientName == name
  }

  /** One client's trips, counted and summed. */
  ghost predicate IsClientRow(ts: Table, c: Id, r: ClientRow) {
    && r.clientId == c && ClientNamed(ts, c, r.clientName)
    && r.tripCount == Figure(ts, One, ByClient, c)
    && r.billAmount == Figure(ts, Bill, ByClient, c)
  }

  ghost predicate IsClientTable(ts: Table, cells: map<Id, ClientRow>) {
    cells.Keys == Present(ts, ByClient) && forall c {:trigger IsClientRow(ts, c, cells[c])} :: c in cells ==>
        IsClientRow(ts, c, cells[c])
  }

  lemma ClientRowGrows(ts: Table, k: Id, t: Trip, c: Id, r: ClientRow)
    requires k !in ts && IsClientRow(ts, c, r)
    ensures IsClientRow(ts[k := t], c, if c == t.clientId then ClientTurn(r, t) else r)
  {
    FigureGrows(ts, k, t, One, ByClient, c);
    FigureGrows(ts, k, t, Bill, ByClient, c);
    var j :| j in ts && ts[j].clientId == c && ts[j].clientName == r.clientName;
    assert ts[k := t][j] == ts[j];
  }

  function ClientTurn(r: ClientRow, t: Trip): ClientRow {
    r.(tripCount := r.tripCount + 1, billAmount := r.billAmount + t.billAmount)
  }

  lemma ClientRowStarts(ts: Table, k: Id, t: Trip)
    requires k !in ts && t.clientId !in Present(ts, ByClient)
    ensures IsClientRow(ts[k := t], t.clientId, ClientTurn(ClientRow(t.clientId, t.clientName, 0, 0), t))
  {
    FigureAbsent(ts, One, ByClient, t.clientId);
    FigureAbsent(ts, Bill, ByClient, t.clientId);
    FigureGrows(ts, k, t, One, ByClient, t.clientId);
    FigureGrows(ts, k, t, Bill, ByClient, t.clientId);
    assert ts[k := t][k] == t;
  }

  lemma ClientTurnKeeps(ts: Table, cells: map<Id, ClientRow>, k: Id, t: Trip, e: ClientRow)
    requires IsClientTable(ts, cells) && k !in ts
    requires e == if t.clientId in cells then cells[t.clientId] else ClientRow(t.clientId, t.clientName, 0, 0)
    ensures IsClientTable(ts[k := t], cells[t.clientId := ClientTurn(e, t)])
  {
    PresentGrows(ts, k, t, ByClient);
    if t.clientId !in cells {
      ClientRowStarts(ts, k, t);
    }
    var after := cells[t.clientId := ClientTurn(e, t)];
    assert after.Keys == Present(ts[k := t], ByClient);
    forall c | c in after
      ensures IsClientRow(ts[k := t], c, after[c])
    {
      if c in cells {
        ClientRowGrows(ts, k, t, c, cells[c]);
      }
    }
  }

  lemma ClientStart()
    ensures IsClientTable(map[], map[])
  {
  }

  /** The accumulation loop: one client a row, in any order of the trips. */
  method ClientCells(ts: Table) returns (byClient: map<Id, ClientRow>)
    ensures IsClientTable(ts, byClient)
  {
    byClient := map[];
    var rest := ts.Keys;
    ghost var done: Table := map[];
    ClientStart();
    while rest != {}
      invariant Without(done, ts, rest) && IsClientTable(done, byClient)
      decreases rest
    {
      var k :| k in rest;
      var t := ts[k];
      ClientTurnKeeps(done, byClient, k, t,
          if t.clientId in byClient then byClient[t.clientId] else ClientRow(t.clientId, t.clientName, 0, 0));
      var e := if t.clientId in byClient then byClient[t.clientId] else ClientRow(t.clientId, t.clientName, 0, 0);
      byClient := byClient[t.clientId := e.(tripCount := e.tripCount + 1, billAmount := e.billAmount + t.billAmount)];
      done := done[k := t];
      rest := rest - {k};
    }
    assert done == ts;
  }

  lemma ClientsInjective(ts: Table, cells: map<Id, ClientRow>)
    requires IsClientTable(ts, cells)
    ensures Injective(cells)
  {
    forall c, d | c in cells && d in cells && cells[c] == cells[d] ensures c == d {
      assert IsClientRow(ts, c, cells[c]) && IsClientRow(ts, d, cells[d]);
    }
  }

  method AggregateClientBillables(ts: Table, nameLe: (string, string) -> bool)
    returns (rows: seq<ClientRow>, ghost cells: map<Id, ClientRow>)
    requires TotalPreorder(nameLe)
    ensures IsClientTable(ts, cells) && Lists(rows, cells) && SortedBy(rows, ClientOrder(nameLe))
    ensures forall i, j :: 0 <= i < j < |rows| ==>
              rows[i].billAmount > rows[j].billAmount ||
              (rows[i].billAmount == rows[j].billAmount && nameLe(rows[i].clientName, rows[j].clientName))
  {
    var byClient := ClientCells(ts);
    ClientOrderTotal(nameLe);
    ClientsInjective(ts, byClient);
    cells := byClient;
    rows := Listing(byClient, ClientOrder(nameLe));
  }

  /** Client billables account for all billing and all trips. */
  lemma ClientsConserve(ts: Table, cells: map<Id, ClientRow>)
    requires IsClientTable(ts, cells)
    ensures MapSum(map c | c in cells :: cells[c].billAmount) == Grand(ts, Bill, ByClient)
    ensures MapSum(map c | c in cells :: cells[c].tripCount) == Grand(ts, One, ByClient)
  {
    assert forall c :: c in cells ==> IsClientRow(ts, c, cells[c]);
    FiguresConserve(ts, Bill, ByClient, map c | c in cells :: cells[c].billAmount);
    FiguresConserve(ts, One, ByClient, map c | c in cells :: cells[c].tripCount);
  }

  // ----- per-truck profit and loss -----

  datatype PnlRow = PnlRow(truckId: Id, truckCode: string, revenue: int, fuel: int, driverPay: int, helperPay: int,
                           costs: int, profit: int)

  datatype PnlTotals = PnlTotals(revenue: int, fuel: int, driverPay: int, helperPay: int, costs: int, profit: int)

  datatype TruckAcc = TruckAcc(code: string, revenue: int, driver: int, helper: int, fuel: int, cost: int)

  function PnlOrder(nameLe: (string, string) -> bool): (PnlRow, PnlRow) -> bool {
    (a: PnlRow, b: PnlRow) => nameLe(a.truckCode, b.truckCode)
  }

  lemma PnlOrderTotal(nameLe: (string, string) -> bool)
    requires TotalPreorder(nameLe)
    ensures TotalPreorder(PnlOrder(nameLe))
  {
    var le := PnlOrder(nameLe);
    forall x, y ensures le(x, y) || le(y, x) {
      assert nameLe(x.truckCode, y.truckCode) || nameLe(y.truckCode, x.truckCode);
    }
    forall x, y, z | le(x, y) && le(y, z) ensures le(x, z) {
      assert nameLe(x.truckCode, y.truckCode) && nameLe(y.truckCode, z.truckCode) ==> nameLe(x.truckCode, z.truckCode);
    }
  }

  function At(m: map<Id, int>, k: Id): int { if k in m then m[k] else 0 }

  /** One truck's figures: its trips, its fuel and its costs. */
  ghost predicate IsPnlRow(ts: Table, fuel: map<Id, int>, costs: map<Id, int>, truck: Id, r: PnlRow) {
    && r.truckId == truck
    && r.revenue == Figure(ts, Bill, ByTruck, truck)
    && r.driverPay == Figure(ts, DriverPay, ByTruck, truck)
    && r.helperPay == Figure(ts, HelperPay, ByTruck, truck)
    && r.fuel == At(fuel, truck) && r.costs == At(costs, truck)
    && r.profit == r.revenue - r.fuel - r.driverPay - r.helperPay - r.costs
  }

  /** One row per truck with a trip, a fuel or a cost entry. */
  ghost predicate IsPnlTable(ts: Table, fuel: map<Id, int>, costs: map<Id, int>, cells: map<Id, PnlRow>) {
    && cells.Keys == Present(ts, ByTruck) + fuel.Keys + costs.Keys
    && forall truck :: truck in cells ==> IsPnlRow(ts, fuel, costs, truck, cells[truck])
  }

  /** A truck without trips goes by its fleet code, failing that by its id. */
  function CodeFor(codes: map<Id, string>, truck: Id): string {
    if truck in codes then codes[truck] else truck
  }

  /** Some trip ran on `truck` under this code. */
  predicate CodedIn(ts: Table, truck: Id, code: string) {
    exists k :: k in ts && ts[k].truckId == truck && ts[k].truckCode == code
  }

  /** A row shows its trips' truck code, or the fleet code if there are none. */
  ghost predicate CodesShown(ts: Table, codes: map<Id, string>, cells: map<Id, PnlRow>) {
    forall truck :: truck in cells ==>
      if truck in Present(ts, ByTruck) then CodedIn(ts, truck, cells[truck].truckCode)
      else cells[truck].truckCode == CodeFor(codes, truck)
  }

  function TruckAccOf(acc: map<Id, TruckAcc>, truck: Id, codes: map<Id, string>): TruckAcc {
    if truck in acc then acc[truck] else TruckAcc(CodeFor(codes, truck), 0, 0, 0, 0, 0)
  }

  /** Revenue and pay of one truck's trips, before fuel and costs are laid over. */
  ghost predicate TripTotals(ts: Table, truck: Id, e: TruckAcc) {
    && e.revenue == Figure(ts, Bill, ByTruck, truck)
    && e.driver == Figure(ts, DriverPay, ByTruck, truck)
    && e.helper == Figure(ts, HelperPay, ByTruck, truck)
    && e.fuel == 0 && e.cost == 0
  }

  ghost predicate TripsRunning(ts: Table, acc: map<Id, TruckAcc>) {
    acc.Keys == Present(ts, ByTruck) &&
      forall truck {:trigger TripTotals(ts, truck, acc[truck])} :: truck in acc ==> TripTotals(ts, truck, acc[truck])
  }

  ghost predicate TripsCoded(ts: Table, acc: map<Id, TruckAcc>) {
    forall truck {:trigger CodedIn(ts, truck, acc[truck].code)} :: truck in acc ==> CodedIn(ts, truck, acc[truck].code)
  }

  lemma CodesGrow(ts: Table, acc: map<Id, TruckAcc>, k: Id, t: Trip, e: TruckAcc)
    requires TripsCoded(ts, acc) && k !in ts
    requires e.code == if t.truckId in acc then acc[t.truckId].code else t.truckCode
    ensures TripsCoded(ts[k := t], acc[t.truckId := e])
  {
    assert ts[k := t][k] == t;
    forall truck | truck in acc
      ensures CodedIn(ts[k := t], truck, acc[truck].code)
    {
      assert CodedIn(ts, truck, acc[truck].code);
      var j :| j in ts && ts[j].truckId == truck && ts[j].truckCode == acc[truck].code;
      assert ts[k := t][j] == ts[j];
    }
  }

  lemma TripTotalsGrow(ts: Table, k: Id, t: Trip, truck: Id, e: TruckAcc)
    requires k !in ts && TripTotals(ts, truck, e)
    ensures TripTotals(ts[k := t], truck, if truck == t.truckId then TruckTurn(e, t) else e)
  {
    FigureGrows(ts, k, t, Bill, ByTruck, truck);
    FigureGrows(ts, k, t, DriverPay, ByTruck, truck);
    FigureGrows(ts, k, t, HelperPay, ByTruck, truck);
  }

  function TruckTurn(e: TruckAcc, t: Trip): TruckAcc {
    e.(revenue := e.revenue + t.billAmount, driver := e.driver + t.driverPay, helper := e.helper + t.helperPay)
  }

  lemma NoTripsNoTotals(ts: Table, truck: Id, code: string)
    requires truck !in Present(ts, ByTruck)
    ensures TripTotals(ts, truck, TruckAcc(code, 0, 0, 0, 0, 0))
  {
    FigureAbsent(ts, Bill, ByTruck, truck);
    FigureAbsent(ts, DriverPay, ByTruck, truck);
    FigureAbsent(ts, HelperPay, ByTruck, truck);
  }

  lemma TruckTurnKeeps(ts: Table, acc: map<Id, TruckAcc>, k: Id, t: Trip, e: TruckAcc)
    requires TripsRunning(ts, acc) && k !in ts
    requires e == if t.truckId in acc then acc[t.truckId] else TruckAcc(t.truckCode, 0, 0, 0, 0, 0)
    ensures TripsRunning(ts[k := t], acc[t.truckId := TruckTurn(e, t)])
  {
    PresentGrows(ts, k, t, ByTruck);
    if t.truckId !in acc {
      NoTripsNoTotals(ts, t.truckId, t.truckCode);
    }
    var after := acc[t.truckId := TruckTurn(e, t)];
    forall truck | truck in after
      ensures TripTotals(ts[k := t], truck, after[truck])
    {
      TripTotalsGrow(ts, k, t, truck, if truck == t.truckId then e else acc[truck]);
    }
  }

  lemma TruckStart()
    ensures TripsRunning(map[], map[]) && TripsCoded(map[], map[])
  {
  }

  /** The first loop of the report: revenue and pay per truck. */
  method TripFigures(ts: Table) returns (acc: map<Id, TruckAcc>)
    ensures TripsRunning(ts, acc) && TripsCoded(ts, acc)
  {
    acc := map[];
    var rest := ts.Keys;
    ghost var done: Table := map[];
    TruckStart();
    while rest != {}
      invariant Without(done, ts, rest) && TripsRunning(done, acc) && TripsCoded(done, acc)
      decreases rest
    {
      var k :| k in rest;
      var t := ts[k];
      var e := if t.truckId in acc then acc[t.truckId] else TruckAcc(t.truckCode, 0, 0, 0, 0, 0);
      TruckTurnKeeps(done, acc, k, t, e);
      CodesGrow(done, acc, k, t, TruckTurn(e, t));
      assert TruckTurn(e, t) == e.(revenue := e.revenue + t.billAmount, driver := e.driver + t.driverPay,
          helper := e.helper + t.helperPay);
      acc := acc[t.truckId := e.(revenue := e.revenue + t.billAmount, driver := e.driver + t.driverPay,
          helper := e.helper + t.helperPay)];
      done := done[k := t];
      rest := rest - {k};
    }
    assert done == ts;
  }

  /** The fuel or cost entries `ks` of one truck. */
  function EntriesOf(entries: map<Id, (Id, int)>, ks: set<Id>, truck: Id): map<Id, int> {
    map k | k in ks && k in entries && entries[k].0 == truck :: entries[k].1
  }

  lemma EntriesGrow(entries: map<Id, (Id, int)>, ks: set<Id>, k: Id, truck: Id)
    requires k in entries && k !in ks
    ensures MapSum(EntriesOf(entries, ks + {k}, truck)) ==
            MapSum(EntriesOf(entries, ks, truck)) + if entries[k].0 == truck then entries[k].1 else 0
  {
    var before := EntriesOf(entries, ks, truck);
    if entries[k].0 == truck {
      MapSumInsert(before, k, entries[k].1);
      assert EntriesOf(entries, ks + {k}, truck) == before[k := entries[k].1];
    } else {
      assert EntriesOf(entries, ks + {k}, truck) == before;
    }
  }

  /** The trucks with an entry among `ks`. */
  function TrucksOf(entries: map<Id, (Id, int)>, ks: set<Id>): set<Id> {
    set k | k in ks && k in entries :: entries[k].0
  }

  /** Per-truck sums of fuel or cost entries. */
  method SumByTruck(entries: map<Id, (Id, int)>) returns (sums: map<Id, int>)
    ensures sums.Keys == TrucksOf(entries, entries.Keys)
    ensures forall truck :: At(sums, truck) == MapSum(EntriesOf(entries, entries.Keys, truck))
  {
    sums := map[];
    var rest := entries.Keys;
    ghost var done: set<Id> := {};
    assert forall truck :: EntriesOf(entries, {}, truck) == map[];
    while rest != {}
      invariant rest <= entries.Keys && forall k :: k in entries ==> (k in done <==> k !in rest)
      invariant done <= entries.Keys
      invariant sums.Keys == TrucksOf(entries, done)
      invariant forall truck :: At(sums, truck) == MapSum(EntriesOf(entries, done, truck))
      decreases rest
    {
      var k :| k in rest;
      var (truck, amount) := entries[k];
      forall other
        ensures MapSum(EntriesOf(entries, done + {k}, other)) == At(sums, other) + if other == truck then amount else 0
      {
        EntriesGrow(entries, done, k, other);
      }
      assert TrucksOf(entries, done + {k}) == TrucksOf(entries, done) + {truck};
      sums := sums[truck := At(sums, truck) + amount];
      done := done + {k};
      rest := rest - {k};
    }
    assert done == entries.Keys;
  }

  /** Per-truck sums account for every fuel or cost entry. */
  lemma TruckSumsConserve(entries: map<Id, (Id, int)>, sums: map<Id, int>)
    requires sums.Keys == TrucksOf(entries, entries.Keys)
    requires forall truck :: At(sums, truck) == MapSum(EntriesOf(entries, entries.Keys, truck))
    ensures MapSum(sums) == MapSum(map k | k in entries :: entries[k].1)
  {
    var amounts := map k | k in entries :: entries[k].1;
    var trucks := map k | k in entries :: entries[k].0;
    forall truck | truck in sums
      ensures sums[truck] == MapSum(Filed(amounts, trucks, truck))
    {
      assert Filed(amounts, trucks, truck) == EntriesOf(entries, entries.Keys, truck);
      assert sums[truck] == At(sums, truck);
    }
    FilingConserves(amounts, trucks, sums);
  }

  function PnlRowOf(truck: Id, e: TruckAcc): PnlRow {
    PnlRow(truck, e.code, e.revenue, e.fuel, e.driver, e.helper, e.cost,
        e.revenue - e.fuel - e.driver - e.helper - e.cost)
  }

  ghost predicate NotOverlaid(acc: map<Id, TruckAcc>, fuel: bool) {
    forall truck :: truck in acc ==> (if fuel then acc[truck].fuel else acc[truck].cost) == 0
  }

  /** `out` is `acc` with the amounts laid over, and trucks added for new ones. */
  ghost predicate Overlaid(acc: map<Id, TruckAcc>, amounts: map<Id, int>, fuel: bool, codes: map<Id, string>,
                           out: map<Id, TruckAcc>) {
    && out.Keys == acc.Keys + amounts.Keys
    && forall truck :: truck in out ==>
         var e := TruckAccOf(acc, truck, codes);
         out[truck] == if fuel then e.(fuel := At(amounts, truck)) else e.(cost := At(amounts, truck))
  }

  /** Lays per-truck amounts over the accumulators: fuel, or other costs. */
  method Overlay(acc: map<Id, TruckAcc>, amounts: map<Id, int>, fuel: bool,
                 codes: map<Id, string>) returns (out: map<Id, TruckAcc>)
    requires NotOverlaid(acc, fuel)
    ensures Overlaid(acc, amounts, fuel, codes, out)
  {
    out := acc;
    var rest := amounts.Keys;
    while rest != {}
      invariant rest <= amounts.Keys
      invariant out.Keys == acc.Keys + (amounts.Keys - rest)
      invariant forall truck :: truck in out ==>
                  var e := TruckAccOf(acc, truck, codes);
                  var amount := if truck in amounts && truck !in rest then amounts[truck] else 0;
                  out[truck] == if fuel then e.(fuel := amount) else e.(cost := amount)
      decreases rest
    {
      var truck :| truck in rest;
      var code := if truck in codes then codes[truck] else truck;
      var e := if truck in out then out[truck] else TruckAcc(code, 0, 0, 0, 0, 0);
      out := out[truck := if fuel then e.(fuel := amounts[truck]) else e.(cost := amounts[truck])];
      rest := rest - {truck};
    }
  }

  /** The accumulators after trips, fuel and costs, as rows. */
  method PnlCells(ts: Table, fuel: map<Id, int>, costs: map<Id, int>, codes: map<Id, string>)
    returns (cells: map<Id, PnlRow>)
    ensures IsPnlTable(ts, fuel, costs, cells) && CodesShown(ts, codes, cells)
  {
    var acc := TripFigures(ts);
    TripsNotOverlaid(ts, acc);
    var fuelled := Overlay(acc, fuel, true, codes);
    CostsNotOverlaid(ts, acc, fuel, codes, fuelled);
    var all := Overlay(fuelled, costs, false, codes);
    PnlRows(ts, fuel, costs, codes, acc, fuelled, all);
    PnlCodes(ts, fuel, costs, codes, acc, fuelled, all);
    cells := map truck | truck in all :: PnlRowOf(truck, all[truck]);
  }

  lemma TripsNotOverlaid(ts: Table, acc: map<Id, TruckAcc>)
    requires TripsRunning(ts, acc)
    ensures NotOverlaid(acc, true)
  {
    assert forall truck :: truck in acc ==> TripTotals(ts, truck, acc[truck]);
  }

  lemma CostsNotOverlaid(ts: Table, acc: map<Id, TruckAcc>, fuel: map<Id, int>, codes: map<Id, string>,
                         fuelled: map<Id, TruckAcc>)
    requires TripsRunning(ts, acc) && Overlaid(acc, fuel, true, codes, fuelled)
    ensures NotOverlaid(fuelled, false)
  {
    assert forall truck :: truck in acc ==> TripTotals(ts, truck, acc[truck]);
  }

  lemma PnlInjective(ts: Table, fuel: map<Id, int>, costs: map<Id, int>, cells: map<Id, PnlRow>)
    requires IsPnlTable(ts, fuel, costs, cells)
    ensures Injective(cells)
  {
    forall c, d | c in cells && d in cells && cells[c] == cells[d] ensures c == d {
      assert IsPnlRow(ts, fuel, costs, c, cells[c]) && IsPnlRow(ts, fuel, costs, d, cells[d]);
    }
  }

  /** The profit-and-loss report: one row per truck with a trip, fuel or cost entry,
      and totals that are the sums of the columns. */
  method AggregateTruckPnl(ts: Table, fuel: map<Id, int>, costs: map<Id, int>, codes: map<Id, string>,
                           nameLe: (string, string) -> bool)
    returns (rows: seq<PnlRow>, totals: PnlTotals, ghost cells: map<Id, PnlRow>)
    requires TotalPreorder(nameLe)
    ensures IsPnlTable(ts, fuel, costs, cells) && Lists(rows, cells) && SortedBy(rows, PnlOrder(nameLe))
    ensures CodesShown(ts, codes, cells) && ColumnSums(cells, totals)
    ensures forall i, j :: 0 <= i < j < |rows| ==> nameLe(rows[i].truckCode, rows[j].truckCode)
  {
    var table := PnlCells(ts, fuel, costs, codes);
    totals := SumColumns(table);
    PnlOrderTotal(nameLe);
    PnlInjective(ts, fuel, costs, table);
    cells := table;
    rows := Listing(table, PnlOrder(nameLe));
  }

  lemma PnlRows(ts: Table, fuel: map<Id, int>, costs: map<Id, int>, codes: map<Id, string>, acc: map<Id, TruckAcc>,
                fuelled: map<Id, TruckAcc>, all: map<Id, TruckAcc>)
    requires TripsRunning(ts, acc)
    requires Overlaid(acc, fuel, true, codes, fuelled) && Overlaid(fuelled, costs, false, codes, all)
    ensures IsPnlTable(ts, fuel, costs, map truck | truck in all :: PnlRowOf(truck, all[truck]))
  {
    forall truck | truck in all
      ensures IsPnlRow(ts, fuel, costs, truck, PnlRowOf(truck, all[truck]))
    {
      if truck !in acc {
        NoTripsNoTotals(ts, truck, CodeFor(codes, truck));
      }
      assert TripTotals(ts, truck, TruckAccOf(acc, truck, codes));
    }
  }

  lemma PnlCodes(ts: Table, fuel: map<Id, int>, costs: map<Id, int>, codes: map<Id, string>, acc: map<Id, TruckAcc>,
                 fuelled: map<Id, TruckAcc>, all: map<Id, TruckAcc>)
    requires acc.Keys == Present(ts, ByTruck) && TripsCoded(ts, acc)
    requires Overlaid(acc, fuel, true, codes, fuelled) && Overlaid(fuelled, costs, false, codes, all)
    ensures CodesShown(ts, codes, map truck | truck in all :: PnlRowOf(truck, all[truck]))
  {
    forall truck | truck in all
      ensures if truck in Present(ts, ByTruck) then CodedIn(ts, truck, all[truck].code)
              else all[truck].code == CodeFor(codes, truck)
    {
      assert all[truck].code == TruckAccOf(acc, truck, codes).code;
      assert truck in acc ==> CodedIn(ts, truck, acc[truck].code);
    }
  }

  datatype PnlColumn = Revenue | FuelCost | Drivers | Helpers | Costs | Profit

  function InRow(r: PnlRow, c: PnlColumn): int {
    match c
    case Revenue => r.revenue case FuelCost => r.fuel case Drivers => r.driverPay
    case Helpers => r.helperPay case Costs => r.costs case Profit => r.profit
  }

  function InTotals(t: PnlTotals, c: PnlColumn): int {
    match c
    case Revenue => t.revenue case FuelCost => t.fuel case Drivers => t.driverPay
    case Helpers => t.helperPay case Costs => t.costs case Profit => t.profit
  }

  function ColumnOf(cells: map<Id, PnlRow>, c: PnlColumn): map<Id, int> {
    map k | k in cells :: InRow(cells[k], c)
  }

  /** The totals are the column sums. */
  ghost predicate ColumnSums(cells: map<Id, PnlRow>, t: PnlTotals) {
    forall c :: InTotals(t, c) == MapSum(ColumnOf(cells, c))
  }

  function Added(t: PnlTotals, r: PnlRow): PnlTotals {
    PnlTotals(t.revenue + r.revenue, t.fuel + r.fuel, t.driverPay + r.driverPay,
              t.helperPay + r.helperPay, t.costs + r.costs, t.profit + r.profit)
  }

  lemma ColumnsGrow(cells: map<Id, PnlRow>, t: PnlTotals, k: Id, r: PnlRow)
    requires ColumnSums(cells, t) && k !in cells
    ensures ColumnSums(cells[k := r], Added(t, r))
  {
    forall c
      ensures InTotals(Added(t, r), c) == MapSum(ColumnOf(cells[k := r], c))
    {
      assert InTotals(t, c) == MapSum(ColumnOf(cells, c));
      MapSumInsert(ColumnOf(cells, c), k, InRow(r, c));
      assert ColumnOf(cells[k := r], c) == ColumnOf(cells, c)[k := InRow(r, c)];
    }
  }

  /** The running totals of the row-building loop. */
  method SumColumns(cells: map<Id, PnlRow>) returns (t: PnlTotals)
    ensures ColumnSums(cells, t)
  {
    t := PnlTotals(0, 0, 0, 0, 0, 0);
    var rest := cells.Keys;
    ghost var done: map<Id, PnlRow> := map[];
    while rest != {}
      invariant rest <= cells.Keys
      invariant forall k :: k in done <==> k in cells && k !in rest
      invariant forall k :: k in done ==> done[k] == cells[k]
      invariant ColumnSums(done, t)
      decreases rest
    {
      var k :| k in rest;
      var r := cells[k];
      ColumnsGrow(done, t, k, r);
      t := Added(t, r);
      done := done[k := r];
      rest := rest - {k};
    }
    assert done == cells;
  }

  // ----- the reports agree -----

  /** Amounts keyed by some of the rows sum to the same over all rows. */
  lemma ZeroPadded(all: set<Id>, m: map<Id, int>, padded: map<Id, int>)
    requires padded.Keys == all && m.Keys <= all
    requires forall k :: k in all ==> padded[k] == At(m, k)
    ensures MapSum(padded) == MapSum(m)
  {
    var zeros: map<Id, int> := map k | k in all && k !in m :: 0;
    MapSumSplit(padded, m, zeros);
    MapSumZero(zeros);
  }

  /** Total profit is revenue less fuel, pay and costs; revenue is what the trips
      bill; fuel and costs are those of all entries. */
  lemma PnlTotalsExact(ts: Table, fuel: map<Id, int>, costs: map<Id, int>, cells: map<Id, PnlRow>, t: PnlTotals)
    requires IsPnlTable(ts, fuel, costs, cells) && ColumnSums(cells, t)
    ensures t.profit == t.revenue - t.fuel - t.driverPay - t.helperPay - t.costs
    ensures t.revenue == Grand(ts, Bill, ByTruck)
    ensures t.driverPay == Grand(ts, DriverPay, ByTruck) && t.helperPay == Grand(ts, HelperPay, ByTruck)
    ensures t.fuel == MapSum(fuel) && t.costs == MapSum(costs)
  {
    TotalsRead(cells, t);
    TripColumn(ts, fuel, costs, cells, Bill, Revenue);
    TripColumn(ts, fuel, costs, cells, DriverPay, Drivers);
    TripColumn(ts, fuel, costs, cells, HelperPay, Helpers);
    EntryColumns(ts, fuel, costs, cells);
    ProfitColumn(cells, t);
  }

  lemma TripColumn(ts: Table, fuel: map<Id, int>, costs: map<Id, int>, cells: map<Id, PnlRow>, c: Column, pc: PnlColumn)
    requires IsPnlTable(ts, fuel, costs, cells)
    requires (c == Bill && pc == Revenue) || (c == DriverPay && pc == Drivers) || (c == HelperPay && pc == Helpers)
    ensures MapSum(ColumnOf(cells, pc)) == Grand(ts, c, ByTruck)
  {
    forall k | k in cells
      ensures ColumnOf(cells, pc)[k] == Figure(ts, c, ByTruck, k)
    {
      assert IsPnlRow(ts, fuel, costs, k, cells[k]);
    }
    assert Present(ts, ByTruck) <= cells.Keys;
    FiguresConserve(ts, c, ByTruck, ColumnOf(cells, pc));
  }

  lemma EntryColumns(ts: Table, fuel: map<Id, int>, costs: map<Id, int>, cells: map<Id, PnlRow>)
    requires IsPnlTable(ts, fuel, costs, cells)
    ensures MapSum(ColumnOf(cells, FuelCost)) == MapSum(fuel)
    ensures MapSum(ColumnOf(cells, Costs)) == MapSum(costs)
  {
    EntryCells(ts, fuel, costs, cells);
    EntryColumn(cells, fuel, FuelCost);
    EntryColumn(cells, costs, Costs);
  }

  lemma EntryCells(ts: Table, fuel: map<Id, int>, costs: map<Id, int>, cells: map<Id, PnlRow>)
    requires IsPnlTable(ts, fuel, costs, cells)
    ensures fuel.Keys <= cells.Keys && costs.Keys <= cells.Keys
    ensures forall k :: k in cells ==>
              InRow(cells[k], FuelCost) == At(fuel, k) && InRow(cells[k], Costs) == At(costs, k)
  {
    forall k | k in cells
      ensures cells[k].fuel == At(fuel, k) && cells[k].costs == At(costs, k)
    {
      assert IsPnlRow(ts, fuel, costs, k, cells[k]);
    }
  }

  /** A column that shows one entry per truck, or 0, adds up to the entries. */
  lemma EntryColumn(cells: map<Id, PnlRow>, entries: map<Id, int>, c: PnlColumn)
    requires entries.Keys <= cells.Keys && forall k :: k in cells ==> InRow(cells[k], c) == At(entries, k)
    ensures MapSum(ColumnOf(cells, c)) == MapSum(entries)
  {
    ZeroPadded(cells.Keys, entries, ColumnOf(cells, c));
  }

  lemma TotalsRead(cells: map<Id, PnlRow>, t: PnlTotals)
    requires ColumnSums(cells, t)
    ensures t.revenue == MapSum(ColumnOf(cells, Revenue)) && t.fuel == MapSum(ColumnOf(cells, FuelCost))
    ensures t.driverPay == MapSum(ColumnOf(cells, Drivers)) && t.helperPay == MapSum(ColumnOf(cells, Helpers))
    ensures t.costs == MapSum(ColumnOf(cells, Costs)) && t.profit == MapSum(ColumnOf(cells, Profit))
  {
    assert InTotals(t, Revenue) == t.revenue && InTotals(t, FuelCost) == t.fuel && InTotals(t, Drivers) == t.driverPay;
    assert InTotals(t, Helpers) == t.helperPay && InTotals(t, Costs) == t.costs && InTotals(t, Profit) == t.profit;
  }

  lemma ProfitColumn(cells: map<Id, PnlRow>, t: PnlTotals)
    requires ColumnSums(cells, t)
    requires forall k :: k in cells ==>
               cells[k].profit ==
                   cells[k].revenue - cells[k].fuel - cells[k].driverPay - cells[k].helperPay - cells[k].costs
    ensures t.profit == t.revenue - t.fuel - t.driverPay - t.helperPay - t.costs
  {
    var a := map k | k in cells :: cells[k].profit + cells[k].costs;
    var b := map k | k in cells :: cells[k].profit + cells[k].costs + cells[k].helperPay;
    var c := map k | k in cells :: cells[k].profit + cells[k].costs + cells[k].helperPay + cells[k].driverPay;
    MapSumAdd(ColumnOf(cells, Profit), ColumnOf(cells, Costs), a);
    MapSumAdd(a, ColumnOf(cells, Helpers), b);
    MapSumAdd(b, ColumnOf(cells, Drivers), c);
    MapSumAdd(c, ColumnOf(cells, FuelCost), ColumnOf(cells, Revenue));
    TotalsRead(cells, t);
  }

  /** Helper pay of the trips that have no helper. */
  ghost function Unhelped(ts: Table): int {
    MapSum(map k | k in ts && ts[k].helper.None? :: Amount(ts[k], HelperPay))
  }

  /** Across reports on the same trips: P&L revenue is the sum of client billables,
      P&L driver pay is the worker-pay driver total, and P&L helper pay is the
      worker-pay helper total plus the helper pay of trips without a helper. */
  lemma ReportsAgree(ts: Table, fuel: map<Id, int>, costs: map<Id, int>, pnl: map<Id, PnlRow>, t: PnlTotals,
                     clients: map<Id, ClientRow>, workers: map<Id, PayRow>)
    requires IsPnlTable(ts, fuel, costs, pnl) && ColumnSums(pnl, t)
    requires IsClientTable(ts, clients) && IsPayTable(ts, workers)
    ensures t.revenue == MapSum(map c | c in clients :: clients[c].billAmount)
    ensures t.driverPay == MapSum(map w | w in workers :: workers[w].driverPay)
    ensures t.helperPay == MapSum(map w | w in workers :: workers[w].helperPay) + Unhelped(ts)
  {
    PnlTotalsExact(ts, fuel, costs, pnl, t);
    ClientsConserve(ts, clients);
    PayConserves(ts, workers);
    GrandsAgree(ts);
  }

  lemma GrandsAgree(ts: Table)
    ensures Grand(ts, Bill, ByTruck) == Grand(ts, Bill, ByClient)
    ensures Grand(ts, DriverPay, ByTruck) == Grand(ts, DriverPay, ByDriver)
    ensures Grand(ts, HelperPay, ByTruck) == Grand(ts, HelperPay, ByHelper) + Unhelped(ts)
  {
    assert Keyed(ts, Bill, ByTruck) == Keyed(ts, Bill, ByClient);
    assert Keyed(ts, DriverPay, ByTruck) == Keyed(ts, DriverPay, ByDriver);
    MapSumSplit(Keyed(ts, HelperPay, ByTruck), Keyed(ts, HelperPay, ByHelper),
                map k | k in ts && ts[k].helper.None? :: Amount(ts[k], HelperPay));
  }
}
