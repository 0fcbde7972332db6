/** Pay statements: the lines of a run grouped per worker, their agreement with the
    run's frozen totals, and with the independent worker-pay report. */
module Statements {
  import opened Common
  import opened Sums
  import opened Ordering
  import opened Documents
  import E = Erp
  import R = Reporting

  datatype StatementRow = StatementRow(workerId: Id, workerName: string, driverPay: int, helperPay: int,
                                       totalPay: int, tripCount: nat)

  predicate PayLines(lines: seq<Line>) { forall i :: 0 <= i < |lines| ==> lines[i].PayLine? }

  /** The amounts of one worker's lines in one role, by line index. */
  function RoleCells(lines: seq<Line>, role: Role, w: Id): map<int, int> {
    map i | 0 <= i < |lines| && lines[i].PayLine? && lines[i].workerId == w && lines[i].role == role :: lines[i].amount
  }

  ghost function RoleSum(lines: seq<Line>, role: Role, w: Id): int { MapSum(RoleCells(lines, role, w)) }

  function WorkerTrips(lines: seq<Line>, w: Id): set<Id> {
    set l | l in lines && l.PayLine? && l.workerId == w :: l.tripId
  }

  lemma RoleSumSnoc(lines: seq<Line>, l: Line, role: Role, w: Id)
    ensures RoleSum(lines + [l], role, w) ==
            RoleSum(lines, role, w) + if l.PayLine? && l.workerId == w && l.role == role then l.amount else 0
  {
    var before, after := RoleCells(lines, role, w), RoleCells(lines + [l], role, w);
    if l.PayLine? && l.workerId == w && l.role == role {
      MapSumInsert(before, |lines|, l.amount);
      assert after == before[|lines| := l.amount];
    } else {
      assert after == before;
    }
  }

  lemma WorkersSnoc(lines: seq<Line>, l: Line)
    requires l.PayLine?
    ensures WorkerIds(lines + [l]) == WorkerIds(lines) + {l.workerId}
  {
    assert forall x :: x in lines + [l] <==> x in lines || x == l;
  }

  lemma WorkerTripsSnoc(lines: seq<Line>, l: Line, w: Id)
    requires l.PayLine?
    ensures WorkerTrips(lines + [l], w) == WorkerTrips(lines, w) + if l.workerId == w then {l.tripId} else {}
  {
    assert forall x :: x in lines + [l] <==> x in lines || x == l;
  }

  ghost predicate IsStatementRow(lines: seq<Line>, w: Id, r: StatementRow) {
    && r.workerId == w
    && (exists l :: l in lines && l.PayLine? && l.workerId == w && l.workerName == r.workerName)
    && r.driverPay == RoleSum(lines, Driver, w) && r.helperPay == RoleSum(lines, Helper, w)
    && r.totalPay == r.driverPay + r.helperPay
    && r.tripCount == |WorkerTrips(lines, w)|
  }

  /** One row per worker on the lines. */
  ghost predicate IsStatement(lines: seq<Line>, cells: map<Id, StatementRow>) {
    cells.Keys == WorkerIds(lines) && forall w :: w in cells ==> IsStatementRow(lines, w, cells[w])
  }

  function StatementOrder(nameLe: (string, string) -> bool): (StatementRow, StatementRow) -> bool {
    (a: StatementRow, b: StatementRow) => R.Precedes(a.totalPay, a.workerName, b.totalPay, b.workerName, nameLe)
  }

  lemma StatementOrderTotal(nameLe: (string, string) -> bool)
    requires TotalPreorder(nameLe)
    ensures TotalPreorder(StatementOrder(nameLe))
  {
    var le := StatementOrder(nameLe);
    forall x, y ensures le(x, y) || le(y, x) {
      assert nameLe(x.workerName, y.workerName) || nameLe(y.workerName, x.workerName);
    }
    forall x, y, z | le(x, y) && le(y, z) ensures le(x, z) {
      assert nameLe(x.workerName, y.workerName) && nameLe(y.workerName, z.workerName) ==>
          nameLe(x.workerName, z.workerName);
    }
  }

  datatype Acc = Acc(name: string, driver: int, helper: int, trips: set<Id>)

  function RowOf(w: Id, a: Acc): StatementRow {
    StatementRow(w, a.name, a.driver, a.helper, a.driver + a.helper, |a.trips|)
  }

  ghost predicate AccOk(lines: seq<Line>, w: Id, a: Acc) {
    a.trips == WorkerTrips(lines, w) && IsStatementRow(lines, w, RowOf(w, a))
  }

  /** The accumulators after a prefix of the lines. */
  ghost predicate Running(lines: seq<Line>, acc: map<Id, Acc>) {
    acc.Keys == WorkerIds(lines) && forall w {:trigger AccOk(lines, w, acc[w])} :: w in acc ==> AccOk(lines, w, acc[w])
  }

  function AccFor(acc: map<Id, Acc>, l: Line): Acc
    requires l.PayLine?
  {
    if l.workerId in acc then acc[l.workerId] else Acc(l.workerName, 0, 0, {})
  }

  function Turn(e: Acc, l: Line): Acc
    requires l.PayLine?
  {
    var paid := if l.role == Driver then e.(driver := e.driver + l.amount) else e.(helper := e.helper + l.amount);
    paid.(trips := e.trips + {l.tripId})
  }

  lemma Absent(lines: seq<Line>, w: Id)
    requires w !in WorkerIds(lines)
    ensures RoleSum(lines, Driver, w) == RoleSum(lines, Helper, w) == 0 && WorkerTrips(lines, w) == {}
  {
    assert forall i :: 0 <= i < |lines| ==> lines[i] in lines;
    assert RoleCells(lines, Driver, w) == map[] && RoleCells(lines, Helper, w) == map[];
  }

  lemma RowUntouched(lines: seq<Line>, l: Line, w: Id, a: Acc)
    requires l.PayLine? && l.workerId != w && AccOk(lines, w, a)
    ensures AccOk(lines + [l], w, a)
  {
    RoleSumSnoc(lines, l, Driver, w);
    RoleSumSnoc(lines, l, Helper, w);
    WorkerTripsSnoc(lines, l, w);
    var x :| x in lines && x.PayLine? && x.workerId == w && x.workerName == a.name;
    assert x in lines + [l];
  }

  lemma RowTurned(lines: seq<Line>, l: Line, e: Acc)
    requires l.PayLine?
    requires e.driver == RoleSum(lines, Driver, l.workerId) && e.helper == RoleSum(lines, Helper, l.workerId)
    requires e.trips == WorkerTrips(lines, l.workerId)
    requires e.name == l.workerName ||
             exists x :: x in lines && x.PayLine? && x.workerId == l.workerId && x.workerName == e.name
    ensures AccOk(lines + [l], l.workerId, Turn(e, l))
  {
    RoleSumSnoc(lines, l, Driver, l.workerId);
    RoleSumSnoc(lines, l, Helper, l.workerId);
    WorkerTripsSnoc(lines, l, l.workerId);
    assert l in lines + [l];
    if x :| x in lines && x.PayLine? && x.workerId == l.workerId && x.workerName == e.name {
      assert x in lines + [l];
    }
  }

  lemma WorkerTurned(lines: seq<Line>, acc: map<Id, Acc>, l: Line)
    requires Running(lines, acc) && l.PayLine?
    ensures AccOk(lines + [l], l.workerId, Turn(AccFor(acc, l), l))
  {
    if l.workerId in acc {
      assert AccOk(lines, l.workerId, acc[l.workerId]);
    } else {
      Absent(lines, l.workerId);
    }
    RowTurned(lines, l, AccFor(acc, l));
  }

  lemma TurnKeeps(lines: seq<Line>, acc: map<Id, Acc>, l: Line)
    requires Running(lines, acc) && l.PayLine?
    ensures Running(lines + [l], acc[l.workerId := Turn(AccFor(acc, l), l)])
  {
    WorkerTurned(lines, acc, l);
    forall w | w in acc && w != l.workerId
      ensures AccOk(lines + [l], w, acc[w])
    {
      assert AccOk(lines, w, acc[w]);
      RowUntouched(lines, l, w, acc[w]);
    }
    WorkersSnoc(lines, l);
  }

  /** One turn of the loop. */
  method AddLine(before: map<Id, Acc>, l: Line) returns (byWorker: map<Id, Acc>)
    requires l.PayLine?
    ensures byWorker == before[l.workerId := Turn(AccFor(before, l), l)]
  {
    var e := if l.workerId in before then before[l.workerId] else Acc(l.workerName, 0, 0, {});
    if l.role == Driver {
      e := e.(driver := e.driver + l.amount);
    } else {
      e := e.(helper := e.helper + l.amount);
    }
    byWorker := before[l.workerId := e.(trips := e.trips + {l.tripId})];
  }

  /** Groups pay lines into one statement row per worker. */
  method AggregateByWorker(lines: seq<Line>, nameLe: (string, string) -> bool)
    returns (rows: seq<StatementRow>, ghost cells: map<Id, StatementRow>)
    requires PayLines(lines) && TotalPreorder(nameLe)
    ensures IsStatement(lines, cells) && Lists(rows, cells) && SortedBy(rows, StatementOrder(nameLe))
    ensures forall i, j :: 0 <= i < j < |rows| ==>
              rows[i].totalPay > rows[j].totalPay ||
              (rows[i].totalPay == rows[j].totalPay && nameLe(rows[i].workerName, rows[j].workerName))
  {
    var byWorker: map<Id, Acc> := map[];
    for i := 0 to |lines|
      invariant Running(lines[..i], byWorker)
    {
      TurnKeeps(lines[..i], byWorker, lines[i]);
      assert lines[..i + 1] == lines[..i] + [lines[i]];
      byWorker := AddLine(byWorker, lines[i]);
    }
    assert lines[..|lines|] == lines;
    assert forall w :: w in byWorker ==> AccOk(lines, w, byWorker[w]);
    var table := map w | w in byWorker :: RowOf(w, byWorker[w]);
    cells := table;
    rows := Sorted(lines, table, nameLe);
  }

  method Sorted(ghost lines: seq<Line>, table: map<Id, StatementRow>,
                nameLe: (string, string) -> bool)
    returns (rows: seq<StatementRow>)
    requires IsStatement(lines, table) && TotalPreorder(nameLe)
    ensures Lists(rows, table) && SortedBy(rows, StatementOrder(nameLe))
  {
    StatementOrderTotal(nameLe);
    assert forall w :: w in table ==> table[w].workerId == w;
    rows := Listing(table, StatementOrder(nameLe));
  }

  // ----- a run against its statement -----

  function LineAmounts(lines: seq<Line>): map<int, int> { map i | 0 <= i < |lines| :: lines[i].amount }

  function LineWorkers(lines: seq<Line>): map<int, Id>
    requires PayLines(lines)
  {
    map i | 0 <= i < |lines| :: lines[i].workerId
  }

  lemma {:induction false} LineAmountsTotal(lines: seq<Line>)
    ensures MapSum(LineAmounts(lines)) == LineTotal(lines)
  {
    if lines == [] {
    } else {
      var n := |lines| - 1;
      LineAmountsTotal(lines[..n]);
      MapSumInsert(LineAmounts(lines[..n]), n, lines[n].amount);
      assert LineAmounts(lines) == LineAmounts(lines[..n])[n := lines[n].amount];
    }
  }

  lemma RolesAddUp(lines: seq<Line>, w: Id)
    requires PayLines(lines)
    ensures RoleSum(lines, Driver, w) + RoleSum(lines, Helper, w) ==
            MapSum(Filed(LineAmounts(lines), LineWorkers(lines), w))
  {
    MapSumSplit(Filed(LineAmounts(lines), LineWorkers(lines), w),
                RoleCells(lines, Driver, w), RoleCells(lines, Helper, w));
  }

  /** The statement of a run accounts for the run's total, worker by worker. */
  lemma StatementConserves(lines: seq<Line>, cells: map<Id, StatementRow>)
    requires PayLines(lines) && IsStatement(lines, cells)
    ensures MapSum(map w | w in cells :: cells[w].totalPay) == LineTotal(lines)
    ensures |cells| == |WorkerIds(lines)|
  {
    var totals := map w | w in cells :: cells[w].totalPay;
    forall w | w in totals
      ensures totals[w] == MapSum(Filed(LineAmounts(lines), LineWorkers(lines), w))
    {
      assert IsStatementRow(lines, w, cells[w]);
      RolesAddUp(lines, w);
    }
    forall i | i in LineAmounts(lines)
      ensures LineWorkers(lines)[i] in totals
    {
      assert lines[i] in lines;
    }
    FilingConserves(LineAmounts(lines), LineWorkers(lines), totals);
    LineAmountsTotal(lines);
    assert |cells| == |cells.Keys|;
  }

  /** In every reachable state the statement of every run adds up to the run's
      stored total and has as many rows as its stored worker count, whatever
      became of the trips. */
  lemma RunMatchesStatement(trace: seq<E.State>, n: nat, id: Id, cells: map<Id, StatementRow>)
    requires E.IsRun(trace) && n < |trace| && id in trace[n].payroll.docs
    requires IsStatement(trace[n].payroll.docs[id].lines, cells)
    ensures var run := trace[n].payroll.docs[id];
            && run.PayRun?
            && run.total == MapSum(map w | w in cells :: cells[w].totalPay)
            && run.workerCount == |cells|
  {
    E.RunKeeps(trace, n);
    assert DocOk(Payroll, trace[n].payroll.docs[id]);
    StatementConserves(trace[n].payroll.docs[id].lines, cells);
  }

  // ----- the payroll preview against the worker-pay report -----

  /** The report rows of a trip read. */
  function TableOf(trips: map<Id, Trip>, ids: seq<Id>): R.Table
    requires forall id :: id in ids ==> id in trips
  {
    map id | id in ids :: trips[id]
  }

  lemma TableSnoc(trips: map<Id, Trip>, ids: seq<Id>)
    requires ids != [] && forall id :: id in ids ==> id in trips
    requires forall i, j :: 0 <= i < j < |ids| ==> ids[i] != ids[j]
    ensures ids[|ids| - 1] !in TableOf(trips, ids[..|ids| - 1])
    ensures TableOf(trips, ids) == TableOf(trips, ids[..|ids| - 1])[ids[|ids| - 1] := trips[ids[|ids| - 1]]]
  {
    assert ids == ids[..|ids| - 1] + [ids[|ids| - 1]];
    assert forall id :: id in ids <==> id in ids[..|ids| - 1] || id == ids[|ids| - 1];
  }

  /** The lines of one trip, in one role. */
  lemma TripLines(front: seq<Line>, id: Id, t: Trip, w: Id)
    ensures var lines := front + LinesFor(Payroll, id, t);
            && RoleSum(lines, Driver, w) == RoleSum(front, Driver, w) + (if t.driver.id == w then t.driverPay else 0)
            && RoleSum(lines, Helper, w) == RoleSum(front, Helper, w) +
                                             (if R.Key(t, R.ByHelper) == Some(w) then t.helperPay else 0)
            && (w in WorkerIds(lines) <==> w in WorkerIds(front) || t.driver.id == w || R.Key(t, R.ByHelper) == Some(w))
  {
    var d := LinesFor(Payroll, id, t)[0];
    RoleSumSnoc(front, d, Driver, w);
    RoleSumSnoc(front, d, Helper, w);
    WorkersSnoc(front, d);
    if t.helper.Some? {
      var h := LinesFor(Payroll, id, t)[1];
      RoleSumSnoc(front + [d], h, Driver, w);
      RoleSumSnoc(front + [d], h, Helper, w);
      WorkersSnoc(front + [d], h);
      assert front + LinesFor(Payroll, id, t) == front + [d] + [h];
    } else {
      assert front + LinesFor(Payroll, id, t) == front + [d];
    }
  }

  /** Worker `w` has the same figures on the lines as on the trips. */
  ghost predicate SameFigures(lines: seq<Line>, ts: R.Table, w: Id) {
    && RoleSum(lines, Driver, w) == R.Figure(ts, R.DriverPay, R.ByDriver, w)
    && RoleSum(lines, Helper, w) == R.Figure(ts, R.HelperPay, R.ByHelper, w)
    && (w in WorkerIds(lines) <==> w in R.Workers(ts))
  }

  lemma SameFiguresGrow(front: seq<Line>, ts: R.Table, id: Id, t: Trip, w: Id)
    requires SameFigures(front, ts, w) && id !in ts
    ensures SameFigures(front + LinesFor(Payroll, id, t), ts[id := t], w)
  {
    R.FigureGrows(ts, id, t, R.DriverPay, R.ByDriver, w);
    R.FigureGrows(ts, id, t, R.HelperPay, R.ByHelper, w);
    R.WorkersGrow(ts, id, t);
    TripLines(front, id, t, w);
  }

  lemma NoFigures(w: Id)
    ensures SameFigures([], map[], w)
  {
    Absent([], w);
    R.FigureAbsent(map[], R.DriverPay, R.ByDriver, w);
    R.FigureAbsent(map[], R.HelperPay, R.ByHelper, w);
  }

  /** Line by line and trip by trip, every worker has the same figures. */
  lemma {:induction false} FiguresAgree(trips: map<Id, Trip>, ids: seq<Id>, w: Id)
    requires forall id :: id in ids ==> id in trips
    requires forall i, j :: 0 <= i < j < |ids| ==> ids[i] != ids[j]
    ensures SameFigures(LinesOf(Payroll, trips, ids), TableOf(trips, ids), w)
  {
    if ids == [] {
      NoFigures(w);
      assert TableOf(trips, ids) == map[];
    } else {
      var n := |ids| - 1;
      FiguresAgree(trips, ids[..n], w);
      TableSnoc(trips, ids);
      SameFiguresGrow(LinesOf(Payroll, trips, ids[..n]), TableOf(trips, ids[..n]), ids[n], trips[ids[n]], w);
    }
  }

  lemma {:induction false} LineNames(trips: map<Id, Trip>, ids: seq<Id>, l: Line)
    requires forall id :: id in ids ==> id in trips
    requires l in LinesOf(Payroll, trips, ids)
    ensures l.PayLine? && R.NamedIn(TableOf(trips, ids), Worker(l.workerId, l.workerName))
  {
    var n := |ids| - 1;
    if l in LinesFor(Payroll, ids[n], trips[ids[n]]) {
      assert TableOf(trips, ids)[ids[n]] == trips[ids[n]];
    } else {
      LineNames(trips, ids[..n], l);
      var k :| k in TableOf(trips, ids[..n]) &&
               (trips[k].driver == Worker(l.workerId, l.workerName) ||
                trips[k].helper == Some(Worker(l.workerId, l.workerName)));
      assert TableOf(trips, ids)[k] == trips[k];
    }
  }

  function AsPay(r: StatementRow): R.PayRow { R.PayRow(r.workerId, r.workerName, r.driverPay, r.helperPay, r.totalPay) }

  lemma CellsAgree(trips: map<Id, Trip>, ids: seq<Id>, statement: map<Id, StatementRow>, report: map<Id, R.PayRow>)
    requires forall id :: id in ids ==> id in trips
    requires forall i, j :: 0 <= i < j < |ids| ==> ids[i] != ids[j]
    requires R.OneName(TableOf(trips, ids))
    requires IsStatement(LinesOf(Payroll, trips, ids), statement) && R.IsPayTable(TableOf(trips, ids), report)
    ensures statement.Keys == report.Keys
    ensures forall w :: w in statement ==> AsPay(statement[w]) == report[w]
  {
    forall w
      ensures w in statement <==> w in report
    {
      FiguresAgree(trips, ids, w);
    }
    forall w | w in statement
      ensures AsPay(statement[w]) == report[w]
    {
      FiguresAgree(trips, ids, w);
      RowsAgree(trips, ids, w, statement[w], report[w]);
    }
  }

  lemma RowsAgree(trips: map<Id, Trip>, ids: seq<Id>, w: Id, s: StatementRow, r: R.PayRow)
    requires forall id :: id in ids ==> id in trips
    requires R.OneName(TableOf(trips, ids))
    requires SameFigures(LinesOf(Payroll, trips, ids), TableOf(trips, ids), w)
    requires IsStatementRow(LinesOf(Payroll, trips, ids), w, s)
    requires r.workerId == w && R.NamedIn(TableOf(trips, ids), Worker(w, r.workerName))
    requires R.Earned(TableOf(trips, ids), w, r.driverPay, r.helperPay) && r.totalPay == r.driverPay + r.helperPay
    ensures AsPay(s) == r
  {
    var l :| l in LinesOf(Payroll, trips, ids) && l.PayLine? && l.workerId == w && l.workerName == s.workerName;
    LineNames(trips, ids, l);
  }

  /** The rows of the worker-pay report: the trips dated in its range. */
  function TripsBetween(trips: map<Id, Trip>, from: Day, to: Day): R.Table {
    map id | id in trips && from <= trips[id].date <= to :: trips[id]
  }

  ghost predicate NoneCovered(trips: map<Id, Trip>, docs: map<Id, Doc>, from: Day, to: Day) {
    forall id :: id in TripsBetween(trips, from, to) ==> id !in Cover(docs)
  }

  /** The preview reads all the trips the report reads exactly when none is covered. */
  lemma ReadsAgreeIff(trips: map<Id, Trip>, docs: map<Id, Doc>, req: Request, ids: seq<Id>)
    requires req.RunFor? && IsOrderedRead(trips, Billable(trips, docs, req), ids)
    ensures TableOf(trips, ids) == TripsBetween(trips, req.from, req.to) <==> NoneCovered(trips, docs, req.from, req.to)
  {
    if TableOf(trips, ids) == TripsBetween(trips, req.from, req.to) {
      forall id | id in TripsBetween(trips, req.from, req.to)
        ensures id !in Cover(docs)
      {
        assert id in TableOf(trips, ids);
      }
    }
  }

  /** Two independent loops over two reads agree: for a range in which no trip is covered
      by a non-void run, the payroll preview and the worker-pay report show the same
      rows, in the same places up to workers tied on both total and name. */
  lemma PreviewMatchesReport(trips: map<Id, Trip>, docs: map<Id, Doc>, req: Request, ids: seq<Id>,
                             nameLe: (string, string) -> bool,
                             srows: seq<StatementRow>, statement: map<Id, StatementRow>,
                             rrows: seq<R.PayRow>, report: map<Id, R.PayRow>)
    requires req.RunFor? && IsOrderedRead(trips, Billable(trips, docs, req), ids)
    requires NoneCovered(trips, docs, req.from, req.to)
    requires R.OneName(TripsBetween(trips, req.from, req.to)) && TotalPreorder(nameLe)
    requires IsStatement(LinesOf(Payroll, trips, ids), statement)
    requires Lists(srows, statement) && SortedBy(srows, StatementOrder(nameLe))
    requires R.IsPayTable(TripsBetween(trips, req.from, req.to), report)
    requires Lists(rrows, report) && SortedBy(rrows, R.PayOrder(nameLe))
    ensures var paid := seq(|srows|, i requires 0 <= i < |srows| => AsPay(srows[i]));
            && multiset(paid) == multiset(rrows) && |srows| == |rrows|
            && forall i :: 0 <= i < |rrows| ==>
                 R.PayOrder(nameLe)(paid[i], rrows[i]) && R.PayOrder(nameLe)(rrows[i], paid[i])
  {
    ReadsAgreeIff(trips, docs, req, ids);
    CellsAgree(trips, ids, statement, report);
    RowsInPlace(srows, statement, rrows, report, nameLe);
  }

  lemma RowsInPlace(srows: seq<StatementRow>, statement: map<Id, StatementRow>, rrows: seq<R.PayRow>,
                    report: map<Id, R.PayRow>, nameLe: (string, string) -> bool)
    requires statement.Keys == report.Keys && TotalPreorder(nameLe)
    requires forall w :: w in statement ==> AsPay(statement[w]) == report[w] && statement[w].workerId == w
    requires Lists(srows, statement) && SortedBy(srows, StatementOrder(nameLe))
    requires Lists(rrows, report) && SortedBy(rrows, R.PayOrder(nameLe))
    ensures var paid := seq(|srows|, i requires 0 <= i < |srows| => AsPay(srows[i]));
            && multiset(paid) == multiset(rrows) && |srows| == |rrows|
            && forall i :: 0 <= i < |rrows| ==>
                 R.PayOrder(nameLe)(paid[i], rrows[i]) && R.PayOrder(nameLe)(rrows[i], paid[i])
  {
    var paid := seq(|srows|, i requires 0 <= i < |srows| => AsPay(srows[i]));
    ListsAsPay(srows, paid, statement, report);
    ListingsAgree(paid, rrows, report);
    R.PayOrderTotal(nameLe);
    assert |multiset(paid)| == |paid| && |multiset(rrows)| == |rrows|;
    forall i: nat | i < |rrows|
      ensures R.PayOrder(nameLe)(paid[i], rrows[i]) && R.PayOrder(nameLe)(rrows[i], paid[i])
    {
      SortedAgree(paid, rrows, R.PayOrder(nameLe), i);
    }
  }

  lemma ListsAsPay(srows: seq<StatementRow>, paid: seq<R.PayRow>, statement: map<Id, StatementRow>,
                   report: map<Id, R.PayRow>)
    requires Lists(srows, statement) && statement.Keys == report.Keys
    requires forall w :: w in statement ==> AsPay(statement[w]) == report[w] && statement[w].workerId == w
    requires |paid| == |srows| && forall i :: 0 <= i < |paid| ==> paid[i] == AsPay(srows[i])
    ensures Lists(paid, report)
  {
    forall i | 0 <= i < |srows|
      ensures srows[i].workerId in statement && srows[i] == statement[srows[i].workerId]
    {
      assert srows[i] in statement.Values;
    }
    forall r | r in report.Values
      ensures r in paid
    {
      var w :| w in report && report[w] == r;
      assert statement[w] in srows;
      var i :| 0 <= i < |srows| && srows[i] == statement[w];
      assert paid[i] == r;
    }
  }
}
