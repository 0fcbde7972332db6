/** Reports over a day range: the range itself, operational status per day, truck
    utilization per day, and trip counts. */
module RangeReports {
  import opened Common
  import opened Sums
  import opened Ordering
  import R = Reporting

  const MAX_RANGE_DAYS := 366
  const DEFAULT_WINDOW_DAYS := 30

  datatype RangeError = Inverted | TooLarge

  datatype Range = Range(from: Day, to: Day)

  function Span(r: Range): int { r.to - r.from + 1 }

  /** The inclusive window of a query; omitted bounds give the trailing 30 days. */
  function ResolveRange(from: Option<Day>, to: Option<Day>, today: Day): Result<Range, RangeError> {
    var t := if to.Some? then to.value else today;
    var f := if from.Some? then from.value else t - (DEFAULT_WINDOW_DAYS - 1);
    if f > t then Err(Inverted)
    else if t - f + 1 > MAX_RANGE_DAYS then Err(TooLarge)
    else Ok(Range(f, t))
  }

  function DaysOf(r: Range): seq<Day>
    requires r.from <= r.to
  {
    seq(Span(r), i => r.from + i)
  }

  /** Walks the days from `from` to `to`. */
  method EnumerateDays(r: Range) returns (days: seq<Day>)
    requires r.from <= r.to
    ensures days == DaysOf(r)
  {
    days := [];
    var d := r.from;
    while d <= r.to
      invariant r.from <= d <= r.to + 1
      invariant |days| == d - r.from && forall i :: 0 <= i < |days| ==> days[i] == r.from + i
    {
      days := days + [d];
      d := d + 1;
    }
  }

  /** Which range a query gets: it ends at the day asked for, or today, and begins at the
      day asked for, or 29 days before its end; it is refused when that is inverted or
      longer than 366 days. */
  lemma RangeAsAsked(from: Option<Day>, to: Option<Day>, today: Day)
    ensures var t := match to case Some(day) => day case None => today;
            var f := match from case Some(day) => day case None => t - 29;
            ResolveRange(from, to, today) ==
            if t < f then Err(Inverted) else if t > f + 365 then Err(TooLarge) else Ok(Range(f, t))
  {
  }

  /** An accepted range has between 1 and 366 days, 30 by default; its days ascend
      strictly, and a day is one of them exactly when it lies between the bounds the
      query asked for. */
  lemma RangeCoversExactly(from: Option<Day>, to: Option<Day>, today: Day, r: Range)
    requires ResolveRange(from, to, today) == Ok(r)
    ensures 1 <= |DaysOf(r)| <= 366 && (from.None? ==> |DaysOf(r)| == 30)
    ensures forall i, j :: 0 <= i < j < |DaysOf(r)| ==> DaysOf(r)[i] < DaysOf(r)[j]
    ensures forall d :: d in DaysOf(r) <==>
              && (to.Some? ==> d <= to.value) && (to.None? ==> d <= today)
              && (from.Some? ==> from.value <= d)
              && (from.None? ==> d >= (if to.Some? then to.value else today) - 29)
  {
    forall d | r.from <= d <= r.to
      ensures d in DaysOf(r)
    {
      assert DaysOf(r)[d - r.from] == d;
    }
  }

  /** Exactly which queries are refused. */
  lemma RangeRefused(from: Option<Day>, to: Option<Day>, today: Day)
    ensures var t := if to.Some? then to.value else today;
            ResolveRange(from, to, today).Err? <==> from.Some? && (from.value > t || t - from.value >= 366)
  {
  }

  // ----- shares -----

  /** A ratio in ten-thousandths, rounded to the nearest; 0 without a denominator. */
  function Pct(part: nat, whole: nat): nat {
    if whole > 0 then (20000 * part + whole) / (2 * whole) else 0
  }

  /** `q` ten-thousandths are the share of `part` in `whole`, to the nearest one with
      halves up, or 0 of nothing. */
  predicate IsShare(q: nat, part: nat, whole: nat) {
    if whole == 0 then q == 0
    else whole as int * (2 * q as int - 1) <= 20000 * part < whole * (2 * q + 1)
  }

  lemma PctIsShare(part: nat, whole: nat)
    ensures IsShare(Pct(part, whole), part, whole)
  {
    if whole > 0 {
      PctNearest(part, whole);
      var w: int, q: int := whole, Pct(part, whole);
      assert w * (2 * q - 1) == 2 * w * q - w && w * (2 * q + 1) == 2 * w * q + w;
    }
  }

  lemma SharesOrdered(q: nat, r: nat, part: nat, whole: nat)
    requires whole > 0 && IsShare(q, part, whole) && IsShare(r, part, whole)
    ensures q <= r
  {
    if q > r {
      ScaleUp(whole, 2 * r + 1, 2 * q - 1);
    }
  }

  /** There is one such share. */
  lemma ShareIsUnique(q: nat, r: nat, part: nat, whole: nat)
    requires IsShare(q, part, whole) && IsShare(r, part, whole)
    ensures q == r
  {
    if whole > 0 {
      SharesOrdered(q, r, part, whole);
      SharesOrdered(r, q, part, whole);
    }
  }

  /** The share is the nearest ten-thousandth. */
  lemma PctNearest(part: nat, whole: nat)
    requires whole > 0
    ensures var q := Pct(part, whole); 2 * whole * q <= 20000 * part + whole < 2 * whole * q + 2 * whole
  {
    DivBounds(20000 * part + whole, 2 * whole);
  }

  lemma DivBounds(a: nat, b: nat)
    requires b > 0
    ensures b * (a / b) <= a < b * (a / b) + b
  {
  }

  /** The reported share stays within 0..1 exactly when the part does not exceed the
      whole by a rounding unit or more. */
  lemma PctWithinUnit(part: nat, whole: nat)
    ensures Pct(part, whole) <= 10000 <==> whole == 0 || 20000 * (part as int - whole) < whole
    ensures part <= whole ==> Pct(part, whole) <= 10000
  {
    if whole > 0 {
      PctNearest(part, whole);
      var q := Pct(part, whole);
      if q <= 10000 { ScaleUp(2 * whole, q, 10000); } else { ScaleUp(2 * whole, 10001, q); }
    }
  }

  lemma ScaleUp(w: nat, a: nat, b: nat)
    requires a <= b
    ensures w * a <= w * b
  {
  }

  // ----- operational status -----

  datatype OperStatus = Operating | NoClients | Broken

  /** A recorded daily log; logs without a status are not read. */
  datatype OperRow = OperRow(date: Day, status: OperStatus)

  datatype Bucket = Bucket(operating: nat, noClients: nat, broken: nat)

  function InBucket(b: Bucket, s: OperStatus): nat {
    match s case Operating => b.operating case NoClients => b.noClients case Broken => b.broken
  }

  function AddTo(b: Bucket, s: OperStatus): Bucket {
    match s
    case Operating => b.(operating := b.operating + 1)
    case NoClients => b.(noClients := b.noClients + 1)
    case Broken => b.(broken := b.broken + 1)
  }

  type Logs = map<Id, OperRow>

  /** One mark per row of a status, and the days of the rows. */
  function Marks(rows: Logs, s: OperStatus): map<Id, int> { map k | k in rows && rows[k].status == s :: 1 }

  function Dates(rows: Logs): map<Id, Day> { map k | k in rows :: rows[k].date }

  ghost function DayCount(rows: Logs, day: Day, s: OperStatus): int { MapSum(Filed(Marks(rows, s), Dates(rows), day)) }

  function At(byDay: map<Day, Bucket>, day: Day): Bucket { if day in byDay then byDay[day] else Bucket(0, 0, 0) }

  /** The buckets hold exactly the rows read so far. */
  ghost predicate Bucketed(rows: Logs, byDay: map<Day, Bucket>, totals: Bucket) {
    && (forall day, s :: InBucket(At(byDay, day), s) == DayCount(rows, day, s))
    && (forall s :: InBucket(totals, s) == MapSum(Marks(rows, s)))
  }

  lemma MarksGrow(rows: Logs, k: Id, r: OperRow, s: OperStatus)
    requires k !in rows
    ensures Marks(rows[k := r], s) == if s == r.status then Marks(rows, s)[k := 1] else Marks(rows, s)
    ensures MapSum(Marks(rows[k := r], s)) == MapSum(Marks(rows, s)) + if s == r.status then 1 else 0
  {
    if s == r.status {
      MapSumInsert(Marks(rows, s), k, 1);
    }
  }

  lemma DayCountGrows(rows: Logs, k: Id, r: OperRow, day: Day, s: OperStatus)
    requires k !in rows
    ensures DayCount(rows[k := r], day, s) == DayCount(rows, day, s) + if s == r.status && day == r.date then 1 else 0
  {
    MarksGrow(rows, k, r, s);
    assert Dates(rows[k := r]) == Dates(rows)[k := r.date];
    if s == r.status {
      FiledInsert(Marks(rows, s), Dates(rows), k, 1, r.date, day);
    } else {
      assert Filed(Marks(rows[k := r], s), Dates(rows[k := r]), day) == Filed(Marks(rows, s), Dates(rows), day);
    }
  }

  lemma BucketTurnKeeps(rows: Logs, byDay: map<Day, Bucket>, totals: Bucket, k: Id, r: OperRow)
    requires Bucketed(rows, byDay, totals) && k !in rows
    ensures Bucketed(rows[k := r], byDay[r.date := AddTo(At(byDay, r.date), r.status)], AddTo(totals, r.status))
  {
    forall s
      ensures InBucket(AddTo(totals, r.status), s) == MapSum(Marks(rows[k := r], s))
    {
      assert InBucket(totals, s) == MapSum(Marks(rows, s));
      MarksGrow(rows, k, r, s);
    }
    var after := byDay[r.date := AddTo(At(byDay, r.date), r.status)];
    forall day, s
      ensures InBucket(At(after, day), s) == DayCount(rows[k := r], day, s)
    {
      assert InBucket(At(byDay, day), s) == DayCount(rows, day, s);
      DayCountGrows(rows, k, r, day, s);
    }
  }

  /** A bucket as the report shows it, with the recorded count and the operating share. */
  datatype OperLine = OperLine(bucket: Bucket, recorded: nat, operatingPct: nat)

  datatype OperDay = OperDay(date: Day, line: OperLine)

  lemma BucketsStart()
    ensures Bucketed(map[], map[], Bucket(0, 0, 0))
  {
    forall day, s
      ensures DayCount(map[], day, s) == 0
    {
      assert Filed(Marks(map[], s), Dates(map[]), day) == map[];
    }
    forall s
      ensures MapSum(Marks(map[], s)) == 0
    {
      assert Marks(map[], s) == map[];
    }
  }

  /** The accumulation loop: buckets per day and overall. */
  method FillBuckets(rows: Logs) returns (byDay: map<Day, Bucket>, totals: Bucket)
    ensures Bucketed(rows, byDay, totals)
  {
    byDay, totals := map[], Bucket(0, 0, 0);
    var rest := rows.Keys;
    ghost var done: Logs := map[];
    BucketsStart();
    while rest != {}
      invariant rest <= rows.Keys && Bucketed(done, byDay, totals)
      invariant forall k :: k in done <==> k in rows && k !in rest
      invariant forall k :: k in done ==> done[k] == rows[k]
      decreases rest
    {
      var k :| k in rest;
      var r := rows[k];
      BucketTurnKeeps(done, byDay, totals, k, r);
      byDay := byDay[r.date := AddTo(At(byDay, r.date), r.status)];
      totals := AddTo(totals, r.status);
      done := done[k := r];
      rest := rest - {k};
    }
    assert done == rows;
  }

  /** The rows dated `day`, and those of them with a status. */
  function RowsOf(rows: Logs, day: Day): set<Id> { set k | k in rows && rows[k].date == day }

  function WithStatus(rows: Logs, ks: set<Id>, s: OperStatus): set<Id> {
    set k | k in ks && k in rows && rows[k].status == s
  }

  /** A line of the report over the rows `ks`: each status counted, all of them recorded,
      and the share that operated, to the nearest ten-thousandth, or 0 without rows. */
  ghost predicate ShowsRows(l: OperLine, rows: Logs, ks: set<Id>) {
    && l.bucket.operating == |WithStatus(rows, ks, Operating)|
    && l.bucket.noClients == |WithStatus(rows, ks, NoClients)|
    && l.bucket.broken == |WithStatus(rows, ks, Broken)|
    && l.recorded == |ks|
    && IsShare(l.operatingPct, |WithStatus(rows, ks, Operating)|, |ks|)
  }

  /** One line per requested day over that day's rows, and one over all rows. */
  ghost predicate IsOperational(rows: Logs, days: seq<Day>, perDay: seq<OperDay>, totals: OperLine) {
    && |perDay| == |days|
    && (forall i :: 0 <= i < |days| ==>
          perDay[i].date == days[i] && ShowsRows(perDay[i].line, rows, RowsOf(rows, days[i])))
    && ShowsRows(totals, rows, rows.Keys)
  }

  lemma {:induction false} MarksCount(rows: Logs, ks: set<Id>, m: map<Id, int>)
    requires m.Keys == ks && forall k :: k in m ==> m[k] == 1
    ensures MapSum(m) == |ks|
    decreases |ks|
  {
    if ks == {} {
      assert m == map[];
    } else {
      var k :| k in ks;
      MapSumRemove(m, k);
      MarksCount(rows, ks - {k}, m - {k});
    }
  }

  lemma CountsAreSizes(rows: Logs, day: Day, s: OperStatus)
    ensures DayCount(rows, day, s) == |WithStatus(rows, RowsOf(rows, day), s)|
    ensures MapSum(Marks(rows, s)) == |WithStatus(rows, rows.Keys, s)|
  {
    MarksCount(rows, WithStatus(rows, RowsOf(rows, day), s), Filed(Marks(rows, s), Dates(rows), day));
    MarksCount(rows, WithStatus(rows, rows.Keys, s), Marks(rows, s));
  }

  lemma StatusesCover(rows: Logs, ks: set<Id>)
    requires ks <= rows.Keys
    ensures |WithStatus(rows, ks, Operating)| + |WithStatus(rows, ks, NoClients)| + |WithStatus(rows, ks, Broken)| ==
            |ks|
  {
    var a, b, c := WithStatus(rows, ks, Operating), WithStatus(rows, ks, NoClients), WithStatus(rows, ks, Broken);
    assert ks == a + b + c;
    assert |a + b + c| == |a + b| + |c| && |a + b| == |a| + |b|;
  }

  /** The line of a bucket. */
  method Show(b: Bucket, ghost rows: Logs, ghost ks: set<Id>) returns (l: OperLine)
    requires ks <= rows.Keys && forall s :: InBucket(b, s) == |WithStatus(rows, ks, s)|
    ensures ShowsRows(l, rows, ks)
  {
    assert InBucket(b, Operating) == b.operating && InBucket(b, NoClients) == b.noClients;
    assert InBucket(b, Broken) == b.broken;
    StatusesCover(rows, ks);
    var recorded := b.operating + b.noClients + b.broken;
    PctIsShare(b.operating, recorded);
    l := OperLine(b, recorded, Pct(b.operating, recorded));
  }

  /** Operational status per requested day and overall. */
  method AggregateOperational(rows: Logs, days: seq<Day>) returns (perDay: seq<OperDay>, totals: OperLine)
    ensures IsOperational(rows, days, perDay, totals)
  {
    var byDay, all := FillBuckets(rows);
    perDay := [];
    for i := 0 to |days|
      invariant |perDay| == i
      invariant forall j :: 0 <= j < i ==>
                  perDay[j].date == days[j] && ShowsRows(perDay[j].line, rows, RowsOf(rows, days[j]))
    {
      var b := if days[i] in byDay then byDay[days[i]] else Bucket(0, 0, 0);
      BucketIsDay(rows, byDay, all, days[i]);
      var line := Show(b, rows, RowsOf(rows, days[i]));
      perDay := perDay + [OperDay(days[i], line)];
    }
    BucketIsDay(rows, byDay, all, 0);
    totals := Show(all, rows, rows.Keys);
  }

  lemma BucketIsDay(rows: Logs, byDay: map<Day, Bucket>, totals: Bucket, day: Day)
    requires Bucketed(rows, byDay, totals)
    ensures forall s :: InBucket(At(byDay, day), s) == |WithStatus(rows, RowsOf(rows, day), s)|
    ensures forall s :: InBucket(totals, s) == |WithStatus(rows, rows.Keys, s)|
  {
    forall s
      ensures InBucket(At(byDay, day), s) == |WithStatus(rows, RowsOf(rows, day), s)|
      ensures InBucket(totals, s) == |WithStatus(rows, rows.Keys, s)|
    {
      assert InBucket(At(byDay, day), s) == DayCount(rows, day, s);
      CountsAreSizes(rows, day, s);
    }
  }

  // ----- the days of a range against the totals -----

  function StatusOn(l: OperLine, s: OperStatus): nat { InBucket(l.bucket, s) }

  /** Filing rows by their place in the range is filing them by date. */
  lemma FiledByPlace(rows: Logs, r: Range, s: OperStatus, i: int)
    requires r.from <= r.to && 0 <= i < |DaysOf(r)|
    ensures Filed(Marks(rows, s), map k | k in rows :: rows[k].date - r.from, i) ==
            Filed(Marks(rows, s), Dates(rows), DaysOf(r)[i])
  {
  }

  /** Counts per place, over a range that covers every row, account for all rows. */
  lemma PlacesSum(rows: Logs, r: Range, s: OperStatus, cells: map<int, int>)
    requires r.from <= r.to && forall k :: k in rows ==> r.from <= rows[k].date <= r.to
    requires forall i :: i in cells <==> 0 <= i < |DaysOf(r)|
    requires forall i :: i in cells ==> cells[i] == DayCount(rows, DaysOf(r)[i], s)
    ensures MapSum(cells) == MapSum(Marks(rows, s))
  {
    var places := map k | k in rows :: rows[k].date - r.from;
    forall i | i in cells
      ensures cells[i] == MapSum(Filed(Marks(rows, s), places, i))
    {
      FiledByPlace(rows, r, s, i);
    }
    FilingConserves(Marks(rows, s), places, cells);
  }

  lemma LineCounts(rows: Logs, ks: set<Id>, l: OperLine, s: OperStatus)
    requires ShowsRows(l, rows, ks)
    ensures StatusOn(l, s) == |WithStatus(rows, ks, s)|
  {
  }

  function StatusCells(perDay: seq<OperDay>, s: OperStatus): map<int, int> {
    map i | 0 <= i < |perDay| :: StatusOn(perDay[i].line, s)
  }

  function RecordedCells(perDay: seq<OperDay>): map<int, int> {
    map i | 0 <= i < |perDay| :: perDay[i].line.recorded
  }

  /** When every row is dated within the range, the lines of the range's days add up to the
      totals, status by status and in what is recorded. */
  lemma DaysSumToTotals(rows: Logs, r: Range, perDay: seq<OperDay>, totals: OperLine, s: OperStatus)
    requires r.from <= r.to && IsOperational(rows, DaysOf(r), perDay, totals)
    requires forall k :: k in rows ==> r.from <= rows[k].date <= r.to
    ensures MapSum(StatusCells(perDay, s)) == StatusOn(totals, s)
    ensures MapSum(RecordedCells(perDay)) == totals.recorded
  {
    StatusSums(rows, r, perDay, totals, s);
    StatusSums(rows, r, perDay, totals, Operating);
    StatusSums(rows, r, perDay, totals, NoClients);
    StatusSums(rows, r, perDay, totals, Broken);
    RecordedSums(rows, DaysOf(r), perDay, totals);
    RecordedIsSum(rows, rows.Keys, totals);
  }

  /** Every share of the report is within 0..1. */
  lemma SharesWithinUnit(rows: Logs, days: seq<Day>, perDay: seq<OperDay>, totals: OperLine)
    requires IsOperational(rows, days, perDay, totals)
    ensures totals.operatingPct <= 10000
    ensures forall i :: 0 <= i < |perDay| ==> perDay[i].line.operatingPct <= 10000
  {
    ShareWithinUnit(rows, rows.Keys, totals);
    forall i | 0 <= i < |perDay|
      ensures perDay[i].line.operatingPct <= 10000
    {
      ShareWithinUnit(rows, RowsOf(rows, days[i]), perDay[i].line);
    }
  }

  lemma ShareWithinUnit(rows: Logs, ks: set<Id>, l: OperLine)
    requires ks <= rows.Keys && ShowsRows(l, rows, ks)
    ensures l.operatingPct <= 10000
  {
    StatusesCover(rows, ks);
    if |ks| > 0 && l.operatingPct > 10000 {
      ScaleUp(|ks|, 20001, 2 * l.operatingPct - 1);
    }
  }

  lemma StatusSums(rows: Logs, r: Range, perDay: seq<OperDay>, totals: OperLine, s: OperStatus)
    requires r.from <= r.to && IsOperational(rows, DaysOf(r), perDay, totals)
    requires forall k :: k in rows ==> r.from <= rows[k].date <= r.to
    ensures MapSum(StatusCells(perDay, s)) == StatusOn(totals, s)
  {
    forall i | i in StatusCells(perDay, s)
      ensures StatusCells(perDay, s)[i] == DayCount(rows, DaysOf(r)[i], s)
    {
      LineCounts(rows, RowsOf(rows, DaysOf(r)[i]), perDay[i].line, s);
      CountsAreSizes(rows, DaysOf(r)[i], s);
    }
    PlacesSum(rows, r, s, StatusCells(perDay, s));
    LineCounts(rows, rows.Keys, totals, s);
    CountsAreSizes(rows, 0, s);
  }

  lemma RecordedIsSum(rows: Logs, ks: set<Id>, l: OperLine)
    requires ks <= rows.Keys && ShowsRows(l, rows, ks)
    ensures l.recorded == StatusOn(l, Operating) + StatusOn(l, NoClients) + StatusOn(l, Broken)
  {
    StatusesCover(rows, ks);
  }

  lemma RecordedSums(rows: Logs, days: seq<Day>, perDay: seq<OperDay>, totals: OperLine)
    requires IsOperational(rows, days, perDay, totals)
    ensures MapSum(RecordedCells(perDay)) ==
            MapSum(StatusCells(perDay, Operating)) + MapSum(StatusCells(perDay, NoClients)) +
            MapSum(StatusCells(perDay, Broken))
  {
    var a, b, c := StatusCells(perDay, Operating), StatusCells(perDay, NoClients), StatusCells(perDay, Broken);
    var ab: map<int, int> := map i | 0 <= i < |perDay| :: a[i] + b[i];
    forall i | i in ab
      ensures RecordedCells(perDay)[i] == ab[i] + c[i]
    {
      RecordedIsSum(rows, RowsOf(rows, days[i]), perDay[i].line);
    }
    MapSumAdd(a, b, ab);
    MapSumAdd(ab, c, RecordedCells(perDay));
  }

  // ----- utilization -----

  datatype DayUtilization = DayUtilization(date: Day, activeTrucks: nat, trucksWithTrips: nat, utilization: nat)

  /** Per requested day, how many distinct trucks had a trip, over the active trucks. */
  method AggregateUtilization(ts: R.Table, days: seq<Day>, active: nat) returns (out: seq<DayUtilization>)
    ensures |out| == |days|
    ensures forall i :: 0 <= i < |days| ==>
              && out[i].date == days[i] && out[i].activeTrucks == active
              && out[i].trucksWithTrips == |R.Present(ts, R.ByDate(days[i]))|
              && out[i].utilization == Pct(out[i].trucksWithTrips, active)
  {
    var perDay: map<Day, set<Id>> := map[];
    var rest := ts.Keys;
    ghost var done: R.Table := map[];
    while rest != {}
      invariant R.Without(done, ts, rest)
      invariant forall d :: (if d in perDay then perDay[d] else {}) == R.Present(done, R.ByDate(d))
      decreases rest
    {
      var k :| k in rest;
      var t := ts[k];
      forall d
        ensures R.Present(done[k := t], R.ByDate(d)) ==
                R.Present(done, R.ByDate(d)) + if d == t.date then {t.truckId} else {}
      {
        R.PresentGrows(done, k, t, R.ByDate(d));
      }
      perDay := perDay[t.date := (if t.date in perDay then perDay[t.date] else {}) + {t.truckId}];
      done := done[k := t];
      rest := rest - {k};
    }
    assert done == ts;
    out := [];
    for i := 0 to |days|
      invariant |out| == i
      invariant forall j :: 0 <= j < i ==>
                  out[j] == DayUtilization(days[j], active, |R.Present(ts, R.ByDate(days[j]))|,
                                           Pct(|R.Present(ts, R.ByDate(days[j]))|, active))
    {
      var n := if days[i] in perDay then |perDay[days[i]]| else 0;
      out := out + [DayUtilization(days[i], active, n, Pct(n, active))];
    }
  }

  datatype TruckStatus = Active | Inactive

  /** The trucks the report counts as active. */
  function ActiveTrucks(trucks: map<Id, TruckStatus>): set<Id> {
    set t | t in trucks && trucks[t] == Active
  }

  /** The trucks that had a trip on a day. */
  function Ran(ts: R.Table, day: Day): set<Id> { R.Present(ts, R.ByDate(day)) }

  /** The utilization report: the active trucks are counted now, the trucks with trips
      on each day, whatever their status. */
  method Utilization(ts: R.Table, trucks: map<Id, TruckStatus>, days: seq<Day>) returns (out: seq<DayUtilization>)
    ensures |out| == |days|
    ensures forall i :: 0 <= i < |days| ==>
              out[i] == DayUtilization(days[i], |ActiveTrucks(trucks)|, |Ran(ts, days[i])|,
                                       Pct(|Ran(ts, days[i])|, |ActiveTrucks(trucks)|))
  {
    out := AggregateUtilization(ts, days, |ActiveTrucks(trucks)|);
  }

  /** The documented 0..1 ratio: a day shows at most 1 exactly when no truck is active or
      the trucks that ran exceed the active ones by less than half a rounding unit, and
      always when every truck that ran is active. */
  lemma UtilizationWithinUnit(ts: R.Table, trucks: map<Id, TruckStatus>, day: Day)
    ensures var ran, active := |Ran(ts, day)|, |ActiveTrucks(trucks)|;
            Pct(ran, active) <= 10000 <==> active == 0 || 20000 * (ran as int - active) < active
    ensures Ran(ts, day) <= ActiveTrucks(trucks) ==> Pct(|Ran(ts, day)|, |ActiveTrucks(trucks)|) <= 10000
  {
    PctWithinUnit(|Ran(ts, day)|, |ActiveTrucks(trucks)|);
    if Ran(ts, day) <= ActiveTrucks(trucks) {
      SubsetSmaller(Ran(ts, day), ActiveTrucks(trucks));
    }
  }

  lemma {:induction false} SubsetSmaller(a: set<Id>, b: set<Id>)
    requires a <= b
    ensures |a| <= |b|
    decreases |a|
  {
    if a == {} {
    } else {
      var x :| x in a;
      SubsetSmaller(a - {x}, b - {x});
    }
  }

  /** Trips of inactive trucks count too: with one active truck and one that ran before it
      was taken out of service, the day shows 2. */
  lemma UtilizationExceedsOne(t: Trip)
    ensures var ts: R.Table := map["a" := t.(truckId := "1"), "b" := t.(truckId := "2")];
            var trucks := map["1" := Active, "2" := Inactive];
            Ran(ts, t.date) == {"1", "2"} && Pct(|Ran(ts, t.date)|, |ActiveTrucks(trucks)|) == 20000
  {
    var ts: R.Table := map["a" := t.(truckId := "1"), "b" := t.(truckId := "2")];
    var trucks := map["1" := Active, "2" := Inactive];
    assert R.Key(ts["a"], R.ByDate(t.date)) == Some("1") && R.Key(ts["b"], R.ByDate(t.date)) == Some("2");
    assert R.Present(ts, R.ByDate(t.date)) == {"1", "2"};
    assert ActiveTrucks(trucks) == {"1"};
  }

  // ----- trip counts -----

  datatype DayTripCount = DayTripCount(date: Day, tripCount: int)

  datatype TruckTripCount = TruckTripCount(truckId: Id, truckCode: string, tripCount: int)

  function TripDays(ts: R.Table): map<Id, Day> { map k | k in ts :: ts[k].date }

  function Ones(ts: R.Table): map<Id, int> { map k | k in ts :: 1 }

  ghost predicate IsDayCount(ts: R.Table, d: Day, r: DayTripCount) {
    r.date == d && r.tripCount == MapSum(Filed(Ones(ts), TripDays(ts), d))
  }

  ghost predicate IsTruckCount(ts: R.Table, truck: Id, r: TruckTripCount) {
    && r.truckId == truck && R.CodedIn(ts, truck, r.truckCode)
    && r.tripCount == R.Figure(ts, R.One, R.ByTruck, truck)
  }

  /** One count per day with trips. */
  ghost predicate IsDayTable(ts: R.Table, byDay: map<Day, DayTripCount>) {
    && (forall d :: d in byDay <==> exists k :: k in ts && ts[k].date == d)
    && forall d {:trigger IsDayCount(ts, d, byDay[d])} :: d in byDay ==> IsDayCount(ts, d, byDay[d])
  }

  /** One count per truck with trips. */
  ghost predicate IsTruckTable(ts: R.Table, byTruck: map<Id, TruckTripCount>) {
    && byTruck.Keys == R.Present(ts, R.ByTruck)
    && forall t {:trigger IsTruckCount(ts, t, byTruck[t])} :: t in byTruck ==> IsTruckCount(ts, t, byTruck[t])
  }

  lemma DayFileGrows(ts: R.Table, k: Id, t: Trip, d: Day)
    requires k !in ts
    ensures MapSum(Filed(Ones(ts[k := t]), TripDays(ts[k := t]), d)) ==
            MapSum(Filed(Ones(ts), TripDays(ts), d)) + if d == t.date then 1 else 0
  {
    assert Ones(ts[k := t]) == Ones(ts)[k := 1];
    assert TripDays(ts[k := t]) == TripDays(ts)[k := t.date];
    FiledInsert(Ones(ts), TripDays(ts), k, 1, t.date, d);
  }

  lemma DayFileEmpty(ts: R.Table, d: Day)
    requires forall k :: k in ts ==> ts[k].date != d
    ensures MapSum(Filed(Ones(ts), TripDays(ts), d)) == 0
  {
    assert Filed(Ones(ts), TripDays(ts), d) == map[];
  }

  lemma DayTurnKeeps(ts: R.Table, byDay: map<Day, DayTripCount>, k: Id, t: Trip)
    requires IsDayTable(ts, byDay) && k !in ts
    ensures var before := if t.date in byDay then byDay[t.date].tripCount else 0;
            IsDayTable(ts[k := t], byDay[t.date := DayTripCount(t.date, before + 1)])
  {
    var after := byDay[t.date := DayTripCount(t.date, (if t.date in byDay then byDay[t.date].tripCount else 0) + 1)];
    var ts' := ts[k := t];
    forall d
      ensures d in after <==> exists j :: j in ts' && ts'[j].date == d
    {
      assert ts'[k] == t;
      if d in byDay {
        var j :| j in ts && ts[j].date == d;
        assert ts'[j] == ts[j];
      }
    }
    forall d | d in after
      ensures IsDayCount(ts[k := t], d, after[d])
    {
      DayFileGrows(ts, k, t, d);
      if d in byDay { assert IsDayCount(ts, d, byDay[d]); } else { DayFileEmpty(ts, d); }
    }
  }

  lemma TruckCountGrows(ts: R.Table, k: Id, t: Trip, truck: Id, r: TruckTripCount)
    requires k !in ts && IsTruckCount(ts, truck, r)
    ensures IsTruckCount(ts[k := t], truck, if truck == t.truckId then r.(tripCount := r.tripCount + 1) else r)
  {
    R.FigureGrows(ts, k, t, R.One, R.ByTruck, truck);
    var j :| j in ts && ts[j].truckId == truck && ts[j].truckCode == r.truckCode;
    assert ts[k := t][j] == ts[j];
  }

  lemma TruckCountStarts(ts: R.Table, k: Id, t: Trip)
    requires k !in ts && t.truckId !in R.Present(ts, R.ByTruck)
    ensures IsTruckCount(ts[k := t], t.truckId, TruckTripCount(t.truckId, t.truckCode, 1))
  {
    R.FigureAbsent(ts, R.One, R.ByTruck, t.truckId);
    R.FigureGrows(ts, k, t, R.One, R.ByTruck, t.truckId);
    assert ts[k := t][k] == t;
  }

  lemma TruckCountsKeep(ts: R.Table, byTruck: map<Id, TruckTripCount>, k: Id, t: Trip, e: TruckTripCount)
    requires IsTruckTable(ts, byTruck) && k !in ts
    requires e == if t.truckId in byTruck then byTruck[t.truckId] else TruckTripCount(t.truckId, t.truckCode, 0)
    ensures IsTruckTable(ts[k := t], byTruck[t.truckId := e.(tripCount := e.tripCount + 1)])
  {
    R.PresentGrows(ts, k, t, R.ByTruck);
    var after := byTruck[t.truckId := e.(tripCount := e.tripCount + 1)];
    assert after.Keys == R.Present(ts[k := t], R.ByTruck);
    if t.truckId !in byTruck {
      TruckCountStarts(ts, k, t);
    }
    forall truck | truck in after
      ensures IsTruckCount(ts[k := t], truck, after[truck])
    {
      if truck in byTruck {
        assert IsTruckCount(ts, truck, byTruck[truck]);
        TruckCountGrows(ts, k, t, truck, byTruck[truck]);
      }
    }
  }

  lemma CountsStart()
    ensures IsDayTable(map[], map[]) && IsTruckTable(map[], map[])
  {
  }

  /** The counting loop: one turn adds a trip to its day and to its truck. */
  method CountTrips(ts: R.Table) returns (byDay: map<Day, DayTripCount>, byTruck: map<Id, TruckTripCount>)
    ensures IsDayTable(ts, byDay) && IsTruckTable(ts, byTruck)
  {
    byDay, byTruck := map[], map[];
    var rest := ts.Keys;
    ghost var done: R.Table := map[];
    CountsStart();
    while rest != {}
      invariant R.Without(done, ts, rest) && IsDayTable(done, byDay) && IsTruckTable(done, byTruck)
      decreases rest
    {
      var k :| k in rest;
      var t := ts[k];
      DayTurnKeeps(done, byDay, k, t);
      byDay := byDay[t.date := DayTripCount(t.date, (if t.date in byDay then byDay[t.date].tripCount else 0) + 1)];
      var e := if t.truckId in byTruck then byTruck[t.truckId] else TruckTripCount(t.truckId, t.truckCode, 0);
      TruckCountsKeep(done, byTruck, k, t, e);
      byTruck := byTruck[t.truckId := e.(tripCount := e.tripCount + 1)];
      done := done[k := t];
      rest := rest - {k};
    }
    assert done == ts;
  }

  lemma {:induction false} OnesCount(m: map<Id, int>)
    requires forall k :: k in m ==> m[k] == 1
    ensures MapSum(m) == |m|
    decreases |m|
  {
    if m == map[] {
    } else {
      var k :| k in m;
      MapSumRemove(m, k);
      OnesCount(m - {k});
    }
  }

  lemma DaysCountAll(ts: R.Table, byDay: map<Day, DayTripCount>, days: map<Day, int>)
    requires IsDayTable(ts, byDay)
    requires days.Keys == byDay.Keys && forall d :: d in byDay ==> days[d] == byDay[d].tripCount
    ensures MapSum(days) == MapSum(Ones(ts))
  {
    assert forall d :: d in byDay ==> IsDayCount(ts, d, byDay[d]);
    FilingConserves(Ones(ts), TripDays(ts), days);
  }

  lemma TrucksCountAll(ts: R.Table, byTruck: map<Id, TruckTripCount>, trucks: map<Id, int>)
    requires IsTruckTable(ts, byTruck)
    requires trucks.Keys == byTruck.Keys && forall t :: t in byTruck ==> trucks[t] == byTruck[t].tripCount
    ensures MapSum(trucks) == MapSum(Ones(ts))
  {
    assert forall t :: t in byTruck ==> IsTruckCount(ts, t, byTruck[t]);
    R.FiguresConserve(ts, R.One, R.ByTruck, trucks);
    assert R.Keyed(ts, R.One, R.ByTruck) == Ones(ts);
  }

  /** Both lists count every trip of the report exactly once. */
  lemma TripCountsConserve(ts: R.Table, byDay: map<Day, DayTripCount>, byTruck: map<Id, TruckTripCount>)
    requires IsDayTable(ts, byDay) && IsTruckTable(ts, byTruck)
    ensures MapSum(map d | d in byDay :: byDay[d].tripCount) == |ts|
    ensures MapSum(map t | t in byTruck :: byTruck[t].tripCount) == |ts|
  {
    DaysCountAll(ts, byDay, map d | d in byDay :: byDay[d].tripCount);
    TrucksCountAll(ts, byTruck, map t | t in byTruck :: byTruck[t].tripCount);
    OnesCount(Ones(ts));
    assert Ones(ts).Keys == ts.Keys && |Ones(ts)| == |Ones(ts).Keys| && |ts| == |ts.Keys|;
  }

  function DayOrder(): (DayTripCount, DayTripCount) -> bool {
    (a: DayTripCount, b: DayTripCount) => a.date <= b.date
  }

  function CodeOrder(nameLe: (string, string) -> bool): (TruckTripCount, TruckTripCount) -> bool {
    (a: TruckTripCount, b: TruckTripCount) => nameLe(a.truckCode, b.truckCode)
  }

  lemma OrdersTotal(nameLe: (string, string) -> bool)
    requires TotalPreorder(nameLe)
    ensures TotalPreorder(DayOrder()) && TotalPreorder(CodeOrder(nameLe))
  {
    var le := CodeOrder(nameLe);
    forall x, y ensures le(x, y) || le(y, x) {
      assert nameLe(x.truckCode, y.truckCode) || nameLe(y.truckCode, x.truckCode);
    }
    forall x, y, z | le(x, y) && le(y, z) ensures le(x, z) {
      assert nameLe(x.truckCode, y.truckCode) && nameLe(y.truckCode, z.truckCode) ==> nameLe(x.truckCode, z.truckCode);
    }
  }

  lemma CountsInjective(ts: R.Table, byDay: map<Day, DayTripCount>, byTruck: map<Id, TruckTripCount>)
    requires IsDayTable(ts, byDay) && IsTruckTable(ts, byTruck)
    ensures Injective(byDay) && Injective(byTruck)
  {
    forall c, d | c in byDay && d in byDay && byDay[c] == byDay[d] ensures c == d {
      assert IsDayCount(ts, c, byDay[c]) && IsDayCount(ts, d, byDay[d]);
    }
    forall c, d | c in byTruck && d in byTruck && byTruck[c] == byTruck[d] ensures c == d {
      assert IsTruckCount(ts, c, byTruck[c]) && IsTruckCount(ts, d, byTruck[d]);
    }
  }

  /** Trip counts by day, dates ascending, and by truck, codes ascending. */
  method AggregateTrips(ts: R.Table, nameLe: (string, string) -> bool)
    returns (perDay: seq<DayTripCount>, perTruck: seq<TruckTripCount>,
             ghost byDay: map<Day, DayTripCount>, ghost byTruck: map<Id, TruckTripCount>)
    requires TotalPreorder(nameLe)
    ensures IsDayTable(ts, byDay) && Lists(perDay, byDay) && SortedBy(perDay, DayOrder())
    ensures IsTruckTable(ts, byTruck) && Lists(perTruck, byTruck) && SortedBy(perTruck, CodeOrder(nameLe))
    ensures forall i, j :: 0 <= i < j < |perDay| ==> perDay[i].date <= perDay[j].date
    ensures forall i, j :: 0 <= i < j < |perTruck| ==> nameLe(perTruck[i].truckCode, perTruck[j].truckCode)
  {
    var days, trucks := CountTrips(ts);
    OrdersTotal(nameLe);
    CountsInjective(ts, days, trucks);
    byDay, byTruck := days, trucks;
    perDay := Listing(days, DayOrder());
    perTruck := Listing(trucks, CodeOrder(nameLe));
  }
}
