/** Daily truck logs: the non-blocking odometer warnings, the lookup of the
    previous log that feeds them, and what the absence of warnings says about a
    truck's readings. */
module Odometer {
  import opened Common

  /** The unique index on a daily log. */
  datatype Key = Key(date: Day, truckId: Id)

  datatype Log = Log(odometerStart: Option<int>, odometerEnd: Option<int>)

  type Logs = map<Key, Log>

  datatype Warning =
    | EndBelowStart(end: int, start: int)
    | StartBelowPrevious(start: int, previous: int)
    | NoTrips

  /** When a warning belongs in the response, one clause a warning. */
  ghost predicate Raised(w: Warning, log: Log, previous: Option<int>, tripCount: Option<nat>, confirming: bool) {
    match w
    case EndBelowStart(end, start) =>
      log.odometerEnd == Some(end) && log.odometerStart == Some(start) && end < start
    case StartBelowPrevious(start, before) =>
      log.odometerStart == Some(start) && previous == Some(before) && start < before
    case NoTrips =>
      confirming && (tripCount.None? || tripCount.value == 0)
  }

  /** The stable order in which the screens show warnings. */
  function Rank(w: Warning): nat {
    match w
    case EndBelowStart(_, _) => 0
    case StartBelowPrevious(_, _) => 1
    case NoTrips => 2
  }

  ghost predicate InShownOrder(warnings: seq<Warning>) {
    forall i, j :: 0 <= i < j < |warnings| ==> Rank(warnings[i]) < Rank(warnings[j])
  }

  /** Exactly the raised warnings, each once, in the order the screens rely on. */
  method ComputeLogWarnings(log: Log, previous: Option<int>, tripCount: Option<nat>, confirming: bool)
    returns (warnings: seq<Warning>)
    ensures forall w :: w in warnings <==> Raised(w, log, previous, tripCount, confirming)
    ensures InShownOrder(warnings)
  {
    warnings := [];
    var start, end := log.odometerStart, log.odometerEnd;
    if start.Some? && end.Some? && end.value < start.value {
      warnings := warnings + [EndBelowStart(end.value, start.value)];
    }
    if start.Some? && previous.Some? && start.value < previous.value {
      warnings := warnings + [StartBelowPrevious(start.value, previous.value)];
    }
    if confirming && (tripCount.None? || tripCount.value == 0) {
      warnings := warnings + [NoTrips];
    }
  }

  // ----- days -----

  /** The days on which the truck has an end reading. */
  function EndDays(logs: Logs, truck: Id): (days: set<Day>)
    ensures forall d :: d in days ==> Key(d, truck) in logs && logs[Key(d, truck)].odometerEnd.Some?
  {
    set k | k in logs && k.truckId == truck && logs[k].odometerEnd.Some? :: k.date
  }

  function Before(days: set<Day>, date: Day): set<Day> {
    set d | d in days && d < date
  }

  ghost predicate IsLatest(days: set<Day>, d: Day) {
    d in days && forall e :: e in days ==> e <= d
  }

  lemma LatestExists(days: set<Day>)
    requires days != {}
    ensures exists d :: IsLatest(days, d)
    decreases |days|
  {
    assert (forall d: Day :: d !in days) ==> days == {};
    var d: Day :| d in days;
    var rest := days - {d};
    assert days == rest + {d};
    if rest == {} {
      assert IsLatest(days, d);
    } else {
      LatestExists(rest);
      var m: Day :| IsLatest(rest, m);
      assert IsLatest(days, if m < d then d else m);
    }
  }

  function Latest(days: set<Day>): (d: Day)
    requires days != {}
    ensures d in days && forall e :: e in days ==> e <= d
  {
    LatestExists(days);
    assert exists d :: IsLatest(days, d) && d in days;
    var d: Day :| d in days && forall e :: e in days ==> e <= d;
    d
  }

  /** The end reading of the latest earlier log of the truck that has one. */
  function PreviousEnd(logs: Logs, key: Key): Option<int> {
    var days := Before(EndDays(logs, key.truckId), key.date);
    if days == {} then None else logs[Key(Latest(days), key.truckId)].odometerEnd
  }

  /** The days of a set in calendar order. */
  function DateOrder(days: set<Day>): (order: seq<Day>)
    ensures forall d :: d in order <==> d in days
    ensures forall i, j :: 0 <= i < j < |order| ==> order[i] < order[j]
    decreases |days|
  {
    if days == {} then [] else
      var last := Latest(days);
      DateOrder(days - {last}) + [last]
  }

  // ----- odometer chain -----

  /** Every log with an end reading also has a start reading. */
  ghost predicate Paired(logs: Logs, truck: Id) {
    forall d :: d in EndDays(logs, truck) ==> logs[Key(d, truck)].odometerStart.Some?
  }

  /** No odometer warning comes back when the log is read. */
  ghost predicate Silent(logs: Logs, key: Key)
    requires key in logs
  {
    forall w :: Raised(w, logs[key], PreviousEnd(logs, key), None, false) ==> w.NoTrips?
  }

  ghost predicate AllSilent(logs: Logs, truck: Id) {
    forall d :: d in EndDays(logs, truck) ==> Silent(logs, Key(d, truck))
  }

  function StartOf(logs: Logs, truck: Id, d: Day): int
    requires Paired(logs, truck) && d in EndDays(logs, truck)
  {
    logs[Key(d, truck)].odometerStart.value
  }

  function EndOf(logs: Logs, truck: Id, d: Day): int
    requires d in EndDays(logs, truck)
  {
    logs[Key(d, truck)].odometerEnd.value
  }

  /** Start and end readings alternate: day i gives places 2i and 2i + 1. */
  function Reading(logs: Logs, truck: Id, days: seq<Day>, k: nat): int
    requires Paired(logs, truck) && forall d :: d in days ==> d in EndDays(logs, truck)
    requires k < 2 * |days|
  {
    assert days[k / 2] in days;
    if k % 2 == 0 then StartOf(logs, truck, days[k / 2]) else EndOf(logs, truck, days[k / 2])
  }

  function Readings(logs: Logs, truck: Id, days: seq<Day>): seq<int>
    requires Paired(logs, truck) && forall d :: d in days ==> d in EndDays(logs, truck)
  {
    seq(2 * |days|, k requires 0 <= k < 2 * |days| => Reading(logs, truck, days, k))
  }

  function Distance(logs: Logs, truck: Id, days: seq<Day>): int
    requires Paired(logs, truck) && forall d :: d in days ==> d in EndDays(logs, truck)
  {
    if days == [] then 0 else
      var n := |days| - 1;
      Distance(logs, truck, days[..n]) + EndOf(logs, truck, days[n]) - StartOf(logs, truck, days[n])
  }

  ghost predicate NonDecreasing(r: seq<int>) {
    forall i, j :: 0 <= i < j < |r| ==> r[i] <= r[j]
  }

  /** The lookup finds the neighbour in calendar order. */
  lemma PreviousIsNeighbour(logs: Logs, truck: Id, i: nat)
    requires i < |DateOrder(EndDays(logs, truck))|
    ensures var days := DateOrder(EndDays(logs, truck));
            PreviousEnd(logs, Key(days[i], truck))
            == if i == 0 then None else Some(EndOf(logs, truck, days[i - 1]))
  {
    LatestBefore(EndDays(logs, truck), i);
  }

  /** Before the first day there is none, and the latest before any other is its predecessor
      in calendar order. */
  lemma LatestBefore(all: set<Day>, i: nat)
    requires i < |DateOrder(all)|
    ensures var earlier := Before(all, DateOrder(all)[i]);
            if i == 0 then earlier == {} else earlier != {} && Latest(earlier) == DateOrder(all)[i - 1]
  {
    var days := DateOrder(all);
    var earlier := Before(all, days[i]);
    if i == 0 {
      assert forall d :: d in earlier ==> d in days;
      assert earlier == {};
    } else {
      assert days[i - 1] in earlier;
      var last := Latest(earlier);
      assert last in days && days[i - 1] <= last < days[i];
      Adjacent(days, i, last);
    }
  }

  /** In an ascending list no member lies strictly between neighbours. */
  lemma Adjacent(days: seq<Day>, i: nat, d: Day)
    requires forall j, k :: 0 <= j < k < |days| ==> days[j] < days[k]
    requires 0 < i < |days| && d in days && days[i - 1] <= d < days[i]
    ensures d == days[i - 1]
  {
    var j :| 0 <= j < |days| && days[j] == d;
  }

  /** One log is silent exactly when its own readings and the neighbour's agree. */
  lemma SilentIsLocal(logs: Logs, truck: Id, i: nat)
    requires Paired(logs, truck)
    requires i < |DateOrder(EndDays(logs, truck))|
    ensures var days := DateOrder(EndDays(logs, truck));
            Silent(logs, Key(days[i], truck)) <==>
            && StartOf(logs, truck, days[i]) <= EndOf(logs, truck, days[i])
            && (i > 0 ==> EndOf(logs, truck, days[i - 1]) <= StartOf(logs, truck, days[i]))
  {
    var days := DateOrder(EndDays(logs, truck));
    var key := Key(days[i], truck);
    PreviousIsNeighbour(logs, truck, i);
    var start, end := StartOf(logs, truck, days[i]), EndOf(logs, truck, days[i]);
    if Silent(logs, key) {
      var low := EndBelowStart(end, start);
      assert Raised(low, logs[key], PreviousEnd(logs, key), None, false) ==> low.NoTrips?;
      if i > 0 {
        var back := StartBelowPrevious(start, EndOf(logs, truck, days[i - 1]));
        assert Raised(back, logs[key], PreviousEnd(logs, key), None, false) ==> back.NoTrips?;
      }
    }
  }

  lemma {:induction false} StepsChain(r: seq<int>, i: nat, j: nat)
    requires forall k :: 0 < k < |r| ==> r[k - 1] <= r[k]
    requires i <= j < |r|
    ensures r[i] <= r[j]
    decreases j
  {
    if i == j {
    } else {
      StepsChain(r, i, j - 1);
      assert r[j - 1] <= r[j];
    }
  }

  lemma StepsRise(r: seq<int>)
    requires forall k :: 0 < k < |r| ==> r[k - 1] <= r[k]
    ensures NonDecreasing(r)
  {
    forall i, j | 0 <= i < j < |r| ensures r[i] <= r[j] {
      StepsChain(r, i, j);
    }
  }

  lemma SilentStep(logs: Logs, truck: Id, k: nat)
    requires Paired(logs, truck) && AllSilent(logs, truck)
    requires 0 < k < 2 * |DateOrder(EndDays(logs, truck))|
    ensures var days := DateOrder(EndDays(logs, truck));
            Reading(logs, truck, days, k - 1) <= Reading(logs, truck, days, k)
  {
    var days := DateOrder(EndDays(logs, truck));
    var i := k / 2;
    assert days[i] in days;
    SilentIsLocal(logs, truck, i);
    if k == 2 * i {
      assert (k - 1) / 2 == i - 1 && (k - 1) % 2 == 1;
    } else {
      assert k == 2 * i + 1;
    }
  }

  lemma SilentRises(logs: Logs, truck: Id)
    requires Paired(logs, truck) && AllSilent(logs, truck)
    ensures NonDecreasing(Readings(logs, truck, DateOrder(EndDays(logs, truck))))
  {
    var r := Readings(logs, truck, DateOrder(EndDays(logs, truck)));
    forall k | 0 < k < |r| ensures r[k - 1] <= r[k] {
      SilentStep(logs, truck, k);
    }
    StepsRise(r);
  }

  lemma RisingPlaces(logs: Logs, truck: Id, days: seq<Day>, i: nat)
    requires Paired(logs, truck) && forall d :: d in days ==> d in EndDays(logs, truck)
    requires NonDecreasing(Readings(logs, truck, days))
    requires i < |days|
    ensures StartOf(logs, truck, days[i]) <= EndOf(logs, truck, days[i])
    ensures i > 0 ==> EndOf(logs, truck, days[i - 1]) <= StartOf(logs, truck, days[i])
  {
    var r := Readings(logs, truck, days);
    var k := 2 * i;
    assert k / 2 == i && k % 2 == 0 && (k + 1) / 2 == i && (k + 1) % 2 == 1;
    assert r[k] <= r[k + 1];
    if i > 0 {
      assert (k - 1) / 2 == i - 1 && (k - 1) % 2 == 1;
      assert r[k - 1] <= r[k];
    }
  }

  lemma RisingSilences(logs: Logs, truck: Id, i: nat)
    requires Paired(logs, truck)
    requires i < |DateOrder(EndDays(logs, truck))|
    requires NonDecreasing(Readings(logs, truck, DateOrder(EndDays(logs, truck))))
    ensures Silent(logs, Key(DateOrder(EndDays(logs, truck))[i], truck))
  {
    RisingPlaces(logs, truck, DateOrder(EndDays(logs, truck)), i);
    SilentIsLocal(logs, truck, i);
  }

  /** A truck whose logs raise no odometer warning is one whose readings, in date
      order, never fall. Both directions. */
  lemma SilentIffReadingsRise(logs: Logs, truck: Id)
    requires Paired(logs, truck)
    ensures AllSilent(logs, truck) <==>
            NonDecreasing(Readings(logs, truck, DateOrder(EndDays(logs, truck))))
  {
    var days := DateOrder(EndDays(logs, truck));
    if AllSilent(logs, truck) {
      SilentRises(logs, truck);
    }
    if NonDecreasing(Readings(logs, truck, days)) {
      forall d | d in EndDays(logs, truck) ensures Silent(logs, Key(d, truck)) {
        var i :| 0 <= i < |days| && days[i] == d;
        RisingSilences(logs, truck, i);
      }
    }
  }

  lemma {:induction false} DistanceWithin(logs: Logs, truck: Id, days: seq<Day>)
    requires Paired(logs, truck) && forall d :: d in days ==> d in EndDays(logs, truck)
    requires days != []
    requires NonDecreasing(Readings(logs, truck, days))
    ensures 0 <= Distance(logs, truck, days)
    ensures Distance(logs, truck, days)
         <= EndOf(logs, truck, days[|days| - 1]) - StartOf(logs, truck, days[0])
    decreases |days|
  {
    var n := |days| - 1;
    RisingPlaces(logs, truck, days, n);
    if n == 0 {
      assert days[..n] == [];
    } else {
      var rest := days[..n];
      var r := Readings(logs, truck, days);
      assert Readings(logs, truck, rest) == r[..2 * n];
      assert forall i, j :: 0 <= i < j < 2 * n ==> r[..2 * n][i] <= r[..2 * n][j];
      DistanceWithin(logs, truck, rest);
      assert rest[n - 1] == days[n - 1] && rest[0] == days[0];
    }
  }

  /** With no warning anywhere, the daily distances add up to no more than what
      the odometer turned between the first start and the last end. */
  lemma SilentBoundsDistance(logs: Logs, truck: Id)
    requires Paired(logs, truck) && AllSilent(logs, truck) && EndDays(logs, truck) != {}
    ensures var days := DateOrder(EndDays(logs, truck));
            |days| > 0 &&
            0 <= Distance(logs, truck, days)
            <= EndOf(logs, truck, days[|days| - 1]) - StartOf(logs, truck, days[0])
  {
    var d :| d in EndDays(logs, truck);
    var days := DateOrder(EndDays(logs, truck));
    assert d in days;
    SilentIffReadingsRise(logs, truck);
    DistanceWithin(logs, truck, days);
  }

  /** A log that closes without a start reading hides a reading that runs
      backwards: no warning is raised although the end falls from 90 to 10. */
  lemma UnpairedLogHidesFall(truck: Id)
    ensures var logs := map[Key(1, truck) := Log(Some(80), Some(90)), Key(2, truck) := Log(None, Some(10))];
            && AllSilent(logs, truck) && !Paired(logs, truck)
            && EndOf(logs, truck, 2) < EndOf(logs, truck, 1)
  {
    var logs := map[Key(1, truck) := Log(Some(80), Some(90)), Key(2, truck) := Log(None, Some(10))];
    var days := EndDays(logs, truck);
    assert Key(1, truck) in logs && Key(2, truck) in logs;
    assert 1 in days && 2 in days;
    assert forall d :: d in days ==> d == 1 || d == 2;
    assert Before(days, 1) == {};
    assert PreviousEnd(logs, Key(1, truck)) == None;
    assert Silent(logs, Key(1, truck)) && Silent(logs, Key(2, truck));
  }

  // ----- service -----

  datatype LogError = UnknownTruck

  class OperationsService {
    var trucks: set<Id>
    var logs: Logs

    /** Get or create on the unique day and truck: a second create hands back the
        first log and writes nothing, with the warnings of the stored readings. */
    method CreateLog(key: Key, entered: Log) returns (r: Result<(Log, seq<Warning>), LogError>)
      modifies this`logs
      ensures key.truckId !in trucks ==> r == Err(UnknownTruck) && logs == old(logs)
      ensures key.truckId in trucks ==>
        && r.Ok?
        && key in logs && r.value.0 == logs[key]
        && logs == old(logs)[key := if key in old(logs) then old(logs)[key] else entered]
        && (forall w :: w in r.value.1 <==> Raised(w, logs[key], PreviousEnd(logs, key), None, false))
        && InShownOrder(r.value.1)
    {
      if key.truckId !in trucks {
        return Err(UnknownTruck);
      }
      if key !in logs {
        logs := logs[key := entered];
      }
      var warnings := ComputeLogWarnings(logs[key], PreviousEnd(logs, key), None, false);
      r := Ok((logs[key], warnings));
    }
  }
}
