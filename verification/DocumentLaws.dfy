/** What every request on a book keeps, what voiding releases, and when the next
    number is free. */
module DocumentLaws {
  import opened Common
  import opened Numerals
  import opened Documents

  // ----- snapshot lines -----

  lemma TripIdsConcat(a: seq<Line>, b: seq<Line>)
    ensures TripIds(a + b) == TripIds(a) + TripIds(b)
  {
    assert forall l :: l in a + b <==> l in a || l in b;
    forall t | t in TripIds(a) + TripIds(b)
      ensures t in TripIds(a + b)
    {
      var l :| (l in a || l in b) && l.tripId == t;
      assert l in a + b;
    }
  }

  lemma LinesForTrip(kind: Kind, id: Id, t: Trip)
    ensures TripIds(LinesFor(kind, id, t)) == {id} && LinesFor(kind, id, t) != []
  {
    var lines := LinesFor(kind, id, t);
    assert lines[0] in lines && lines[0].tripId == id;
  }

  /** The snapshot holds exactly the trips read. */
  lemma {:induction false} SnapshotTrips(kind: Kind, trips: map<Id, Trip>, ids: seq<Id>)
    requires forall id :: id in ids ==> id in trips
    ensures TripIds(LinesOf(kind, trips, ids)) == set id | id in ids
    ensures ids != [] <==> LinesOf(kind, trips, ids) != []
  {
    if ids == [] {
    } else {
      var n := |ids| - 1;
      var last := LinesFor(kind, ids[n], trips[ids[n]]);
      SnapshotTrips(kind, trips, ids[..n]);
      TripIdsConcat(LinesOf(kind, trips, ids[..n]), last);
      LinesForTrip(kind, ids[n], trips[ids[n]]);
      assert ids == ids[..n] + [ids[n]];
      assert (set id | id in ids) == (set id | id in ids[..n]) + {ids[n]};
    }
  }

  lemma AppendShape(kind: Kind, front: seq<Line>, id: Id, t: Trip)
    requires WellShaped(kind, front)
    requires forall i :: 0 <= i < |front| ==> front[i].tripId != id
    ensures WellShaped(kind, front + LinesFor(kind, id, t))
  {
    var last := LinesFor(kind, id, t);
    var lines, n := front + last, |front|;
    assert forall i :: 0 <= i < n ==> lines[i] == front[i];
    assert forall i :: n <= i < |lines| ==> lines[i] == last[i - n] && lines[i].tripId == id;
    if kind.Billing? {
      assert |lines| == n + 1;
    } else {
      assert |lines| <= n + 2 && lines[n].role == Driver;
    }
  }

  /** Each trip read sits on the snapshot once and whole. */
  lemma {:induction false} SnapshotShape(kind: Kind, trips: map<Id, Trip>, ids: seq<Id>)
    requires forall id :: id in ids ==> id in trips
    requires forall i, j :: 0 <= i < j < |ids| ==> ids[i] != ids[j]
    ensures WellShaped(kind, LinesOf(kind, trips, ids))
  {
    if ids == [] {
    } else {
      var n := |ids| - 1;
      SnapshotShape(kind, trips, ids[..n]);
      SnapshotTrips(kind, trips, ids[..n]);
      var front := LinesOf(kind, trips, ids[..n]);
      forall i | 0 <= i < |front|
        ensures front[i].tripId != ids[n]
      {
        assert front[i] in front;
        assert front[i].tripId in TripIds(front);
        assert front[i].tripId in ids[..n];
      }
      AppendShape(kind, front, ids[n], trips[ids[n]]);
    }
  }

  // ----- numbers -----

  lemma MaxTextExists(numbers: set<string>) returns (last: string)
    requires numbers != {}
    ensures IsLast(numbers, last)
    decreases |numbers|
  {
    var x :| x in numbers;
    if numbers == {x} {
      TextLeqRefl(x);
      last := x;
    } else {
      var rest := numbers - {x};
      assert numbers == rest + {x};
      assert rest != {};
      var m := MaxTextExists(rest);
      TextLeqTotal(x, m);
      TextLeqRefl(x);
      last := if TextLeq(x, m) then m else x;
      forall y | y in numbers
        ensures TextLeq(y, last)
      {
        if y != x && last == x {
          TextLeqTrans(y, m, x);
        }
      }
    }
  }

  /** A year has one last number in text order. */
  lemma LastIsUnique(numbers: set<string>, a: string, b: string)
    requires IsLast(numbers, a) && IsLast(numbers, b)
    ensures a == b
  {
    TextLeqAntisym(a, b);
  }

  /** The next number is determined by the stored ones. */
  lemma NextNumberUnique(docs: map<Id, Doc>, prefix: string, a: string, b: string)
    requires IsNextNumber(docs, prefix, a) && IsNextNumber(docs, prefix, b)
    ensures a == b
  {
    var numbers := NumbersWith(docs, prefix);
    if numbers == {} {
    } else {
      var x :| IsLast(numbers, x) && a == Successor(prefix, x);
      var y :| IsLast(numbers, y) && b == Successor(prefix, y);
      LastIsUnique(numbers, x, y);
    }
  }

  /** Some number is always computed. */
  lemma NextNumberExists(docs: map<Id, Doc>, prefix: string) returns (number: string)
    ensures IsNextNumber(docs, prefix, number)
  {
    var numbers := NumbersWith(docs, prefix);
    if numbers == {} {
      number := prefix + Pad4(1);
    } else {
      var last := MaxTextExists(numbers);
      number := Successor(prefix, last);
    }
  }

  /** A dash ends the digits before it. */
  lemma DashEnds(h: string, d: string, d': string, rest: string)
    requires AllDigits(d) && AllDigits(d')
    requires h + d + "-" <= h + d' + "-" + rest
    ensures d == d'
  {
    var short, whole := h + d + "-", h + d' + "-" + rest;
    assert forall i :: 0 <= i < |short| ==> whole[i] == short[i];
    assert forall i :: 0 <= i < |d| ==> short[|h| + i] == d[i];
    assert forall i :: 0 <= i < |d'| ==> whole[|h| + i] == d'[i];
    assert whole[|h| + |d'|] == '-' && short[|h| + |d|] == '-';
    assert |d| == |d'|;
    forall i | 0 <= i < |d|
      ensures d[i] == d'[i]
    {
      assert whole[|h| + i] == short[|h| + i];
    }
  }

  /** The year of a number can be read off its text. */
  lemma PrefixTellsYear(kind: Kind, y: nat, y': nat, n: nat)
    requires Prefix(kind, y) <= FormatNumber(kind, y', n)
    ensures y == y'
  {
    var h := if kind.Billing? then "INV-" else "PAY-";
    DashEnds(h, Decimal(y), Decimal(y'), Pad4(n));
    DecimalInjective(y, y');
  }

  lemma FormatInjective(kind: Kind, year: nat, m: nat, n: nat)
    requires FormatNumber(kind, year, m) == FormatNumber(kind, year, n)
    ensures m == n
  {
    var p := |Prefix(kind, year)|;
    assert FormatNumber(kind, year, m)[p..] == Pad4(m);
    assert FormatNumber(kind, year, n)[p..] == Pad4(n);
    PadInjective(m, n);
  }

  lemma DecodeNumber(kind: Kind, year: nat, number: string) returns (m: nat)
    requires IsNumber(kind, number) && Prefix(kind, year) <= number
    ensures m >= 1 && number == FormatNumber(kind, year, m)
    ensures Successor(Prefix(kind, year), number) == FormatNumber(kind, year, m + 1)
  {
    var y: nat, k: nat :| k >= 1 && number == FormatNumber(kind, y, k);
    PrefixTellsYear(kind, year, y, k);
    m := k;
    assert number[|Prefix(kind, year)|..] == Pad4(m);
    ParseOfPad(m);
  }

  lemma LastIsStored(kind: Kind, docs: map<Id, Doc>, prefix: string, last: string)
    requires DocsOk(kind, docs) && last in NumbersWith(docs, prefix)
    ensures Stored(docs, last) && IsNumber(kind, last) && prefix <= last
  {
    var id :| id in docs && prefix <= docs[id].number && docs[id].number == last;
    assert DocOk(kind, docs[id]);
  }

  /** `parseInt` reads the digits in front, and nothing where there are none; a last number
      without digits after its prefix is followed by one that no longer counts. */
  lemma UnreadableLast(prefix: string, last: string)
    requires prefix <= last
    ensures var rest := last[|prefix|..];
            && (ParseInt(rest).None? <==> rest == "" || !('0' <= rest[0] <= '9'))
            && (ParseInt(rest).None? ==> Successor(prefix, last) == prefix + "0NaN")
  {
  }

  /** The last number of a year, decoded, and what follows from its being last:
      the next number is one more than it, and every other stored number of the
      year sorts no later. */
  lemma NextAfterLast(kind: Kind, docs: map<Id, Doc>, year: nat, number: string) returns (m: nat)
    requires DocsOk(kind, docs) && IsNextNumber(docs, Prefix(kind, year), number)
    requires NumbersWith(docs, Prefix(kind, year)) != {}
    ensures m >= 1 && Stored(docs, FormatNumber(kind, year, m)) && number == FormatNumber(kind, year, m + 1)
    ensures forall n: nat :: Stored(docs, FormatNumber(kind, year, n)) ==> TextLeq(Pad4(n), Pad4(m))
  {
    var prefix := Prefix(kind, year);
    var numbers := NumbersWith(docs, prefix);
    var last :| IsLast(numbers, last) && number == Successor(prefix, last);
    LastIsStored(kind, docs, prefix, last);
    m := DecodeNumber(kind, year, last);
    SortsNoLater(kind, docs, year, m);
  }

  lemma SortsNoLater(kind: Kind, docs: map<Id, Doc>, year: nat, m: nat)
    requires IsLast(NumbersWith(docs, Prefix(kind, year)), FormatNumber(kind, year, m))
    ensures forall n: nat :: Stored(docs, FormatNumber(kind, year, n)) ==> TextLeq(Pad4(n), Pad4(m))
  {
    forall n: nat | Stored(docs, FormatNumber(kind, year, n))
      ensures TextLeq(Pad4(n), Pad4(m))
    {
      assert FormatNumber(kind, year, n) in NumbersWith(docs, Prefix(kind, year));
      TextLeqPrefix(Prefix(kind, year), Pad4(n), Pad4(m));
    }
  }

  /** The next number collides with a stored one exactly when the last number of
      the year is all nines and its successor is already there: 9999 sorts after
      10000, so from then on the same number is handed out again. */
  lemma NextNumberFree(kind: Kind, docs: map<Id, Doc>, year: nat, number: string)
    requires DocsOk(kind, docs) && IsNextNumber(docs, Prefix(kind, year), number)
    ensures Stored(docs, number) <==>
            exists m: nat :: && AllNines(m) && number == FormatNumber(kind, year, m + 1)
                             && Stored(docs, FormatNumber(kind, year, m)) &&
                                 Stored(docs, FormatNumber(kind, year, m + 1))
    ensures NumberReady(docs, kind, year, number)
  {
    var numbers := NumbersWith(docs, Prefix(kind, year));
    if numbers == {} {
      assert number == FormatNumber(kind, year, 1);
      assert Stored(docs, number) ==> number in numbers;
    } else {
      var m := NextAfterLast(kind, docs, year, number);
      PadSuccessorOrder(m);
      if Stored(docs, number) {
        assert TextLeq(Pad4(m + 1), Pad4(m));
        assert AllNines(m);
      }
      if m + 1 <= 9999 {
        FourDigits(m);
      }
      assert number == FormatNumber(kind, year, m + 1);
    }
  }

  /** 9999 is the first number after which a year is stuck. */
  lemma NinesAt9999()
    ensures AllNines(9999)
  {
    assert Decimal(9999) == Decimal(999) + [DigitChar(9)];
    assert Decimal(999) == Decimal(99) + [DigitChar(9)];
    assert Decimal(99) == Decimal(9) + [DigitChar(9)];
  }

  /** A year that has passed an all-nines number is stuck: the next number is the one
      after the nines again, as long as both are there. */
  lemma StuckAfterNines(kind: Kind, docs: map<Id, Doc>, year: nat, m: nat, number: string)
    requires AllNines(m) && DocsOk(kind, docs) && IsNextNumber(docs, Prefix(kind, year), number)
    requires Stored(docs, FormatNumber(kind, year, m)) && Stored(docs, FormatNumber(kind, year, m + 1))
    requires forall k: nat :: Stored(docs, FormatNumber(kind, year, k)) ==> k <= m + 1
    ensures number == FormatNumber(kind, year, m + 1)
  {
    assert FormatNumber(kind, year, m) in NumbersWith(docs, Prefix(kind, year));
    var n := NextAfterLast(kind, docs, year, number);
    NinesBeforeOne(m);
    assert n <= m;
    NinesSortLast(m, n);
  }

  /** While a year holds at most 9999 numbers in sequence, the next number is one
      more than the greatest, and free. */
  lemma NextIsMaxPlusOne(kind: Kind, docs: map<Id, Doc>, year: nat, number: string, n: nat)
    requires DocsOk(kind, docs) && IsNextNumber(docs, Prefix(kind, year), number)
    requires number == FormatNumber(kind, year, n)
    requires forall k: nat :: Stored(docs, FormatNumber(kind, year, k)) ==> k <= 9998
    ensures !Stored(docs, number)
    ensures forall k: nat :: Stored(docs, FormatNumber(kind, year, k)) ==> k < n
    ensures n == 1 || (n > 1 && Stored(docs, FormatNumber(kind, year, n - 1)))
  {
    if NumbersWith(docs, Prefix(kind, year)) == {} {
      NoneStored(kind, docs, year);
      FormatInjective(kind, year, n, 1);
    } else {
      var m := NextAfterLast(kind, docs, year, number);
      AllBelow(kind, docs, year, m);
      AboveAll(kind, docs, year, number, m, n);
    }
  }

  lemma AboveAll(kind: Kind, docs: map<Id, Doc>, year: nat, number: string, m: nat, n: nat)
    requires number == FormatNumber(kind, year, n) && number == FormatNumber(kind, year, m + 1)
    requires m >= 1 && Stored(docs, FormatNumber(kind, year, m))
    requires forall k: nat :: Stored(docs, FormatNumber(kind, year, k)) ==> k <= m
    ensures n == m + 1 && Stored(docs, FormatNumber(kind, year, n - 1)) && !Stored(docs, number)
    ensures forall k: nat :: Stored(docs, FormatNumber(kind, year, k)) ==> k < n
  {
    FormatInjective(kind, year, n, m + 1);
    var f := FormatNumber(kind, year, m + 1);
    assert Stored(docs, f) ==> m + 1 <= m;
  }

  lemma AllBelow(kind: Kind, docs: map<Id, Doc>, year: nat, m: nat)
    requires m <= 9998
    requires forall k: nat :: Stored(docs, FormatNumber(kind, year, k)) ==> k <= 9998
    requires forall k: nat :: Stored(docs, FormatNumber(kind, year, k)) ==> TextLeq(Pad4(k), Pad4(m))
    ensures forall k: nat :: Stored(docs, FormatNumber(kind, year, k)) ==> k <= m
  {
    forall k: nat | Stored(docs, FormatNumber(kind, year, k))
      ensures k <= m
    {
      SortsBelow(k, m);
    }
  }

  lemma NoneStored(kind: Kind, docs: map<Id, Doc>, year: nat)
    requires NumbersWith(docs, Prefix(kind, year)) == {}
    ensures forall k: nat :: !Stored(docs, FormatNumber(kind, year, k))
  {
    assert forall k: nat :: Stored(docs, FormatNumber(kind, year, k)) ==>
        FormatNumber(kind, year, k) in NumbersWith(docs, Prefix(kind, year));
  }

  lemma SortsBelow(k: nat, m: nat)
    requires k <= 9998 && m <= 9998 && TextLeq(Pad4(k), Pad4(m))
    ensures k <= m
  {
    PadOrderIsNumeric(k, m);
  }

  /** A number with four sequence digits that was ready is still free. */
  lemma ShortNumberFree(docs: map<Id, Doc>, kind: Kind, year: nat, number: string)
    requires NumberReady(docs, kind, year, number) && |number| == |Prefix(kind, year)| + 4
    ensures !Stored(docs, number)
  {
    var n: nat :| n >= 1 && number == FormatNumber(kind, year, n) && (n <= 9999 ==> !Stored(docs, number));
    FiveDigits(n);
  }

  // ----- a create can always go on -----

  /** A finite non-empty set of trips has a first one by (date, seq). */
  lemma FirstTripExists(trips: map<Id, Trip>, ids: set<Id>) returns (first: Id)
    requires ids != {} && forall id :: id in ids ==> id in trips
    ensures first in ids && forall id :: id in ids ==> Before(trips[first], trips[id])
    decreases |ids|
  {
    var x :| x in ids;
    var rest := ids - {x};
    assert ids == rest + {x};
    if rest == {} {
      first := x;
    } else {
      var y := FirstTripExists(trips, rest);
      first := if Before(trips[x], trips[y]) then x else y;
    }
  }

  /** Any finite set of trips has an ordered read. */
  lemma {:induction false} OrderedReadExists(trips: map<Id, Trip>, want: set<Id>) returns (ids: seq<Id>)
    requires forall id :: id in want ==> id in trips
    ensures IsOrderedRead(trips, want, ids)
    decreases |want|
  {
    if want == {} {
      ids := [];
    } else {
      var first := FirstTripExists(trips, want);
      var rest := OrderedReadExists(trips, want - {first});
      ids := [first] + rest;
      assert forall id :: id in ids <==> id == first || id in rest;
    }
  }

  /** A create in flight is never stuck: it can take its next step, and that step moves
      it on. Its number is the only one it can get. */
  lemma CreateCanGoOn(b: Book, trips: map<Id, Trip>, fresh_: Id) returns (a: Action)
    requires !b.session.Idle?
    ensures Enabled(b, trips, a)
    ensures match b.session
            case Idle => false
            case HasCover(_, _) => a.Snapshot?
            case HasLines(req, _) =>
              a.Number? && forall n :: IsNextNumber(b.docs, Prefix(b.kind, req.year), n) ==> n == a.number
            case HasNumber(_, _, _) => a == Store(fresh_)
    ensures Apply(b, trips, {}, a).session != b.session
  {
    match b.session
    case HasCover(req, covered) =>
      var ids := OrderedReadExists(trips, Eligible(trips, req, covered));
      a := Snapshot(ids);
    case HasLines(req, _) =>
      var number := NextNumberExists(b.docs, Prefix(b.kind, req.year));
      forall n | IsNextNumber(b.docs, Prefix(b.kind, req.year), n)
        ensures n == number
      {
        NextNumberUnique(b.docs, Prefix(b.kind, req.year), n, number);
      }
      a := Number(number);
    case HasNumber(_, _, _) =>
      a := Store(fresh_);
  }

  // ----- cover -----

  lemma InCover(docs: map<Id, Doc>, id: Id)
    requires id in docs
    ensures Covers(docs[id]) <= Cover(docs)
  {
  }

  /** Dropping a document's hold releases exactly its trips: nobody else holds them. */
  lemma CoverWithout(docs: map<Id, Doc>, docs': map<Id, Doc>, id: Id)
    requires CoveredOnce(docs) && id in docs
    requires forall k :: k != id ==> (k in docs <==> k in docs')
    requires forall k :: k in docs && k != id ==> docs'[k] == docs[k]
    requires id in docs' ==> docs'[id].status == Void
    ensures Cover(docs') == Cover(docs) - Covers(docs[id])
  {
    forall t | t in Cover(docs) - Covers(docs[id])
      ensures t in Cover(docs')
    {
      var k :| k in docs && t in Covers(docs[k]);
      assert k in docs';
    }
    forall t | t in Cover(docs')
      ensures t in Cover(docs) && t !in Covers(docs[id])
    {
      var k :| k in docs' && t in Covers(docs'[k]);
      assert k in docs && k != id && docs'[k] == docs[k];
    }
  }

  /** What giving up one document's hold does to the billable trips. */
  lemma ReleaseAdds(trips: map<Id, Trip>, docs: map<Id, Doc>, docs': map<Id, Doc>, id: Id, req: Request)
    requires id in docs && docs[id].status != Void
    requires Cover(docs') == Cover(docs) - Covers(docs[id])
    ensures Billable(trips, docs', req) ==
            Billable(trips, docs, req) +
            set t | t in TripIds(docs[id].lines) && t in trips && Matches(req, trips[t])
  {
    InCover(docs, id);
    assert Covers(docs[id]) == TripIds(docs[id].lines);
  }

  lemma Voided(b: Book, id: Id, notes: Option<string>, now: int)
    requires id in b.docs && Void in Transitions(b.kind, b.docs[id].status)
    ensures b.docs[id].status != Void
    ensures var after := Update(b, id, Some(Void), notes, now).book.docs;
            && after.Keys == b.docs.Keys && after[id].status == Void
            && forall k :: k in b.docs && k != id ==> after[k] == b.docs[k]
  {
  }

  /** Voiding a document makes exactly its still-existing trips billable again,
      under the client and date they carry now, and no others. */
  lemma VoidReleases(b: Book, id: Id, notes: Option<string>, now: int, trips: map<Id, Trip>, req: Request)
    requires BookInv(b) && id in b.docs && Void in Transitions(b.kind, b.docs[id].status)
    ensures var after := Update(b, id, Some(Void), notes, now).book.docs;
            Billable(trips, after, req) ==
            Billable(trips, b.docs, req) +
            set t | t in TripIds(b.docs[id].lines) && t in trips && Matches(req, trips[t])
  {
    var after := Update(b, id, Some(Void), notes, now).book.docs;
    Voided(b, id, notes, now);
    CoverWithout(b.docs, after, id);
    ReleaseAdds(trips, b.docs, after, id, req);
  }

  /** Deleting a draft releases its trips in the same way. */
  lemma RemoveReleases(b: Book, id: Id, trips: map<Id, Trip>, req: Request)
    requires BookInv(b) && id in b.docs && b.docs[id].status == Draft
    ensures var after := Remove(b, id).book.docs;
            Billable(trips, after, req) ==
            Billable(trips, b.docs, req) +
            set t | t in TripIds(b.docs[id].lines) && t in trips && Matches(req, trips[t])
  {
    CoverWithout(b.docs, Remove(b, id).book.docs, id);
    ReleaseAdds(trips, b.docs, Remove(b, id).book.docs, id, req);
  }

  /** Billable trips and trips on non-void lines partition the matching trips. */
  lemma BillablePartition(trips: map<Id, Trip>, docs: map<Id, Doc>, req: Request)
    ensures var matching := set t | t in trips && Matches(req, trips[t]);
            var held := set t, id | t in matching && id in docs && t in Covers(docs[id]) :: t;
            Billable(trips, docs, req) !! held && Billable(trips, docs, req) + held == matching
  {
    var matching := set t | t in trips && Matches(req, trips[t]);
    var held := set t, id | t in matching && id in docs && t in Covers(docs[id]) :: t;
    forall t | t in matching
      ensures t in Cover(docs) <==> t in held
    {
      if t in Cover(docs) {
        var id :| id in docs && t in Covers(docs[id]);
      }
    }
  }

  // ----- every request keeps the invariant -----

  lemma ReadCoverKeeps(b: Book, clients: set<Id>, req: Request)
    requires BookInv(b) && b.session.Idle? && Fits(b.kind, req)
    ensures BookInv(ReadCover(b, clients, req).book)
  {
  }

  lemma ReadTripsKeeps(b: Book, trips: map<Id, Trip>, ids: seq<Id>)
    requires BookInv(b) && b.session.HasCover?
    requires IsOrderedRead(trips, Eligible(trips, b.session.req, b.session.covered), ids)
    ensures BookInv(ReadTrips(b, trips, ids).book)
  {
    SnapshotShape(b.kind, trips, ids);
    SnapshotTrips(b.kind, trips, ids);
  }

  lemma TakeNumberKeeps(b: Book, number: string)
    requires BookInv(b) && b.session.HasLines?
    requires IsNextNumber(b.docs, Prefix(b.kind, b.session.req.year), number)
    ensures BookInv(TakeNumber(b, number))
  {
    NextNumberFree(b.kind, b.docs, b.session.req.year, number);
  }

  lemma NewDocOk(b: Book)
    requires SessionOk(b) && b.session.HasNumber?
    ensures DocOk(b.kind, NewDoc(b.session.req, b.session.lines, b.session.number))
  {
    var n: nat :| n >= 1 && b.session.number == FormatNumber(b.kind, b.session.req.year, n);
    assert IsNumber(b.kind, b.session.number);
  }

  lemma InsertKeeps(b: Book, id: Id)
    requires BookInv(b) && b.session.HasNumber? && id !in b.docs
    ensures BookInv(Insert(b, id).book)
  {
    if !Stored(b.docs, b.session.number) {
      var d := NewDoc(b.session.req, b.session.lines, b.session.number);
      NewDocOk(b);
      InsertKeepsCover(b.docs, id, d);
      assert NumbersUnique(b.docs[id := d]);
    }
  }

  /** Why creates of one kind must not overlap: an insert leaves each trip with one
      document exactly when the lines in flight hold no trip covered by now. The
      unique number does not help once the other create has moved it on. */
  lemma InsertCoversOnceIff(b: Book, id: Id)
    requires CoveredOnce(b.docs) && b.session.HasNumber? && id !in b.docs && !Stored(b.docs, b.session.number)
    ensures CoveredOnce(Insert(b, id).book.docs) <==> TripIds(b.session.lines) !! Cover(b.docs)
  {
    var d := NewDoc(b.session.req, b.session.lines, b.session.number);
    var after := b.docs[id := d];
    if TripIds(b.session.lines) !! Cover(b.docs) {
      InsertKeepsCover(b.docs, id, d);
    }
    if CoveredOnce(after) {
      forall k | k in b.docs
        ensures Covers(b.docs[k]) !! TripIds(b.session.lines)
      {
        assert after[k] == b.docs[k] && after[id] == d;
      }
    }
  }

  lemma InsertKeepsCover(docs: map<Id, Doc>, id: Id, d: Doc)
    requires CoveredOnce(docs) && id !in docs && Covers(d) !! Cover(docs)
    ensures CoveredOnce(docs[id := d])
  {
    forall a | a in docs
      ensures Covers(docs[a]) !! Covers(d)
    {
      InCover(docs, a);
    }
  }

  /** Shrinking cover and keeping numbers does not disturb a create in flight. */
  lemma SessionSurvives(b: Book, b': Book)
    requires SessionOk(b) && b'.kind == b.kind && b'.session == b.session
    requires Cover(b'.docs) <= Cover(b.docs)
    requires forall number :: Stored(b'.docs, number) ==> Stored(b.docs, number)
    ensures SessionOk(b')
  {
    if b.session.HasNumber? {
      var n: nat :| n >= 1 && b.session.number == FormatNumber(b.kind, b.session.req.year, n)
                    && (n <= 9999 ==> !Stored(b.docs, b.session.number));
      assert NumberReady(b'.docs, b.kind, b.session.req.year, b.session.number);
    }
  }

  /** `d'` may take the place of `d`: consistent, same number, no more trips held. */
  ghost predicate MayReplace(kind: Kind, d: Doc, d': Doc) {
    DocOk(kind, d') && d'.number == d.number && Covers(d') <= Covers(d)
  }

  function Noted(d: Doc, notes: Option<string>): Doc {
    if notes.Some? then d.(notes := notes) else d
  }

  lemma NotedOk(kind: Kind, d: Doc, notes: Option<string>)
    requires DocOk(kind, d)
    ensures MayReplace(kind, d, Noted(d, notes)) && Noted(d, notes).status == d.status
  {
  }

  lemma WithStatusOk(kind: Kind, d: Doc, status: Status, now: int)
    requires DocOk(kind, d) && status in Transitions(kind, d.status)
    ensures MayReplace(kind, d, WithStatus(d, status, now))
  {
  }

  lemma NotedWithStatusOk(kind: Kind, d: Doc, status: Status, notes: Option<string>, now: int)
    requires DocOk(kind, d) && status in Transitions(kind, d.status)
    ensures MayReplace(kind, d, WithStatus(Noted(d, notes), status, now))
  {
    NotedOk(kind, d, notes);
    WithStatusOk(kind, Noted(d, notes), status, now);
  }

  lemma ReplaceHolds(docs: map<Id, Doc>, id: Id, d: Doc)
    requires CoveredOnce(docs) && id in docs
    requires d.number == docs[id].number && Covers(d) <= Covers(docs[id])
    ensures Cover(docs[id := d]) <= Cover(docs)
    ensures CoveredOnce(docs[id := d])
    ensures forall number :: Stored(docs[id := d], number) ==> Stored(docs, number)
  {
    var docs' := docs[id := d];
    forall t | t in Cover(docs')
      ensures t in Cover(docs)
    {
      var k :| k in docs' && t in Covers(docs'[k]);
      assert t in Covers(docs[k]);
    }
    forall number | Stored(docs', number)
      ensures Stored(docs, number)
    {
      var k :| k in docs' && docs'[k].number == number;
      assert docs[k].number == number;
    }
  }

  lemma ReplaceKeeps(b: Book, id: Id, d: Doc)
    requires BookInv(b) && id in b.docs
    requires MayReplace(b.kind, b.docs[id], d)
    ensures BookInv(b.(docs := b.docs[id := d]))
  {
    ReplaceHolds(b.docs, id, d);
    SessionSurvives(b, b.(docs := b.docs[id := d]));
  }

  lemma UpdateKeeps(b: Book, id: Id, status: Option<Status>, notes: Option<string>, now: int)
    requires BookInv(b)
    ensures BookInv(Update(b, id, status, notes, now).book)
  {
    if id in b.docs {
      var doc := b.docs[id];
      assert DocOk(b.kind, doc);
      if status.None? || status.value == doc.status {
        NotedOk(b.kind, doc, notes);
        ReplaceKeeps(b, id, Noted(doc, notes));
      } else if status.value in Transitions(b.kind, doc.status) {
        NotedWithStatusOk(b.kind, doc, status.value, notes, now);
        ReplaceKeeps(b, id, WithStatus(Noted(doc, notes), status.value, now));
      }
    }
  }

  lemma RemoveKeeps(b: Book, id: Id)
    requires BookInv(b)
    ensures BookInv(Remove(b, id).book)
  {
    var b' := Remove(b, id).book;
    if id in b.docs && b.docs[id].status == Draft {
      CoverWithout(b.docs, b'.docs, id);
      SessionSurvives(b, b');
    }
  }

  // ----- what one request leaves alone -----

  /** What never changes in a document: its number, client, period, issue date, lines,
      total and worker count, and, once it is paid or void, its status and payment. */
  ghost predicate Continues(d: Doc, d': Doc) {
    && (d'.Invoice? <==> d.Invoice?)
    && d'.number == d.number && d'.lines == d.lines && d'.total == d.total
    && d'.periodFrom == d.periodFrom && d'.periodTo == d.periodTo
    && (d.Invoice? ==> d'.clientId == d.clientId && d'.issueDate == d.issueDate)
    && (d.PayRun? ==> d'.workerCount == d.workerCount)
    && (d.status in {Paid, Void} ==>
          d'.status == d.status && d'.paidAt == d.paidAt && (d.Invoice? ==> d'.amountPaid == d.amountPaid))
  }

  /** Frozen at creation: whatever request runs, a document that survives continues. */
  ghost predicate Frozen(docs: map<Id, Doc>, docs': map<Id, Doc>) {
    forall id :: id in docs && id in docs' ==> Continues(docs[id], docs'[id])
  }

  lemma UpdateFreezes(b: Book, id: Id, status: Option<Status>, notes: Option<string>, now: int)
    ensures var b' := Update(b, id, status, notes, now).book;
            Frozen(b.docs, b'.docs) && b'.docs.Keys == b.docs.Keys
  {
  }

  // ----- paid totals -----

  /** The totals of the paid documents. */
  function PaidTotals(docs: map<Id, Doc>): map<Id, int> {
    map id | id in docs && docs[id].status == Paid :: docs[id].total
  }

  /** Paid is entered once, with the frozen total, exactly when an event is emitted. */
  lemma UpdatePays(b: Book, id: Id, status: Option<Status>, notes: Option<string>, now: int)
    ensures var b' := Update(b, id, status, notes, now).book;
            if Emits(b, id, status)
            then id in b'.docs && b'.docs[id].status == Paid && b'.docs[id].paidAt == Some(now)
                 && (b'.docs[id].Invoice? <==> b.docs[id].Invoice?)
                 && b'.docs[id].total == b.docs[id].total && id !in PaidTotals(b.docs)
                 && PaidTotals(b'.docs) == PaidTotals(b.docs)[id := b.docs[id].total]
            else PaidTotals(b'.docs) == PaidTotals(b.docs)
  {
  }

  lemma InsertPays(b: Book, id: Id)
    requires b.session.HasNumber? && id !in b.docs
    ensures PaidTotals(Insert(b, id).book.docs) == PaidTotals(b.docs)
  {
  }

  lemma RemovePays(b: Book, id: Id)
    ensures PaidTotals(Remove(b, id).book.docs) == PaidTotals(b.docs)
  {
  }

  // ----- any step -----

  /** Every step of a book keeps the invariant, whatever the trips have become. */
  lemma ApplyKeeps(b: Book, trips: map<Id, Trip>, clients: set<Id>, a: Action, used: set<Id>)
    requires BookInv(b) && Enabled(b, trips, a) && b.docs.Keys <= used && NewIds(a) !! used
    ensures var b' := Apply(b, trips, clients, a);
            BookInv(b') && b'.kind == b.kind && b'.docs.Keys <= used + NewIds(a)
  {
    match a
    case Begin(req) => ReadCoverKeeps(b, clients, req);
    case Snapshot(ids) => ReadTripsKeeps(b, trips, ids);
    case Number(number) => TakeNumberKeeps(b, number);
    case Store(id) => InsertKeeps(b, id);
    case Change(id, status, notes, now) =>
      UpdateKeeps(b, id, status, notes, now);
      UpdateFreezes(b, id, status, notes, now);
    case Delete(id) => RemoveKeeps(b, id);
  }

  /** No step alters a document beyond its status, payment and notes; a document
      that appears holds the lines of the create in flight. */
  lemma ApplyFreezes(b: Book, trips: map<Id, Trip>, clients: set<Id>, a: Action)
    requires Enabled(b, trips, a) && (a.Store? ==> a.id !in b.docs)
    ensures var b' := Apply(b, trips, clients, a);
            && Frozen(b.docs, b'.docs)
            && forall id :: id in b'.docs && id !in b.docs ==>
                 id in NewIds(a) && b.session.HasNumber? && b'.docs[id].lines == b.session.lines
  {
    match a
    case Change(id, status, notes, now) => UpdateFreezes(b, id, status, notes, now);
    case _ =>
  }

  /** A step changes what is paid exactly when it emits an event. */
  lemma ApplyPays(b: Book, trips: map<Id, Trip>, clients: set<Id>, a: Action)
    requires Enabled(b, trips, a) && (a.Store? ==> a.id !in b.docs)
    ensures var b' := Apply(b, trips, clients, a);
            if Pays(b, a)
            then a.id in b'.docs && b'.docs[a.id].status == Paid && b'.docs[a.id].paidAt.Some?
                 && (b'.docs[a.id].Invoice? <==> b.docs[a.id].Invoice?) && a.id !in PaidTotals(b.docs)
                 && PaidTotals(b'.docs) == PaidTotals(b.docs)[a.id := b'.docs[a.id].total]
            else PaidTotals(b'.docs) == PaidTotals(b.docs)
  {
    match a
    case Store(id) => InsertPays(b, id);
    case Change(id, status, notes, now) => UpdatePays(b, id, status, notes, now);
    case Delete(id) => RemovePays(b, id);
    case _ =>
  }
}
