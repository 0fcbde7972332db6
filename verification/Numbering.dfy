/** Which document numbers can be stored side by side, and so exactly when the next
    number is refused in a reachable state. */
module Numbering {
  import opened Common
  import opened Numerals
  import opened Documents
  import opened DocumentLaws

  // ----- numerals of different length -----

  function Digits(n: nat): nat { |Pad4(n)| }

  /** No greater than the least numeral of its length without a leading zero. */
  predicate Small(n: nat) { n <= Pow10(Digits(n) - 1) }

  /** A shorter number beside a longer one is small, or the longer one is the first of
      the next length. */
  predicate Spread(m: nat, k: nat) {
    Digits(m) < Digits(k) ==> Small(m) || k == Pow10(Digits(m))
  }

  lemma PowStrict(m: nat, n: nat)
    requires m < n
    ensures Pow10(m) < Pow10(n)
  {
    PowMonotone(m, n - 1);
  }

  lemma {:induction false} PrefixBound(a: string, b: string)
    requires TextLeq(a, b) && |a| <= |b|
    ensures TextLeq(a, b[..|a|])
  {
    if a == "" {
    } else {
      assert b[..|a|][0] == b[0] && b[..|a|][1..] == b[1..][..|a| - 1];
      if a[0] == b[0] {
        PrefixBound(a[1..], b[1..]);
      }
    }
  }

  lemma {:induction false} CutBound(a: string, b: string)
    requires TextLeq(a, b) && |b| < |a|
    ensures TextLeq(a[..|b|], b) && a[..|b|] != b
  {
    if b == "" {
    } else {
      assert a[..|b|][0] == a[0] && a[..|b|][1..] == a[1..][..|b| - 1];
      if a[0] == b[0] {
        CutBound(a[1..], b[1..]);
      }
    }
  }

  lemma PowerDigits(n: nat, d: nat)
    requires d >= 4 && n == Pow10(d)
    ensures Digits(n) == d + 1
  {
    PadBounds(n);
    if Digits(n) <= d {
      PowMonotone(Digits(n), d);
    } else if Digits(n) > d + 1 {
      PowStrict(d, Digits(n) - 1);
    }
  }

  /** What sorts no later than the first numeral of the next length is small. */
  lemma BelowPowerIsSmall(x: nat, n: nat)
    requires n == Pow10(Digits(x)) && TextLeq(Pad4(x), Pad4(n))
    ensures Small(x)
  {
    var a, b := Pad4(x), Pad4(n);
    PowerDigits(n, Digits(x));
    PrefixBound(a, b);
    TextOrderIsNumeric(a, b[..|a|]);
    PaddedValue(x);
    PaddedValue(n);
    assert Value(b) == 10 * Value(b[..|b| - 1]) + DigitValue(b[|b| - 1]);
  }

  /** A longer numeral never sorts before a small one. */
  lemma LongerSortsAfterSmall(n: nat, x: nat)
    requires Digits(n) < Digits(x) && Small(n)
    ensures !TextLeq(Pad4(x), Pad4(n))
  {
    var a, b := Pad4(x), Pad4(n);
    if TextLeq(a, b) {
      CutBound(a, b);
      var cut := a[..|b|];
      PaddedValue(n);
      DecimalLeads(x);
      PadBounds(x);
      assert cut[0] == a[0];
      LeadAtLeastPow(cut);
      TextOrderIsNumeric(cut, b);
      TextOrderIsNumeric(b, cut);
      TextLeqAntisym(cut, b);
    }
  }

  lemma SuccessorDigits(n: nat)
    ensures if AllNines(n) then n + 1 == Pow10(Digits(n)) && Digits(n + 1) == Digits(n) + 1
            else Digits(n + 1) == Digits(n)
  {
    DecimalSuccLength(n);
    PadBounds(n);
    PadBounds(n + 1);
  }

  lemma NinesAreNotAPower(n: nat, j: nat)
    requires AllNines(n) && j < Digits(n)
    ensures n > Pow10(j) && !Small(n)
  {
    SuccessorDigits(n);
    PowMonotone(j, Digits(n) - 1);
    assert Pow10(Digits(n)) == 10 * Pow10(Digits(n) - 1);
  }

  /** The successor of the number that sorts last keeps every pair spread. */
  lemma SuccessorSpreads(x: nat, n: nat)
    requires TextLeq(Pad4(x), Pad4(n)) && Spread(x, n) && Spread(n, x)
    ensures Spread(x, n + 1) && Spread(n + 1, x)
  {
    SuccessorDigits(n);
    if Digits(x) < Digits(n) && n == Pow10(Digits(x)) {
      if AllNines(n) {
        NinesAreNotAPower(n, Digits(x));
      } else {
        BelowPowerIsSmall(x, n);
      }
    }
    if Digits(n) < Digits(x) && Small(n) {
      LongerSortsAfterSmall(n, x);
    }
  }

  // ----- the numbers of a book -----

  /** Stored, or taken by the create in flight. */
  ghost predicate Taken(b: Book, year: nat, n: nat) {
    Stored(b.docs, FormatNumber(b.kind, year, n))
    || (b.session.HasNumber? && b.session.number == FormatNumber(b.kind, year, n))
  }

  ghost predicate AllSpread(b: Book) {
    forall year: nat, m: nat, k: nat {:trigger Taken(b, year, m), Taken(b, year, k)} ::
      Taken(b, year, m) && Taken(b, year, k) ==> Spread(m, k)
  }

  lemma NothingTaken(b: Book)
    requires b.docs == map[] && b.session.Idle?
    ensures AllSpread(b)
  {
    assert forall year: nat, n: nat :: !Taken(b, year, n);
  }

  lemma FewerTaken(b: Book, b': Book)
    requires AllSpread(b)
    requires forall year: nat, n: nat :: Taken(b', year, n) ==> Taken(b, year, n)
    ensures AllSpread(b')
  {
  }

  /** A number of one year is not one of another. */
  lemma SameYear(kind: Kind, y: nat, n: nat, year: nat, k: nat)
    requires FormatNumber(kind, y, n) == FormatNumber(kind, year, k)
    ensures y == year && n == k
  {
    assert Prefix(kind, y) <= FormatNumber(kind, year, k);
    PrefixTellsYear(kind, y, year, k);
    FormatInjective(kind, y, n, k);
  }

  lemma AfterLastSpreads(b: Book, year: nat, m: nat, x: nat)
    requires AllSpread(b) && Stored(b.docs, FormatNumber(b.kind, year, m)) &&
             Stored(b.docs, FormatNumber(b.kind, year, x))
    requires TextLeq(Pad4(x), Pad4(m))
    ensures Spread(x, m + 1) && Spread(m + 1, x)
  {
    assert Taken(b, year, m) && Taken(b, year, x);
    SuccessorSpreads(x, m);
  }

  lemma FirstOfYear(kind: Kind, docs: map<Id, Doc>, year: nat, number: string, y: nat, n: nat, x: nat)
    requires NumbersWith(docs, Prefix(kind, year)) == {} && IsNextNumber(docs, Prefix(kind, year), number)
    requires number == FormatNumber(kind, y, n)
    ensures !Stored(docs, FormatNumber(kind, y, x))
  {
    var one := 1;
    assert number == FormatNumber(kind, year, one);
    SameYear(kind, y, n, year, one);
    NoneStored(kind, docs, year);
  }

  lemma LaterInYear(kind: Kind, docs: map<Id, Doc>, year: nat, number: string, y: nat, n: nat) returns (m: nat)
    requires NumbersWith(docs, Prefix(kind, year)) != {} && IsNextNumber(docs, Prefix(kind, year), number)
    requires DocsOk(kind, docs) && number == FormatNumber(kind, y, n)
    ensures y == year && n == m + 1 && Stored(docs, FormatNumber(kind, year, m))
    ensures forall x: nat :: Stored(docs, FormatNumber(kind, year, x)) ==> TextLeq(Pad4(x), Pad4(m))
  {
    m := NextAfterLast(kind, docs, year, number);
    SameYear(kind, y, n, year, m + 1);
  }

  /** What a computed number comes after, when its year has numbers. */
  lemma ComesAfter(kind: Kind, docs: map<Id, Doc>, year: nat, number: string, y: nat, n: nat, x: nat) returns (m: nat)
    requires DocsOk(kind, docs) && IsNextNumber(docs, Prefix(kind, year), number)
    requires number == FormatNumber(kind, y, n) && Stored(docs, FormatNumber(kind, y, x))
    ensures y == year && n == m + 1
    ensures Stored(docs, FormatNumber(kind, y, m)) && TextLeq(Pad4(x), Pad4(m))
  {
    m := 0;
    if NumbersWith(docs, Prefix(kind, year)) == {} {
      FirstOfYear(kind, docs, year, number, y, n, x);
    } else {
      m := LaterInYear(kind, docs, year, number, y, n);
    }
  }

  /** The number just taken is spread from every stored one. */
  lemma NewNumberSpreads(b: Book, year: nat, number: string, y: nat, n: nat, x: nat)
    requires DocsOk(b.kind, b.docs) && AllSpread(b)
    requires IsNextNumber(b.docs, Prefix(b.kind, year), number)
    requires number == FormatNumber(b.kind, y, n) && Stored(b.docs, FormatNumber(b.kind, y, x))
    ensures Spread(x, n) && Spread(n, x)
  {
    var m := ComesAfter(b.kind, b.docs, year, number, y, n, x);
    AfterLastSpreads(b, y, m, x);
  }

  lemma NumberStep(b: Book, number: string)
    requires BookInv(b) && AllSpread(b) && b.session.HasLines?
    requires IsNextNumber(b.docs, Prefix(b.kind, b.session.req.year), number)
    ensures AllSpread(TakeNumber(b, number))
  {
    var b' := TakeNumber(b, number);
    var year := b.session.req.year;
    forall y: nat, m: nat, k: nat | Taken(b', y, m) && Taken(b', y, k)
      ensures Spread(m, k)
    {
      if Stored(b.docs, FormatNumber(b.kind, y, m)) && Stored(b.docs, FormatNumber(b.kind, y, k)) {
        assert Taken(b, y, m) && Taken(b, y, k);
      } else if Stored(b.docs, FormatNumber(b.kind, y, m)) {
        NewNumberSpreads(b, year, number, y, k, m);
      } else if Stored(b.docs, FormatNumber(b.kind, y, k)) {
        NewNumberSpreads(b, year, number, y, m, k);
      } else {
        FormatInjective(b.kind, y, m, k);
      }
    }
  }

  lemma OtherStepsTakeNone(b: Book, trips: map<Id, Trip>, clients: set<Id>, a: Action, year: nat, n: nat)
    requires Enabled(b, trips, a) && !a.Number? && (a.Store? ==> a.id !in b.docs)
    requires Taken(Apply(b, trips, clients, a), year, n)
    ensures Taken(b, year, n)
  {
    var b' := Apply(b, trips, clients, a);
    if Stored(b'.docs, FormatNumber(b.kind, year, n)) {
      var id :| id in b'.docs && b'.docs[id].number == FormatNumber(b.kind, year, n);
      ApplyFreezes(b, trips, clients, a);
      if id in b.docs {
        assert Continues(b.docs[id], b'.docs[id]);
      }
    }
  }

  /** Every step of a book keeps its numbers spread. */
  lemma StepKeepsSpread(b: Book, trips: map<Id, Trip>, clients: set<Id>, a: Action)
    requires BookInv(b) && AllSpread(b) && Enabled(b, trips, a) && (a.Store? ==> a.id !in b.docs)
    ensures AllSpread(Apply(b, trips, clients, a))
  {
    if a.Number? {
      NumberStep(b, a.number);
    } else {
      forall year: nat, n: nat | Taken(Apply(b, trips, clients, a), year, n)
        ensures Taken(b, year, n)
      {
        OtherStepsTakeNone(b, trips, clients, a, year, n);
      }
      FewerTaken(b, Apply(b, trips, clients, a));
    }
  }

  /** A number beyond the one that sorts last is stored. */
  ghost predicate StoredBeyond(b: Book, year: nat, last: nat) {
    exists k: nat :: k > last && Stored(b.docs, FormatNumber(b.kind, year, k))
  }

  /** The next number is refused exactly when the number that sorts last in its year is
      all nines and is not the greatest. */
  lemma RefusedIff(b: Book, year: nat, last: nat, number: string)
    requires BookInv(b) && AllSpread(b) && IsNextNumber(b.docs, Prefix(b.kind, year), number)
    requires IsLast(NumbersWith(b.docs, Prefix(b.kind, year)), FormatNumber(b.kind, year, last))
    ensures Stored(b.docs, number) <==> AllNines(last) && StoredBeyond(b, year, last)
  {
    NumberAfterLast(b.kind, b.docs, year, last, number);
    InYearIsStored(b.docs, Prefix(b.kind, year), FormatNumber(b.kind, year, last));
    if Stored(b.docs, number) {
      NextNumberFree(b.kind, b.docs, year, number);
      var j: nat :| AllNines(j) && number == FormatNumber(b.kind, year, j + 1);
      FormatInjective(b.kind, year, last + 1, j + 1);
    }
    if AllNines(last) && StoredBeyond(b, year, last) {
      var k: nat :| k > last && Stored(b.docs, FormatNumber(b.kind, year, k));
      assert Taken(b, year, last) && Taken(b, year, k);
      BeyondNines(last, k);
    }
  }

  lemma NumberAfterLast(kind: Kind, docs: map<Id, Doc>, year: nat, last: nat, number: string)
    requires IsNextNumber(docs, Prefix(kind, year), number)
    requires IsLast(NumbersWith(docs, Prefix(kind, year)), FormatNumber(kind, year, last))
    ensures number == FormatNumber(kind, year, last + 1)
  {
    NextAfter(kind, docs, year, last);
    NextNumberUnique(docs, Prefix(kind, year), number, FormatNumber(kind, year, last + 1));
  }

  lemma NextAfter(kind: Kind, docs: map<Id, Doc>, year: nat, last: nat)
    requires IsLast(NumbersWith(docs, Prefix(kind, year)), FormatNumber(kind, year, last))
    ensures IsNextNumber(docs, Prefix(kind, year), FormatNumber(kind, year, last + 1))
  {
    SuccessorOfFormat(kind, year, last);
    assert FormatNumber(kind, year, last) in NumbersWith(docs, Prefix(kind, year));
  }

  lemma SuccessorOfFormat(kind: Kind, year: nat, n: nat)
    ensures Successor(Prefix(kind, year), FormatNumber(kind, year, n)) == FormatNumber(kind, year, n + 1)
  {
    assert FormatNumber(kind, year, n)[|Prefix(kind, year)|..] == Pad4(n);
    ParseOfPad(n);
  }

  lemma InYearIsStored(docs: map<Id, Doc>, prefix: string, number: string)
    requires number in NumbersWith(docs, prefix)
    ensures Stored(docs, number)
  {
  }

  lemma BeyondNines(last: nat, k: nat)
    requires AllNines(last) && k > last && Spread(last, k)
    ensures k == last + 1
  {
    SuccessorDigits(last);
    NinesAreNotAPower(last, 0);
    PadBounds(k);
    if Digits(k) <= Digits(last) {
      PowMonotone(Digits(k), Digits(last));
    }
  }
}
