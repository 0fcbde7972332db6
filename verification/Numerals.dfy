/** Decimal numerals as text: printing, zero padding, parsing, and the text
    order the database sorts document numbers by. */
module Numerals {
  import opened Common

  predicate IsDigit(c: char) { '0' <= c <= '9' }

  predicate AllDigits(s: string) { forall i :: 0 <= i < |s| ==> IsDigit(s[i]) }

  function DigitChar(d: nat): char
    requires d < 10
  {
    "0123456789"[d]
  }

  function DigitValue(c: char): nat
    requires IsDigit(c)
  {
    c as int - '0' as int
  }

  /** `String(n)`. */
  function Decimal(n: nat): (s: string)
    ensures |s| > 0 && AllDigits(s)
  {
    if n < 10 then [DigitChar(n)] else Decimal(n / 10) + [DigitChar(n % 10)]
  }

  function Zeros(n: nat): (s: string)
    ensures |s| == n && forall i :: 0 <= i < n ==> s[i] == '0'
  {
    seq(n, _ => '0')
  }

  /** `String(n).padStart(4, '0')`. */
  function Pad4(n: nat): (s: string)
    ensures |s| >= 4 && AllDigits(s)
  {
    var d := Decimal(n);
    if |d| < 4 then Zeros(4 - |d|) + d else d
  }

  /** The number a digit string denotes. */
  function Value(s: string): nat
    requires AllDigits(s)
  {
    if s == "" then 0 else 10 * Value(s[..|s| - 1]) + DigitValue(s[|s| - 1])
  }

  function LeadingDigits(s: string): (p: string)
    ensures AllDigits(p) && p <= s
  {
    if s == "" || !IsDigit(s[0]) then "" else [s[0]] + LeadingDigits(s[1..])
  }

  /** `parseInt(s, 10)` on text without leading blanks or sign: the value of the
      longest digit prefix, `None` standing for NaN. */
  function ParseInt(s: string): Option<nat> {
    var p := LeadingDigits(s);
    if p == "" then None else Some(Value(p))
  }

  // ----- printing and parsing are inverse -----

  lemma {:induction false} LeadingDigitsOfDigits(s: string)
    requires AllDigits(s)
    ensures LeadingDigits(s) == s
  {
    if s == "" {
    } else {
      LeadingDigitsOfDigits(s[1..]);
    }
  }

  lemma {:induction false} DecimalValue(n: nat)
    ensures Value(Decimal(n)) == n
  {
    if n < 10 {
    } else {
      DecimalValue(n / 10);
      assert Decimal(n)[..|Decimal(n)| - 1] == Decimal(n / 10);
    }
  }

  lemma {:induction false} LeadingZerosAddNothing(k: nat, s: string)
    requires AllDigits(s)
    ensures Value(Zeros(k) + s) == Value(s)
    decreases |s|, k
  {
    var t := Zeros(k) + s;
    if s == "" {
      if k > 0 {
        assert t[..k - 1] == Zeros(k - 1) + "";
        LeadingZerosAddNothing(k - 1, "");
      }
    } else {
      assert t[..|t| - 1] == Zeros(k) + s[..|s| - 1];
      LeadingZerosAddNothing(k, s[..|s| - 1]);
    }
  }

  lemma PaddedValue(n: nat)
    ensures Value(Pad4(n)) == n
  {
    DecimalValue(n);
    var d := Decimal(n);
    if |d| < 4 {
      LeadingZerosAddNothing(4 - |d|, d);
    }
  }

  /** Format then parse is the identity, for every sequence number. */
  lemma ParseOfPad(n: nat)
    ensures ParseInt(Pad4(n)) == Some(n)
  {
    LeadingDigitsOfDigits(Pad4(n));
    PaddedValue(n);
  }

  lemma PadInjective(m: nat, n: nat)
    requires Pad4(m) == Pad4(n)
    ensures m == n
  {
    PaddedValue(m);
    PaddedValue(n);
  }

  lemma DecimalInjective(m: nat, n: nat)
    requires Decimal(m) == Decimal(n)
    ensures m == n
  {
    DecimalValue(m);
    DecimalValue(n);
  }

  // ----- text order -----

  /** Lexicographic comparison by character, as `ORDER BY` compares text. */
  predicate TextLeq(a: string, b: string) {
    a == "" || (b != "" && (a[0] < b[0] || (a[0] == b[0] && TextLeq(a[1..], b[1..]))))
  }

  lemma {:induction false} TextLeqRefl(a: string)
    ensures TextLeq(a, a)
  {
    if a == "" {
    } else {
      TextLeqRefl(a[1..]);
    }
  }

  lemma {:induction false} TextLeqTotal(a: string, b: string)
    ensures TextLeq(a, b) || TextLeq(b, a)
  {
    if a == "" || b == "" {
    } else if a[0] == b[0] {
      TextLeqTotal(a[1..], b[1..]);
    }
  }

  lemma {:induction false} TextLeqTrans(a: string, b: string, c: string)
    requires TextLeq(a, b) && TextLeq(b, c)
    ensures TextLeq(a, c)
  {
    if a == "" {
    } else if a[0] == b[0] && b[0] == c[0] {
      TextLeqTrans(a[1..], b[1..], c[1..]);
    }
  }

  lemma {:induction false} TextLeqAntisym(a: string, b: string)
    requires TextLeq(a, b) && TextLeq(b, a)
    ensures a == b
  {
    if a == "" {
    } else {
      TextLeqAntisym(a[1..], b[1..]);
      assert a == [a[0]] + a[1..] && b == [b[0]] + b[1..];
    }
  }

  /** A shared prefix does not affect the order. */
  lemma {:induction false} TextLeqPrefix(p: string, a: string, b: string)
    ensures TextLeq(p + a, p + b) <==> TextLeq(a, b)
  {
    if p == "" {
      assert p + a == a && p + b == b;
    } else {
      assert (p + a)[1..] == p[1..] + a && (p + b)[1..] == p[1..] + b;
      TextLeqPrefix(p[1..], a, b);
    }
  }

  function Pow10(n: nat): (r: nat)
    ensures r >= 1
  {
    if n == 0 then 1 else 10 * Pow10(n - 1)
  }

  /** Splitting off the first digit of a numeral. */
  lemma {:induction false} ValueCons(s: string)
    requires AllDigits(s) && s != ""
    ensures Value(s) == DigitValue(s[0]) * Pow10(|s| - 1) + Value(s[1..])
    ensures Value(s[1..]) < Pow10(|s| - 1)
    decreases |s|
  {
    if |s| == 1 {
    } else {
      var init := s[..|s| - 1];
      ValueCons(init);
      assert init[1..] == s[1..][..|s| - 2];
      var p := Pow10(|s| - 2);
      assert Pow10(|s| - 1) == 10 * p;
      assert Value(s[1..]) == 10 * Value(init[1..]) + DigitValue(s[|s| - 1]);
      Distribute(DigitValue(s[0]), p);
    }
  }

  lemma Distribute(d: nat, p: nat)
    ensures 10 * (d * p) == d * (10 * p)
  {
  }

  /** On numerals of equal length, text order is numeric order. */
  lemma {:induction false} TextOrderIsNumeric(a: string, b: string)
    requires AllDigits(a) && AllDigits(b) && |a| == |b|
    ensures TextLeq(a, b) <==> Value(a) <= Value(b)
  {
    if a == "" {
    } else {
      ValueCons(a);
      ValueCons(b);
      TextOrderIsNumeric(a[1..], b[1..]);
      var p := Pow10(|a| - 1);
      if a[0] < b[0] {
        LeadDominates(DigitValue(a[0]), DigitValue(b[0]), p);
      } else if b[0] < a[0] {
        LeadDominates(DigitValue(b[0]), DigitValue(a[0]), p);
      }
    }
  }

  lemma {:induction false} LeadDominates(x: nat, y: nat, p: nat)
    requires x < y
    ensures x * p + p <= y * p
  {
    if x + 1 < y {
      LeadDominates(x, y - 1, p);
    }
    assert y * p == (y - 1) * p + p;
  }

  // ----- where text order stops being numeric order -----

  /** `n` prints as 9999, 99999, …: at least four digits, all of them 9. */
  predicate AllNines(n: nat) {
    |Decimal(n)| >= 4 && forall i :: 0 <= i < |Decimal(n)| ==> Decimal(n)[i] == '9'
  }

  /** The successor has as many digits, unless every digit is a 9. */
  lemma {:induction false} DecimalSuccLength(n: nat)
    ensures |Decimal(n + 1)| ==
            |Decimal(n)| + if (forall i :: 0 <= i < |Decimal(n)| ==> Decimal(n)[i] == '9') then 1 else 0
  {
    if n >= 10 {
      DecimalSuccLength(n / 10);
      var d, q := Decimal(n), Decimal(n / 10);
      assert d == q + [DigitChar(n % 10)];
      if n % 10 == 9 {
        assert (n + 1) / 10 == n / 10 + 1;
        assert (forall i :: 0 <= i < |d| ==> d[i] == '9') <==> (forall i :: 0 <= i < |q| ==> q[i] == '9') by {
          if forall i :: 0 <= i < |d| ==> d[i] == '9' {
            forall i | 0 <= i < |q|
              ensures q[i] == '9'
            {
              assert d[i] == '9';
            }
          }
        }
      } else {
        assert (n + 1) / 10 == n / 10;
        assert d[|d| - 1] != '9';
      }
    } else if n == 9 {
      assert Decimal(10) == Decimal(1) + [DigitChar(0)];
    } else {
      assert Decimal(n)[0] != '9';
    }
  }

  /** The padded successor is text-greater exactly when the numeral is not all
      nines: at 9999 the next numeral, 10000, sorts before it. */
  lemma PadSuccessorOrder(n: nat)
    ensures TextLeq(Pad4(n), Pad4(n + 1)) <==> !AllNines(n)
    ensures !TextLeq(Pad4(n + 1), Pad4(n)) <==> !AllNines(n)
  {
    DecimalSuccLength(n);
    PaddedValue(n);
    PaddedValue(n + 1);
    if AllNines(n) {
      NinesBeforeOne(n);
    } else {
      assert |Pad4(n)| == |Pad4(n + 1)|;
      TextOrderIsNumeric(Pad4(n), Pad4(n + 1));
      TextOrderIsNumeric(Pad4(n + 1), Pad4(n));
    }
  }

  lemma NinesBeforeOne(n: nat)
    requires AllNines(n)
    ensures !TextLeq(Pad4(n), Pad4(n + 1)) && TextLeq(Pad4(n + 1), Pad4(n))
  {
    var a, b := Decimal(n), Decimal(n + 1);
    DecimalSuccLength(n);
    assert a[0] == '9';
    DecimalValue(n);
    DecimalValue(n + 1);
    ValueBelowPow10(a);
    LowValueLowDigit(b);
  }

  lemma ValueBelowPow10(s: string)
    requires AllDigits(s) && s != ""
    ensures Value(s) < Pow10(|s|)
  {
    ValueCons(s);
    LeadDominates(DigitValue(s[0]), 10, Pow10(|s| - 1));
  }

  /** A numeral worth at most 10^(length-1) cannot start with 9. */
  lemma LowValueLowDigit(s: string)
    requires AllDigits(s) && s != "" && Value(s) <= Pow10(|s| - 1)
    ensures s[0] < '9'
  {
    ValueCons(s);
    if s[0] == '9' {
      LeadDominates(1, 9, Pow10(|s| - 1));
    }
  }

  lemma AtMostFour(n: nat)
    requires n <= 9999
    ensures |Decimal(n)| <= 4
  {
    assert n / 10 / 10 == n / 100 && n / 100 / 10 == n / 1000;
    assert |Decimal(n / 1000)| == 1;
    assert |Decimal(n / 100)| <= 2;
    assert |Decimal(n / 10)| <= 3;
  }

  lemma FourDigits(n: nat)
    requires n <= 9999
    ensures |Pad4(n)| == 4
    ensures n < 9999 ==> !AllNines(n)
  {
    AtMostFour(n);
    if AllNines(n) {
      var d := Decimal(n);
      assert d[0] == '9' && d[1] == '9' && d[2] == '9' && d[3] == '9';
      assert d == "9999";
      DecimalValue(n);
      assert Value("9999") == 9999 by {
        assert "9999"[..3] == "999" && "999"[..2] == "99" && "99"[..1] == "9" && "9"[..0] == "";
      }
    }
  }

  lemma FiveDigits(n: nat)
    ensures n > 9999 ==> |Pad4(n)| > 4
  {
    if n > 9999 {
      assert n / 10 > 999 && n / 10 / 10 > 99 && n / 10 / 10 / 10 > 9;
      assert |Decimal(n)| == |Decimal(n / 10)| + 1;
      assert |Decimal(n / 10)| == |Decimal(n / 10 / 10)| + 1;
      assert |Decimal(n / 10 / 10)| == |Decimal(n / 10 / 10 / 10)| + 1;
      assert |Decimal(n / 10 / 10 / 10)| > 1;
    }
  }

  /** While sequence numbers stay at most 9999, text order is numeric order. */
  lemma PadOrderIsNumeric(m: nat, n: nat)
    requires m <= 9999 && n <= 9999
    ensures TextLeq(Pad4(m), Pad4(n)) <==> m <= n
  {
    FourDigits(m);
    FourDigits(n);
    PaddedValue(m);
    PaddedValue(n);
    TextOrderIsNumeric(Pad4(m), Pad4(n));
  }

  /** No numeral sorts after a longer run of nines. */
  lemma {:induction false} NinesAboveShorter(a: string, b: string)
    requires AllDigits(b) && |b| < |a| && forall i :: 0 <= i < |a| ==> a[i] == '9'
    ensures !TextLeq(a, b)
  {
    if b == "" {
    } else {
      NinesAboveShorter(a[1..], b[1..]);
    }
  }

  /** Among the numbers up to an all-nines one, it sorts last. */
  lemma NinesSortLast(m: nat, n: nat)
    requires AllNines(m) && n <= m && TextLeq(Pad4(m), Pad4(n))
    ensures n == m
  {
    PaddedValue(m);
    PaddedValue(n);
    if |Pad4(n)| == |Pad4(m)| {
      TextOrderIsNumeric(Pad4(m), Pad4(n));
    } else if |Pad4(n)| < |Pad4(m)| {
      NinesAboveShorter(Pad4(m), Pad4(n));
    } else {
      PadBounds(m);
      PadBounds(n);
      PowMonotone(|Pad4(m)|, |Pad4(n)| - 1);
    }
  }

  // ----- digits against powers of ten -----

  lemma {:induction false} PowMonotone(m: nat, n: nat)
    requires m <= n
    ensures Pow10(m) <= Pow10(n)
  {
    if m == n {
    } else {
      PowMonotone(m, n - 1);
    }
  }

  lemma {:induction false} DecimalLeads(n: nat)
    ensures n > 0 ==> Decimal(n)[0] != '0'
  {
    if n < 10 {
    } else {
      DecimalLeads(n / 10);
    }
  }

  /** A padded numeral of more than four digits has no leading zero. */
  lemma PadBounds(n: nat)
    ensures n < Pow10(|Pad4(n)|)
    ensures |Pad4(n)| > 4 ==> Pow10(|Pad4(n)| - 1) <= n
  {
    var s := Pad4(n);
    PaddedValue(n);
    ValueBelowPow10(s);
    if |s| > 4 {
      DecimalLeads(n);
      LeadAtLeastPow(s);
    }
  }

  lemma LeadAtLeastPow(s: string)
    requires AllDigits(s) && s != "" && s[0] != '0'
    ensures Value(s) >= Pow10(|s| - 1)
  {
    ValueCons(s);
    LeadDominates(0, DigitValue(s[0]), Pow10(|s| - 1));
  }
}
