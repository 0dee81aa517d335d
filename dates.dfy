/** ISO `YYYY-MM-DD` release dates and the newest-first stable sort that
    both the aggregator (services/aggregator.js:61) and the mock provider
    (providers/mockProvider.js:88) apply with the comparator
    `new Date(b.releaseDate) - new Date(a.releaseDate)`. */
module Dates {

  predicate IsDigit(c: char)
  {
    '0' <= c <= '9'
  }

  function DigitValue(c: char): int
    requires IsDigit(c)
  {
    c as int - '0' as int
  }

  predicate IsLeapYear(y: int)
  {
    y % 4 == 0 && (y % 100 != 0 || y % 400 == 0)
  }

  function DaysInMonth(y: int, m: int): int
  {
    if m == 2 then (if IsLeapYear(y) then 29 else 28)
    else if m == 4 || m == 6 || m == 9 || m == 11 then 30
    else 31
  }

  /** Ten characters, digits except for dashes at positions 4 and 7. */
  predicate HasIsoShape(s: string)
  {
    && |s| == 10 && s[4] == '-' && s[7] == '-'
    && IsDigit(s[0]) && IsDigit(s[1]) && IsDigit(s[2]) && IsDigit(s[3])
    && IsDigit(s[5]) && IsDigit(s[6]) && IsDigit(s[8]) && IsDigit(s[9])
  }

  function Year(s: string): int
    requires HasIsoShape(s)
  {
    1000 * DigitValue(s[0]) + 100 * DigitValue(s[1]) + 10 * DigitValue(s[2]) + DigitValue(s[3])
  }

  function Month(s: string): int
    requires HasIsoShape(s)
  {
    10 * DigitValue(s[5]) + DigitValue(s[6])
  }

  function Day(s: string): int
    requires HasIsoShape(s)
  {
    10 * DigitValue(s[8]) + DigitValue(s[9])
  }

  /** A calendar date written as `YYYY-MM-DD`: what `new Date` parses to a
      valid date. */
  predicate IsIsoDate(s: string)
  {
    HasIsoShape(s) && 1 <= Month(s) <= 12 && 1 <= Day(s) <= DaysInMonth(Year(s), Month(s))
  }

  /** A number that orders ISO dates chronologically (the sign of the
      difference of two of them is that of the difference of the two `Date`s). */
  function DayNumber(s: string): int
    requires IsIsoDate(s)
  {
    Year(s) * 10000 + Month(s) * 100 + Day(s)
  }

  ghost predicate AllDated<T>(xs: seq<T>, date: T -> string)
  {
    forall i :: 0 <= i < |xs| ==> IsIsoDate(date(xs[i]))
  }

  /** Every adjacent pair has a non-increasing release date. */
  ghost predicate NewestFirst<T>(xs: seq<T>, date: T -> string)
  {
    AllDated(xs, date) && forall i :: 0 < i < |xs| ==> DayNumber(date(xs[i - 1])) >= DayNumber(date(xs[i]))
  }

  /** Inserts x in front of the first element that is not strictly newer. */
  function InsertNewestFirst<T>(x: T, s: seq<T>, date: T -> string): (r: seq<T>)
    requires IsIsoDate(date(x)) && AllDated(s, date)
    ensures multiset(r) == multiset(s) + multiset{x}
    ensures AllDated(r, date)
    ensures r[0] == x || (s != [] && r[0] == s[0])
  {
    if s == [] || DayNumber(date(s[0])) <= DayNumber(date(x)) then [x] + s
    else
      var rest := InsertNewestFirst(x, s[1..], date);
      assert s == [s[0]] + s[1..];
      [s[0]] + rest
  }

  /** Inserting into a newest-first list keeps it newest first. */
  lemma {:induction false} InsertKeepsOrder<T>(x: T, s: seq<T>, date: T -> string)
    requires IsIsoDate(date(x)) && NewestFirst(s, date)
    ensures NewestFirst(InsertNewestFirst(x, s, date), date)
  {
    if s != [] && DayNumber(date(s[0])) > DayNumber(date(x)) {
      var rest := InsertNewestFirst(x, s[1..], date);
      InsertKeepsOrder(x, s[1..], date);
      var r := [s[0]] + rest;
      assert r == InsertNewestFirst(x, s, date);
      forall i | 0 < i < |r| ensures DayNumber(date(r[i - 1])) >= DayNumber(date(r[i])) {
        if i > 1 {
          assert r[i - 1] == rest[i - 2] && r[i] == rest[i - 1];
        } else if rest[0] != x {
          assert rest[0] == s[1] && DayNumber(date(s[0])) >= DayNumber(date(s[1]));
        }
      }
    }
  }

  /** A stable sort, newest release first. */
  function SortNewestFirst<T>(xs: seq<T>, date: T -> string): (r: seq<T>)
    requires AllDated(xs, date)
    ensures multiset(r) == multiset(xs)
    ensures NewestFirst(r, date)
  {
    if xs == [] then []
    else
      assert xs == [xs[0]] + xs[1..];
      var sorted := SortNewestFirst(xs[1..], date);
      InsertKeepsOrder(xs[0], sorted, date);
      InsertNewestFirst(xs[0], sorted, date)
  }

  /** The elements of xs released on day d, in order. */
  ghost function ReleasedOn<T>(xs: seq<T>, date: T -> string, d: int): seq<T>
    requires AllDated(xs, date)
  {
    if xs == [] then []
    else (if DayNumber(date(xs[0])) == d then [xs[0]] else []) + ReleasedOn(xs[1..], date, d)
  }

  /** ReleasedOn of a list with a known first element. */
  lemma ReleasedOnCons<T>(y: T, t: seq<T>, date: T -> string, d: int)
    requires IsIsoDate(date(y)) && AllDated(t, date)
    ensures AllDated([y] + t, date)
    ensures ReleasedOn([y] + t, date, d) == (if DayNumber(date(y)) == d then [y] else []) + ReleasedOn(t, date, d)
  {
    var r := [y] + t;
    assert r[0] == y && r[1..] == t;
  }

  lemma {:induction false} InsertReleasedOn<T>(x: T, s: seq<T>, date: T -> string, d: int)
    requires IsIsoDate(date(x)) && AllDated(s, date)
    ensures ReleasedOn(InsertNewestFirst(x, s, date), date, d)
            == (if DayNumber(date(x)) == d then [x] else []) + ReleasedOn(s, date, d)
  {
    if s != [] && DayNumber(date(s[0])) > DayNumber(date(x)) {
      var rest := InsertNewestFirst(x, s[1..], date);
      var tail := ReleasedOn(s[1..], date, d);
      InsertReleasedOn(x, s[1..], date, d);
      ReleasedOnCons(s[0], rest, date, d);
      ReleasedOnCons(s[0], s[1..], date, d);
      assert s == [s[0]] + s[1..];
      assert InsertNewestFirst(x, s, date) == [s[0]] + rest;
      if DayNumber(date(s[0])) == d {
        assert ReleasedOn(rest, date, d) == tail;
      } else {
        assert ReleasedOn(s, date, d) == tail;
      }
    } else {
      ReleasedOnCons(x, s, date, d);
    }
  }

  /** Stability: among the games released on the same day, the sort keeps
      the input order. Together with the permutation and the order stated by
      SortNewestFirst this determines the output completely. */
  lemma {:induction false} SortIsStable<T>(xs: seq<T>, date: T -> string, d: int)
    requires AllDated(xs, date)
    ensures ReleasedOn(SortNewestFirst(xs, date), date, d) == ReleasedOn(xs, date, d)
  {
    if xs != [] {
      SortIsStable(xs[1..], date, d);
      InsertReleasedOn(xs[0], SortNewestFirst(xs[1..], date), date, d);
    }
  }
}
