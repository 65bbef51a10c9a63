/** Dates of the proleptic Gregorian calendar, as `datetime.date` has them. */
module Calendar {
  import opened Text

  datatype Date = Date(year: nat, month: nat, day: nat)

  function DaysIn(year: nat, month: nat): nat {
    if month == 2 then (if year % 4 == 0 && (year % 100 != 0 || year % 400 == 0) then 29 else 28)
    else if month in {4, 6, 9, 11} then 30 else 31
  }

  function ToDate(year: nat, month: nat, day: nat): Option<Date> {
    if 1 <= year && 1 <= month <= 12 && 1 <= day <= DaysIn(year, month) then Some(Date(year, month, day)) else None
  }

  /** `date.isoformat()` */
  function IsoDate(on: Date): string { Fixed(on.year, 4) + "-" + TwoDigits(on.month) + "-" + TwoDigits(on.day) }

  /** Days since the end of the year 0. */
  function DayNumber(on: Date): int {
    var y := on.year - 1;
    365 * y + y / 4 - y / 100 + y / 400 + DaysBefore(on.year, on.month) + on.day
  }

  function DaysBefore(year: nat, month: nat): nat {
    if month <= 1 then 0 else DaysBefore(year, month - 1) + DaysIn(year, month - 1)
  }

  predicate Leap(year: nat) { year % 4 == 0 && (year % 100 != 0 || year % 400 == 0) }

  predicate IsDate(on: Date) { on.year >= 1 && 1 <= on.month <= 12 && 1 <= on.day <= DaysIn(on.year, on.month) }

  /** The day after. */
  function Tomorrow(on: Date): Date {
    if on.day < DaysIn(on.year, on.month) then Date(on.year, on.month, on.day + 1)
    else if on.month < 12 then Date(on.year, on.month + 1, 1)
    else Date(on.year + 1, 1, 1)
  }

  lemma YearLength(year: nat)
    requires year >= 1
    ensures DaysBefore(year, 12) + DaysIn(year, 12) == if Leap(year) then 366 else 365
  {
    assert DaysBefore(year, 2) == 31;
    var february := DaysIn(year, 2);
    assert DaysBefore(year, 4) == 31 + february + 31;
    assert DaysBefore(year, 6) == 31 + february + 31 + 30 + 31;
    assert DaysBefore(year, 8) == 31 + february + 31 + 30 + 31 + 30 + 31;
    assert DaysBefore(year, 10) == 31 + february + 31 + 30 + 31 + 30 + 31 + 31 + 30;
  }

  /** Among the multiples of `n`, the next number is one more or none. */
  lemma NextQuotient(y: nat, n: nat)
    requires n > 0
    ensures (y + 1) / n == y / n + if (y + 1) % n == 0 then 1 else 0
  {
    var q, r := y / n, y % n;
    assert y == q * n + r;
    if r + 1 == n {
      assert y + 1 == (q + 1) * n;
      Divided(y + 1, q + 1, 0, n);
    } else {
      Divided(y + 1, q, r + 1, n);
    }
  }

  lemma Divided(x: nat, q: nat, r: nat, n: nat)
    requires r < n && x == q * n + r
    ensures x / n == q && x % n == r
  {
    var k := x / n - q;
    assert k * n == r - x % n;
    assert k >= 1 ==> k * n >= n;
    assert k <= -1 ==> k * n + n <= 0;
  }

  /** Years that are over by the end of year `y`, in days. */
  function YearDays(y: nat): int { 365 * y + y / 4 - y / 100 + y / 400 }

  lemma NextYear(y: nat)
    ensures YearDays(y + 1) == YearDays(y) + if Leap(y + 1) then 366 else 365
  {
    NextQuotient(y, 4);
    NextQuotient(y, 100);
    NextQuotient(y, 400);
    Multiples(y + 1);
  }

  lemma Multiples(y: nat)
    ensures y % 400 == 0 ==> y % 100 == 0
    ensures y % 100 == 0 ==> y % 4 == 0
  {
    if y % 400 == 0 {
      Divided(y, 4 * (y / 400), 0, 100);
    }
    if y % 100 == 0 {
      Divided(y, 25 * (y / 100), 0, 4);
    }
  }

  lemma FirstOfYear(year: nat)
    requires year >= 1
    ensures DayNumber(Date(year, 1, 1)) == YearDays(year - 1) + 1
  {
  }

  lemma LastOfYear(year: nat)
    requires year >= 1
    ensures DayNumber(Date(year, 12, 31)) == YearDays(year - 1) + if Leap(year) then 366 else 365
  {
    YearLength(year);
  }

  lemma FirstOfMonth(year: nat, month: nat)
    requires year >= 1 && 1 <= month < 12
    ensures DayNumber(Date(year, month + 1, 1)) == DayNumber(Date(year, month, DaysIn(year, month))) + 1
  {
  }

  lemma FirstDay()
    ensures DayNumber(Date(1, 1, 1)) == 1
  {
  }

  lemma SameMonth(on: Date)
    requires on.year >= 1
    ensures DayNumber(Date(on.year, on.month, on.day + 1)) == DayNumber(on) + 1
  {
  }

  lemma TomorrowIsDate(on: Date)
    requires IsDate(on)
    ensures IsDate(Tomorrow(on))
  {
  }

  /** Days are numbered one by one, from 1 for the first of January of the year 1. */
  lemma NextDay(on: Date)
    requires IsDate(on)
    ensures IsDate(Tomorrow(on)) && DayNumber(Tomorrow(on)) == DayNumber(on) + 1
  {
    TomorrowIsDate(on);
    if on.day < DaysIn(on.year, on.month) {
      SameMonth(on);
    } else if on.month < 12 {
      FirstOfMonth(on.year, on.month);
    } else {
      LastOfYear(on.year);
      FirstOfYear(on.year + 1);
      NextYear(on.year - 1);
    }
  }

  lemma Year2026()
    ensures Decimal(2026) == "2026"
  {
    assert Decimal(2) == "2";
    assert Decimal(20) == "20";
    assert Decimal(202) == "202";
  }
}
