/**
 Instants counted from the calendar alone: days since the start of year 0 by month
 lengths, times the nanoseconds of a day. The order of timestamps is the order of these.
 */
module Calendar {
  import opened Rfc3339

  function DaysToMonth(year: nat, month: nat): nat
    requires month >= 1
  {
    if month == 1 then 0 else DaysToMonth(year, month - 1) + DaysIn(year, month - 1)
  }

  function DaysToYear(year: nat): nat {
    if year == 0 then 0 else DaysToYear(year - 1) + DaysToMonth(year - 1, 13)
  }

  function DayNumber(t: Time): int
    requires Valid(t)
  {
    DaysToYear(t.year) + DaysToMonth(t.year, t.month) + t.day - 1
  }

  function NanoOfDay(t: Time): nat {
    ((t.hour * 60 + t.minute) * 60 + t.second) * 1_000_000_000 + t.nano
  }

  /** Nanoseconds since the start of year 0. */
  function Instant(t: Time): int
    requires Valid(t)
  {
    DayNumber(t) * 86_400_000_000_000 + NanoOfDay(t)
  }

  // ----- the calendar is the Gregorian one -----

  lemma MonthLengths(year: nat)
    ensures DaysIn(year, 1) == 31 && DaysIn(year, 3) == 31 && DaysIn(year, 4) == 30 && DaysIn(year, 5) == 31
    ensures DaysIn(year, 6) == 30 && DaysIn(year, 7) == 31 && DaysIn(year, 8) == 31 && DaysIn(year, 9) == 30
    ensures DaysIn(year, 10) == 31 && DaysIn(year, 11) == 30 && DaysIn(year, 12) == 31
    ensures DaysIn(2000, 2) == 29 && DaysIn(1900, 2) == 28 && DaysIn(2024, 2) == 29 && DaysIn(2023, 2) == 28
  {}

  lemma YearLength(year: nat)
    ensures DaysToMonth(year, 13) == 337 + DaysIn(year, 2)
  {
    MonthLengths(year);
    var feb := DaysIn(year, 2);
    assert DaysToMonth(year, 1) == 0;
    assert DaysToMonth(year, 2) == 31;
    assert DaysToMonth(year, 3) == 31 + feb;
    assert DaysToMonth(year, 4) == 62 + feb;
    assert DaysToMonth(year, 5) == 92 + feb;
    assert DaysToMonth(year, 6) == 123 + feb;
    assert DaysToMonth(year, 7) == 153 + feb;
    assert DaysToMonth(year, 8) == 184 + feb;
    assert DaysToMonth(year, 9) == 215 + feb;
    assert DaysToMonth(year, 10) == 245 + feb;
    assert DaysToMonth(year, 11) == 276 + feb;
    assert DaysToMonth(year, 12) == 306 + feb;
  }

  lemma OneMoreQuotient(n: nat, d: nat)
    requires d > 0
    ensures (n + d) / d == n / d + 1
    ensures (n + d - 1) / d == if n % d == 0 then n / d else n / d + 1
  {
    var q, r := n / d, n % d;
    assert n == q * d + r;
    QuotientIs(n + d, d, q + 1, r);
    if r == 0 { QuotientIs(n + d - 1, d, q, d - 1); } else { QuotientIs(n + d - 1, d, q + 1, r - 1); }
  }

  lemma QuotientIs(n: nat, d: nat, q: nat, r: nat)
    requires r < d && n == q * d + r
    ensures n / d == q
  {
    var p, s := n / d, n % d;
    assert (p - q) * d == r - s;
    if p - q >= 1 { Scaled(1, p - q, d); }
    if p - q <= -1 { Scaled(p - q, -1, d); }
  }

  lemma Scaled(a: int, b: int, d: nat)
    requires a <= b
    ensures a * d <= b * d
  {
  }

  lemma NoRemainder(n: nat, d: nat, k: nat)
    requires d > 0 && k > 0 && n % (d * k) == 0
    ensures n % d == 0
  {
    var q := n / (d * k);
    assert n == (k * q) * d;
    QuotientIs(n, d, k * q, 0);
  }

  lemma LeapYear(year: nat)
    ensures DaysIn(year, 2) == 28
      + (if year % 4 == 0 then 1 else 0) - (if year % 100 == 0 then 1 else 0) + (if year % 400 == 0 then 1 else 0)
  {
    if year % 400 == 0 { NoRemainder(year, 100, 4); }
    if year % 100 == 0 { NoRemainder(year, 4, 25); }
  }

  lemma NextYear(last: nat)
    ensures DaysToYear(last + 1) == DaysToYear(last) + 365
      + (if last % 4 == 0 then 1 else 0) - (if last % 100 == 0 then 1 else 0) + (if last % 400 == 0 then 1 else 0)
  {
    YearLength(last);
    LeapYear(last);
  }

  /** Multiples of `n` below `year`, year 0 included. */
  function MultiplesBelow(n: nat, year: nat): nat
    requires n > 0
  {
    (year + n - 1) / n
  }

  lemma OneMoreMultiple(n: nat, last: nat)
    requires n > 0
    ensures MultiplesBelow(n, last + 1) == MultiplesBelow(n, last) + if last % n == 0 then 1 else 0
  {
    OneMoreQuotient(last, n);
  }

  /** The days before a year: 365 each, and one more for every fourth, but not every hundredth, but every 400th. */
  lemma {:induction false} DaysBeforeYear(year: nat)
    ensures DaysToYear(year) ==
      365 * year + MultiplesBelow(4, year) - MultiplesBelow(100, year) + MultiplesBelow(400, year)
  {
    if year > 0 {
      var last := year - 1;
      DaysBeforeYear(last);
      NextYear(last);
      OneMoreMultiple(4, last);
      OneMoreMultiple(100, last);
      OneMoreMultiple(400, last);
    }
  }

  // ----- timestamps compare as instants -----

  lemma {:induction false} MonthsAdvance(year: nat, m: nat, n: nat)
    requires 1 <= m < n
    ensures DaysToMonth(year, m) + DaysIn(year, m) <= DaysToMonth(year, n)
  {
    if m + 1 < n { MonthsAdvance(year, m, n - 1); }
  }

  lemma {:induction false} YearsAdvance(y: nat, z: nat)
    requires y < z
    ensures DaysToYear(y) + DaysToMonth(y, 13) <= DaysToYear(z)
  {
    if y + 1 < z { YearsAdvance(y, z - 1); }
  }

  predicate EarlierDate(a: Time, b: Time) {
    a.year < b.year || (a.year == b.year && (a.month < b.month || (a.month == b.month && a.day < b.day)))
  }

  lemma DatesAdvance(a: Time, b: Time)
    requires Valid(a) && Valid(b) && EarlierDate(a, b)
    ensures DayNumber(a) < DayNumber(b)
  {
    if a.year < b.year {
      YearsAdvance(a.year, b.year);
      MonthsAdvance(a.year, a.month, 13);
    } else if a.month < b.month {
      MonthsAdvance(a.year, a.month, b.month);
    }
  }

  lemma NanoInDay(t: Time)
    requires Valid(t)
    ensures NanoOfDay(t) < 86_400_000_000_000
  {}

  lemma TimesAdvance(a: Time, b: Time)
    requires Valid(a) && Valid(b) && !EarlierDate(a, b) && !EarlierDate(b, a)
    ensures DayNumber(a) == DayNumber(b)
    ensures Before(a, b) <==> NanoOfDay(a) < NanoOfDay(b)
  {}

  /** One timestamp is before another exactly when it denotes the earlier instant. */
  lemma BeforeIsEarlierInstant(a: Time, b: Time)
    requires Valid(a) && Valid(b)
    ensures Before(a, b) <==> Instant(a) < Instant(b)
  {
    NanoInDay(a);
    NanoInDay(b);
    if EarlierDate(a, b) {
      DatesAdvance(a, b);
    } else if EarlierDate(b, a) {
      DatesAdvance(b, a);
    } else {
      TimesAdvance(a, b);
    }
  }

  /** Distinct timestamps denote distinct instants. */
  lemma InstantInjective(a: Time, b: Time)
    requires Valid(a) && Valid(b) && Instant(a) == Instant(b)
    ensures a == b
  {
    BeforeIsEarlierInstant(a, b);
    BeforeIsEarlierInstant(b, a);
    BeforeIsStrictTotal();
  }
}
