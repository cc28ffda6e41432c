/**
 UTC dates as numbered days, and the texts ISO 8601 gives them. All texts of one kind have the
 same length, so comparing them as strings compares the instants. Days and instants are counted
 from 1 January of the year 100: `Date.UTC` reads a year below 100 as one of the
 twentieth century, so the source adds months correctly only from there on.
 */
module Calendar {
  import opened Text

  const DASH: Unit := '-' as int
  const LETTER_T: Unit := 'T' as int

  datatype Date = Date(year: nat, month: nat, day: nat)

  predicate IsLeap(year: nat) { year % 4 == 0 && (year % 100 != 0 || year % 400 == 0) }

  function DaysIn(year: nat, month: nat): (n: nat)
    ensures 28 <= n <= 31
  {
    if month == 2 then (if IsLeap(year) then 29 else 28)
    else if month == 4 || month == 6 || month == 9 || month == 11 then 30
    else 31
  }

  predicate IsDate(d: Date) { 1 <= d.month <= 12 && 1 <= d.day <= DaysIn(d.year, d.month) }

  function Next(d: Date): Date {
    if d.day < DaysIn(d.year, d.month) then Date(d.year, d.month, d.day + 1)
    else if d.month < 12 then Date(d.year, d.month + 1, 1)
    else Date(d.year + 1, 1, 1)
  }

  /** The date `n` days after 1 January of the year 100. */
  function Civil(n: nat): (d: Date)
    ensures IsDate(d)
  {
    if n == 0 then Date(100, 1, 1) else Next(Civil(n - 1))
  }

  predicate Before(a: Date, b: Date) {
    a.year < b.year || (a.year == b.year && (a.month < b.month || (a.month == b.month && a.day < b.day)))
  }

  lemma {:induction false} CivilAscends(m: nat, n: nat)
    requires m < n
    ensures Before(Civil(m), Civil(n))
  {
    if m < n - 1 { CivilAscends(m, n - 1); }
  }

  /** Later days are not in earlier years. */
  lemma YearsAscend(m: nat, n: nat)
    requires m <= n
    ensures Civil(m).year <= Civil(n).year
  {
    if m < n { CivilAscends(m, n); }
  }

  // ----- the calendar by arithmetic

  /** Leap years before `year`: every fourth, without every hundredth, with every four-hundredth. */
  function LeapsBefore(year: nat): int { (year + 3) / 4 - (year + 99) / 100 + (year + 399) / 400 }

  const DAYS_BEFORE_MONTH: seq<nat> := [0, 31, 59, 90, 120, 151, 181, 212, 243, 273, 304, 334]

  /** The number of a date, counted from 1 January of the year 0. */
  function DayNumber(d: Date): int
    requires IsDate(d)
  {
    365 * d.year + LeapsBefore(d.year) + DAYS_BEFORE_MONTH[d.month - 1]
    + (if d.month > 2 then LeapsBefore(d.year + 1) - LeapsBefore(d.year) else 0) + d.day - 1
  }

  lemma OneLeapMore(year: nat)
    ensures LeapsBefore(year + 1) - LeapsBefore(year) == if IsLeap(year) then 1 else 0
  {
    assert (year + 4) / 4 == (year + 3) / 4 + if year % 4 == 0 then 1 else 0;
    assert (year + 100) / 100 == (year + 99) / 100 + if year % 100 == 0 then 1 else 0;
    assert (year + 400) / 400 == (year + 399) / 400 + if year % 400 == 0 then 1 else 0;
  }

  lemma NextDay(d: Date)
    requires IsDate(d)
    ensures IsDate(Next(d)) && DayNumber(Next(d)) == DayNumber(d) + 1
  {
    OneLeapMore(d.year);
    hide LeapsBefore, IsLeap;
  }

  lemma {:induction false} CivilNumber(n: nat)
    ensures DayNumber(Civil(n)) == n + DayNumber(Date(100, 1, 1))
  {
    if n > 0 {
      CivilNumber(n - 1);
      NextDay(Civil(n - 1));
    }
  }

  function FirstOfYear(year: nat): int { 365 * year + LeapsBefore(year) }

  lemma WithinItsYear(d: Date)
    requires IsDate(d)
    ensures FirstOfYear(d.year) <= DayNumber(d) < FirstOfYear(d.year + 1)
  {
    OneLeapMore(d.year);
    hide LeapsBefore, IsLeap;
  }

  lemma {:induction false} YearsFollow(y: nat, z: nat)
    requires y < z
    ensures FirstOfYear(y + 1) <= FirstOfYear(z)
  {
    if y + 1 < z {
      YearsFollow(y, z - 1);
      OneLeapMore(z - 1);
      hide LeapsBefore;
    }
  }

  lemma DayNumberAscends(a: Date, b: Date)
    requires IsDate(a) && IsDate(b) && Before(a, b)
    ensures DayNumber(a) < DayNumber(b)
  {
    if a.year < b.year {
      WithinItsYear(a);
      WithinItsYear(b);
      YearsFollow(a.year, b.year);
      hide DayNumber, FirstOfYear;
    } else {
      OneLeapMore(a.year);
      hide LeapsBefore, IsLeap;
    }
  }

  /** The `n`-th day has exactly the date that the Gregorian rules of leap years give it. */
  lemma CivilIff(n: nat, d: Date)
    requires IsDate(d)
    ensures Civil(n) == d <==> DayNumber(d) == n + DayNumber(Date(100, 1, 1))
  {
    CivilNumber(n);
    if Before(Civil(n), d) { DayNumberAscends(Civil(n), d); }
    if Before(d, Civil(n)) { DayNumberAscends(d, Civil(n)); }
    hide DayNumber, Civil;
  }

  lemma UnixEpoch()
    ensures Civil(683_003) == Date(1970, 1, 1)
  {
    CivilIff(683_003, Date(1970, 1, 1));
  }

  // ----- texts of fixed width

  function Pad2(n: nat): (r: Str)
    requires n < 100
    ensures |r| == 2
  {
    [48 + n / 10, 48 + n % 10]
  }

  function Pad4(n: nat): (r: Str)
    requires n < 10_000
    ensures |r| == 4
  {
    Pad2(n / 100) + Pad2(n % 100)
  }

  lemma Pad2Order(m: nat, n: nat, s: Str, t: Str)
    requires m < n < 100
    ensures Less(Pad2(m) + s, Pad2(n) + t)
  {
    var a, b := Pad2(m) + s, Pad2(n) + t;
    assert a[0] == 48 + m / 10 && b[0] == 48 + n / 10;
    assert a[1..][0] == 48 + m % 10 && b[1..][0] == 48 + n % 10;
  }

  lemma {:induction false} SamePrefix(p: Str, s: Str, t: Str)
    ensures Less(p + s, p + t) <==> Less(s, t)
  {
    if p == [] {
      assert p + s == s && p + t == t;
    } else {
      assert (p + s)[1..] == p[1..] + s && (p + t)[1..] == p[1..] + t;
      SamePrefix(p[1..], s, t);
    }
  }

  lemma Pad4Order(m: nat, n: nat, s: Str, t: Str)
    requires m < n < 10_000
    ensures Less(Pad4(m) + s, Pad4(n) + t)
  {
    assert Pad4(m) + s == Pad2(m / 100) + (Pad2(m % 100) + s);
    assert Pad4(n) + t == Pad2(n / 100) + (Pad2(n % 100) + t);
    if m / 100 < n / 100 {
      Pad2Order(m / 100, n / 100, Pad2(m % 100) + s, Pad2(n % 100) + t);
    } else {
      Pad2Order(m % 100, n % 100, s, t);
      SamePrefix(Pad2(m / 100), Pad2(m % 100) + s, Pad2(n % 100) + t);
    }
  }

  predicate FourDigits(d: Date) { d.year < 10_000 && d.month < 100 && d.day < 100 }

  function MonthText(year: nat, month: nat): (r: Str)
    requires year < 10_000 && month < 100
    ensures |r| == 7
  {
    Pad4(year) + [DASH] + Pad2(month)
  }

  function DayText(d: Date): (r: Str)
    requires FourDigits(d)
    ensures |r| == 10
  {
    MonthText(d.year, d.month) + [DASH] + Pad2(d.day)
  }

  /** The key of an hour: its date, and the hour on a 24-hour clock. */
  function HourText(d: Date, hour: nat): (r: Str)
    requires FourDigits(d) && hour < 24
    ensures |r| == 16
  {
    DayText(d) + [LETTER_T] + Pad2(hour) + [COLON, 48, 48]
  }

  lemma MonthTextOrder(y: nat, m: nat, y': nat, m': nat, s: Str, t: Str)
    requires y < 10_000 && y' < 10_000 && m < 100 && m' < 100
    requires y < y' || (y == y' && m < m')
    ensures Less(MonthText(y, m) + s, MonthText(y', m') + t)
  {
    assert MonthText(y, m) + s == Pad4(y) + ([DASH] + (Pad2(m) + s));
    assert MonthText(y', m') + t == Pad4(y') + ([DASH] + (Pad2(m') + t));
    if y < y' {
      Pad4Order(y, y', [DASH] + (Pad2(m) + s), [DASH] + (Pad2(m') + t));
    } else {
      Pad2Order(m, m', s, t);
      SamePrefix([DASH], Pad2(m) + s, Pad2(m') + t);
      SamePrefix(Pad4(y), [DASH] + (Pad2(m) + s), [DASH] + (Pad2(m') + t));
    }
  }

  lemma DayTextOrder(a: Date, b: Date, s: Str, t: Str)
    requires FourDigits(a) && FourDigits(b) && Before(a, b)
    ensures Less(DayText(a) + s, DayText(b) + t)
  {
    var a', b' := [DASH] + (Pad2(a.day) + s), [DASH] + (Pad2(b.day) + t);
    assert DayText(a) + s == MonthText(a.year, a.month) + a';
    assert DayText(b) + t == MonthText(b.year, b.month) + b';
    if a.year == b.year && a.month == b.month {
      Pad2Order(a.day, b.day, s, t);
      SamePrefix([DASH], Pad2(a.day) + s, Pad2(b.day) + t);
      SamePrefix(MonthText(a.year, a.month), a', b');
    } else {
      MonthTextOrder(a.year, a.month, b.year, b.month, a', b');
    }
  }

  lemma HourTextOrder(a: Date, h: nat, b: Date, k: nat)
    requires FourDigits(a) && FourDigits(b) && h < 24 && k < 24
    requires Before(a, b) || (a == b && h < k)
    ensures Less(HourText(a, h), HourText(b, k))
  {
    var tail: Str := [COLON, 48, 48];
    var s, t := [LETTER_T] + (Pad2(h) + tail), [LETTER_T] + (Pad2(k) + tail);
    assert HourText(a, h) == DayText(a) + s && HourText(b, k) == DayText(b) + t;
    if Before(a, b) {
      DayTextOrder(a, b, s, t);
    } else {
      Pad2Order(h, k, tail, tail);
      SamePrefix([LETTER_T], Pad2(h) + tail, Pad2(k) + tail);
      SamePrefix(DayText(a), s, t);
    }
  }
}
