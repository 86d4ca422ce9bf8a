/** Broken-down calendar time.  The conversion guesses the year by assuming 365
    days per year and corrects itself; it is proved to end for every time and to
    give what counting years and months one by one gives in the proleptic
    Gregorian calendar (section 3.2.1 of ISO 8601:2004). */
module Calendar {
  import opened Util

  // ----- C arithmetic -------------------------------------------------------------

  /** Division that truncates toward zero, and its remainder. */
  function CDiv(a: int, b: int): int
    requires b > 0
  {
    if a >= 0 then a / b else -((-a) / b)
  }

  function CMod(a: int, b: int): int
    requires b > 0
  {
    a - b * CDiv(a, b)
  }

  /** math_div: truncating division corrected to round down. */
  function MathDiv(a: int, b: int): int
    requires b > 0
  {
    CDiv(a, b) - (if CMod(a, b) < 0 then 1 else 0)
  }

  lemma MathDivFloors(a: int, b: int)
    requires b > 0
    ensures MathDiv(a, b) == a / b
    ensures CMod(a, b) == 0 <==> a % b == 0
    ensures a >= 0 ==> CMod(a, b) == a % b
  {
    if a < 0 {
      var q, r := (-a) / b, (-a) % b;
      assert a == b * (-q) - r by {
        assert b * (-q) == -(b * q);
      }
      if r == 0 {
        DivUnique(a, b, -q, 0);
      } else {
        assert b * (-q - 1) == b * (-q) - b;
        DivUnique(a, b, -q - 1, b - r);
      }
    }
  }

  // ----- the calendar, by counting ----------------------------------------------------

  /** Every fourth year, except centuries, except every fourth century. */
  predicate Leap(y: int) {
    y % 4 == 0 && (y % 100 != 0 || y % 400 == 0)
  }

  function YearDays(y: int): int {
    if Leap(y) then 366 else 365
  }

  function MonthDays(m: nat, leap: bool): nat
    requires m < 12
  {
    if m == 1 then (if leap then 29 else 28)
    else if m == 3 || m == 5 || m == 8 || m == 10 then 30
    else 31
  }

  /** The year and the day in it, d days from the start of year y, year by year. */
  function CountYears(y: int, d: int): (int, int)
    decreases if d < 0 then 400 - d else d
  {
    if d < 0 then CountYears(y - 1, d + YearDays(y - 1))
    else if d >= YearDays(y) then CountYears(y + 1, d - YearDays(y))
    else (y, d)
  }

  /** The month and the day in it, d days from the start of month m, month by month. */
  function CountMonths(m: nat, d: nat, leap: bool): (nat, nat)
    requires m < 12
    decreases 12 - m
  {
    if m < 11 && d >= MonthDays(m, leap) then CountMonths(m + 1, d - MonthDays(m, leap), leap)
    else (m, d)
  }

  datatype Tm = Tm(sec: int, min: int, hour: int, mday: int, mon: int, year: int, wday: int, yday: int)

  /** The calendar time t seconds after the start of Thursday, 1 January 1970. */
  function Counted(t: int): Tm {
    var day, s := t / 86400, t % 86400;
    var (y, yday) := CountYears(1970, day);
    CountedYear(1970, day);
    var (mon, d) := CountMonths(0, yday, Leap(y));
    Tm(s % 60, s / 60 % 60, s / 3600, d + 1, mon, y - 1900, (4 + day) % 7, yday)
  }

  /** Days from the start of 1970 to the start of year y. */
  function DaysBefore(y: int): int
    decreases if y >= 1970 then y - 1970 else 1970 - y
  {
    if y == 1970 then 0
    else if y > 1970 then DaysBefore(y - 1) + YearDays(y - 1)
    else DaysBefore(y + 1) - YearDays(y)
  }

  /** Year counting finds the one year the day lies in. */
  lemma {:induction false} CountedYear(y: int, d: int)
    ensures var (y', d') := CountYears(y, d);
            0 <= d' < YearDays(y') && DaysBefore(y') + d' == DaysBefore(y) + d
    decreases if d < 0 then 400 - d else d
  {
    if d < 0 {
      NextYear(y - 1);
      CountedYear(y - 1, d + YearDays(y - 1));
    } else if d >= YearDays(y) {
      NextYear(y);
      CountedYear(y + 1, d - YearDays(y));
    }
  }

  lemma NextYear(y: int)
    ensures DaysBefore(y + 1) == DaysBefore(y) + YearDays(y)
  {
  }

  lemma {:induction false} YearsApart(y: int, z: int)
    requires y <= z
    ensures DaysBefore(z) - DaysBefore(y) >= 365 * (z - y)
    decreases z - y
  {
    if y < z {
      YearsApart(y, z - 1);
      NextYear(z - 1);
    }
  }

  /** A day lies in one year only. */
  lemma YearUnique(y: int, d: int, z: int, e: int)
    requires 0 <= d < YearDays(y) && 0 <= e < YearDays(z)
    requires DaysBefore(y) + d == DaysBefore(z) + e
    ensures y == z && d == e
  {
    NextYear(y);
    NextYear(z);
    if y < z {
      YearsApart(y + 1, z);
    } else if z < y {
      YearsApart(z + 1, y);
    }
  }

  // ----- leap years between two years ------------------------------------------------

  /** __isleap with C remainders. */
  function IsLeap(y: int): bool {
    CMod(y, 4) == 0 && (CMod(y, 100) != 0 || CMod(y, 400) == 0)
  }

  lemma IsLeapIsLeap(y: int)
    ensures IsLeap(y) <==> Leap(y)
  {
    MathDivFloors(y, 4);
    MathDivFloors(y, 100);
    MathDivFloors(y, 400);
  }

  function LeapsUpTo(z: int): int {
    MathDiv(z, 4) - MathDiv(z, 100) + MathDiv(z, 400)
  }

  /** leaps_between. */
  function LeapsBetween(y1: int, y2: int): int {
    LeapsUpTo(y2 - 1) - LeapsUpTo(y1 - 1)
  }

  lemma LeapsFloor(z: int)
    ensures LeapsUpTo(z) == z / 4 - z / 100 + z / 400
  {
    MathDivFloors(z, 4);
    MathDivFloors(z, 100);
    MathDivFloors(z, 400);
  }

  lemma OneLeap(z: int)
    ensures LeapsUpTo(z) - LeapsUpTo(z - 1) == if Leap(z) then 1 else 0
  {
    LeapsFloor(z);
    LeapsFloor(z - 1);
    hide LeapsUpTo;
    DivStep(z, 4);
    DivStep(z, 100);
    DivStep(z, 400);
    DivDiv(z, 4, 25);
    DivDiv(z, 100, 4);
  }

  lemma DivStep(z: int, b: int)
    requires b > 0
    ensures z / b - (z - 1) / b == if z % b == 0 then 1 else 0
  {
    if z % b == 0 {
      assert b * (z / b - 1) == b * (z / b) - b;
      DivUnique(z - 1, b, z / b - 1, b - 1);
    } else {
      DivUnique(z - 1, b, z / b, z % b - 1);
    }
  }

  lemma DivDiv(z: int, a: int, c: int)
    requires a > 0 && c > 0 && a * c > 0
    ensures z / (a * c) == z / a / c
    ensures z % (a * c) == 0 ==> z % a == 0
  {
    var q, r := z / a, z % a;
    NestedDigits(z, a, c, q, r, q / c, q % c);
    DivUnique(z, a * c, q / c, a * (q % c) + r);
    if a * (q % c) + r == 0 {
      assert a * (q % c) >= 0;
    }
  }

  lemma NestedDigits(z: int, a: int, c: int, q: int, r: int, p: int, t: int)
    requires a > 0 && c > 0 && z == a * q + r && q == c * p + t && 0 <= r < a && 0 <= t < c
    ensures z == a * c * p + (a * t + r) && 0 <= a * t + r < a * c && a * t >= 0
  {
    assert a * q == a * (c * p) + a * t;
    assert a * (c * p) == a * c * p;
    assert a * t <= a * (c - 1);
    assert a * (c - 1) == a * c - a;
  }

  /** The closed form of day counting the year guess relies on. */
  lemma {:induction false} DaysClosed(y: int)
    ensures DaysBefore(y) == 365 * (y - 1970) + LeapsBetween(1970, y)
    decreases if y >= 1970 then y - 1970 else 1970 - y
  {
    if y > 1970 {
      DaysClosed(y - 1);
      OneLeap(y - 1);
    } else if y < 1970 {
      DaysClosed(y + 1);
      OneLeap(y);
    }
  }

  /** Among k years in a row at most every fourth is a leap year. */
  lemma FewLeaps(y: int, k: nat)
    ensures 0 <= LeapsBetween(y, y + k) <= (k + 3) / 4
    ensures k == 1 ==> LeapsBetween(y, y + k) == if Leap(y) then 1 else 0
  {
    LeapsFloor(y - 1);
    LeapsFloor(y + k - 1);
    OneLeap(y);
    hide LeapsUpTo, Leap;
    var z, z' := y - 1, y + k - 1;
    DivGap(z, k, 4);
    DivDiv(z, 4, 25);
    DivDiv(z', 4, 25);
    DivDiv(z, 100, 4);
    DivDiv(z', 100, 4);
    Coarser(z / 4, z' / 4, 25);
    Coarser(z / 100, z' / 100, 4);
  }

  lemma DivGap(z: int, k: nat, b: int)
    requires b > 0
    ensures 0 <= (z + k) / b - z / b <= (k + b - 1) / b
  {
    var m := (k + b - 1) / b;
    Gap(b, (z + k) / b, (z + k) % b, z / b, z % b, m, (k + b - 1) % b, k);
  }

  lemma Gap(b: int, q: int, r: int, q0: int, r0: int, m: int, rm: int, k: nat)
    requires 0 <= r < b && 0 <= r0 < b && 0 <= rm < b
    requires b * q + r == b * q0 + r0 + k && k + b - 1 == b * m + rm
    ensures 0 <= q - q0 <= m
  {
    var d, e := q - q0, q - q0 - m;
    assert b * q == b * q0 + b * d;
    assert b * d == b * m + b * e;
    MulBound(b, d);
    MulBound(b, e);
  }

  lemma {:induction false} Coarser(q: int, q': int, c: int)
    requires c > 0 && q <= q'
    ensures 0 <= q' / c - q / c <= q' - q
    decreases q' - q
  {
    if q < q' {
      Coarser(q, q' - 1, c);
      DivStep(q', c);
    }
  }

  // ----- the year guess ----------------------------------------------------------------

  predicate InYear(y: int, days: int) {
    0 <= days < YearDays(y)
  }

  /** How many years the next guess moves by; zero once the year is right. */
  function Stride(y: int, days: int): nat {
    if InYear(y, days) then 0
    else if days >= 0 then days / 365
    else -(days / 365)
  }

  function Guess(y: int, days: int): (int, int) {
    var yg := y + MathDiv(days, 365);
    (yg, days - ((yg - y) * 365 + LeapsBetween(y, yg)))
  }

  /** A guess keeps the day it is looking for and comes strictly closer: each
      stride is shorter than the one before, from whichever side. */
  lemma GuessCloser(y: int, days: int)
    requires !InYear(y, days)
    ensures var (y', days') := Guess(y, days);
            && DaysBefore(y') + days' == DaysBefore(y) + days
            && Stride(y', days') < Stride(y, days)
  {
    hide LeapsUpTo, DaysBefore, Stride, Leap, MathDiv;
    var (y', days') := Guess(y, days);
    MathDivFloors(days, 365);
    DaysClosed(y);
    DaysClosed(y');
    var q := days / 365;
    assert days == 365 * q + days % 365;
    if q >= 0 {
      FewLeaps(y, q);
      StrideDown(y, days, y', days', LeapsBetween(y, y'));
    } else {
      FewLeaps(y', -q);
      StrideUp(y, days, y', days', LeapsBetween(y', y));
    }
  }

  lemma StrideDown(y: int, days: int, y': int, days': int, leaps: int)
    requires days >= YearDays(y) && y' == y + days / 365
    requires days' == days % 365 - leaps && 0 <= leaps <= (days / 365 + 3) / 4
    requires days / 365 == 1 ==> leaps == if Leap(y) then 1 else 0
    ensures Stride(y', days') < Stride(y, days)
  {
    if days' < 0 {
      DivGap(days', 0 - days', 365);
    }
  }

  lemma StrideUp(y: int, days: int, y': int, days': int, leaps: int)
    requires days < 0 && y' == y + days / 365
    requires days' == days % 365 + leaps && 0 <= leaps <= (-(days / 365) + 3) / 4
    requires days / 365 == -1 ==> leaps == if Leap(y') then 1 else 0
    ensures Stride(y', days') < Stride(y, days)
  {
    hide Leap;
    if !InYear(y', days') {
      DivGap(0, days', 365);
    }
  }

  // ----- months ---------------------------------------------------------------------

  function DaysBeforeMonth(m: nat, leap: bool): nat
    requires m <= 12
  {
    if m == 0 then 0 else DaysBeforeMonth(m - 1, leap) + MonthDays(m - 1, leap)
  }

  /** __mon_yday. */
  const MON_YDAY: seq<seq<nat>> := [
    [0, 31, 59, 90, 120, 151, 181, 212, 243, 273, 304, 334, 365],
    [0, 31, 60, 91, 121, 152, 182, 213, 244, 274, 305, 335, 366]]

  function Table(leap: bool): (t: seq<nat>)
    ensures |t| == 13
  {
    MON_YDAY[if leap then 1 else 0]
  }

  lemma TableCounts(leap: bool, m: nat)
    requires m <= 12
    ensures Table(leap)[m] == DaysBeforeMonth(m, leap)
  {
    var t := Table(leap);
    assert t[0] == 0 && t[1] == t[0] + MonthDays(0, leap) && t[2] == t[1] + MonthDays(1, leap);
    assert t[3] == t[2] + MonthDays(2, leap) && t[4] == t[3] + MonthDays(3, leap);
    assert t[5] == t[4] + MonthDays(4, leap) && t[6] == t[5] + MonthDays(5, leap);
    assert t[7] == t[6] + MonthDays(6, leap) && t[8] == t[7] + MonthDays(7, leap);
    assert t[9] == t[8] + MonthDays(8, leap) && t[10] == t[9] + MonthDays(9, leap);
    assert t[11] == t[10] + MonthDays(10, leap) && t[12] == t[11] + MonthDays(11, leap);
    TablePrefix(leap, t, m);
  }

  lemma {:induction false} TablePrefix(leap: bool, t: seq<nat>, m: nat)
    requires m <= 12 && |t| == 13 && t[0] == 0
    requires forall k :: 0 <= k < 12 ==> t[k + 1] == t[k] + MonthDays(k, leap)
    ensures t[m] == DaysBeforeMonth(m, leap)
  {
    if m > 0 {
      TablePrefix(leap, t, m - 1);
      assert t[m - 1 + 1] == t[m - 1] + MonthDays(m - 1, leap);
    }
  }

  predicate InMonth(m: nat, yday: int, leap: bool)
    requires m < 12
  {
    DaysBeforeMonth(m, leap) <= yday < DaysBeforeMonth(m + 1, leap)
  }

  /** Month counting finds the month whose days span the day of the year. */
  lemma {:induction false} CountedMonth(m: nat, m': nat, yday: nat, leap: bool)
    requires m <= m' < 12 && InMonth(m', yday, leap) && DaysBeforeMonth(m, leap) <= yday
    ensures CountMonths(m, yday - DaysBeforeMonth(m, leap), leap) == (m', yday - DaysBeforeMonth(m', leap))
    decreases 12 - m
  {
    if m < m' {
      MonthsGrow(m + 1, m', leap);
      CountedMonth(m + 1, m', yday, leap);
    }
  }

  lemma {:induction false} MonthsGrow(m: nat, m': nat, leap: bool)
    requires m <= m' <= 12
    ensures DaysBeforeMonth(m, leap) <= DaysBeforeMonth(m', leap)
    decreases m' - m
  {
    if m < m' {
      MonthsGrow(m, m' - 1, leap);
    }
  }

  // ----- the conversion ----------------------------------------------------------------

  /** The year-guess loop: ends, and finds the year the day lies in. */
  method FindYear(day: int) returns (y: int, days: int)
    ensures InYear(y, days) && DaysBefore(y) + days == day
  {
    hide IsLeap, Leap, LeapsBetween, MathDiv;
    y, days := 1970, day;
    IsLeapIsLeap(y);
    while days < 0 || days >= (if IsLeap(y) then 366 else 365)
      invariant DaysBefore(y) + days == day
      invariant IsLeap(y) <==> Leap(y)
      decreases Stride(y, days)
    {
      GuessCloser(y, days);
      var yg := y + MathDiv(days, 365);
      days := days - ((yg - y) * 365 + LeapsBetween(y, yg));
      y := yg;
      IsLeapIsLeap(y);
    }
  }

  /** The month loop: counts down from December. */
  method FindMonth(yday: nat, leap: bool) returns (m: nat)
    requires yday < (if leap then 366 else 365)
    ensures m < 12 && InMonth(m, yday, leap)
  {
    var ip := Table(leap);
    m := 11;
    TableCounts(leap, 0);
    TableCounts(leap, 11);
    TableCounts(leap, 12);
    while yday < ip[m]
      invariant m < 12 && ip == Table(leap)
      invariant ip[m] == DaysBeforeMonth(m, leap) && yday < DaysBeforeMonth(m + 1, leap)
    {
      assert m > 0;
      m := m - 1;
      TableCounts(leap, m);
    }
  }

  /** Splits a day and a second of the day off a time, with C division and the
      two correction loops. */
  method SplitDay(totalsecs: int, offset: int) returns (days: int, rem: int)
    ensures days == (totalsecs + offset) / 86400 && rem == (totalsecs + offset) % 86400
  {
    days := CDiv(totalsecs, 86400);
    rem := CMod(totalsecs, 86400);
    rem := rem + offset;
    while rem < 0
      invariant 86400 * days + rem == totalsecs + offset
      decreases -rem
    {
      rem := rem + 86400;
      days := days - 1;
    }
    while rem >= 86400
      invariant 86400 * days + rem == totalsecs + offset && rem >= 0
    {
      rem := rem - 86400;
      days := days + 1;
    }
    DivUnique(totalsecs + offset, 86400, days, rem);
  }

  /** time_to_tm: for every time and offset, exactly the date, weekday, day of the
      year and time of day that counting gives. */
  method TimeToTm(totalsecs: int, offset: int) returns (result: Tm)
    ensures result == Counted(totalsecs + offset)
  {
    hide IsLeap, Leap, CountYears, CountMonths, CDiv, CMod;
    var days, rem := SplitDay(totalsecs, offset);
    var hour := CDiv(rem, 3600);
    var rem1 := CMod(rem, 3600);
    var min := CDiv(rem1, 60);
    var sec := CMod(rem1, 60);
    TimeOfDay(rem);
    var wday := CMod(4 + days, 7);
    if wday < 0 {
      wday := wday + 7;
    }
    Weekday(days);
    var y, yday := FindYear(days);
    IsLeapIsLeap(y);
    CountedYear(1970, days);
    YearUnique(y, yday, CountYears(1970, days).0, CountYears(1970, days).1);
    var m := FindMonth(yday, IsLeap(y));
    CountedMonth(0, m, yday, Leap(y));
    TableCounts(Leap(y), m);
    result := Tm(sec, min, hour, yday - Table(IsLeap(y))[m] + 1, m, y - 1900, wday, yday);
  }

  lemma TimeOfDay(rem: int)
    requires 0 <= rem < 86400
    ensures CDiv(rem, 3600) == rem / 3600
    ensures CDiv(CMod(rem, 3600), 60) == rem / 60 % 60
    ensures CMod(CMod(rem, 3600), 60) == rem % 60
  {
    var h, r := rem / 3600, rem % 3600;
    DivUnique(rem, 60, 60 * h + r / 60, r % 60);
    DivUnique(rem / 60, 60, h, r / 60);
  }

  lemma Weekday(days: int)
    ensures var w := CMod(4 + days, 7); (if w < 0 then w + 7 else w) == (4 + days) % 7
  {
    MathDivFloors(4 + days, 7);
  }

  // ----- the conversion is a bijection --------------------------------------------------

  /** A calendar time: fields in range, derived fields consistent. */
  predicate ValidTm(tm: Tm) {
    var y := tm.year + 1900;
    && 0 <= tm.sec < 60 && 0 <= tm.min < 60 && 0 <= tm.hour < 24
    && 0 <= tm.mon < 12 && 1 <= tm.mday <= MonthDays(tm.mon, Leap(y))
    && tm.yday == DaysBeforeMonth(tm.mon, Leap(y)) + tm.mday - 1
    && tm.wday == (4 + DaysBefore(y) + tm.yday) % 7
  }

  /** Seconds since the epoch, by adding up whole years, months and days. */
  function ToSeconds(tm: Tm): int
    requires 0 <= tm.mon < 12
  {
    86400 * (DaysBefore(tm.year + 1900) + DaysBeforeMonth(tm.mon, Leap(tm.year + 1900)) + tm.mday - 1)
    + 3600 * tm.hour + 60 * tm.min + tm.sec
  }

  /** Converting a time and adding the fields up again gives the time back. */
  lemma RoundTripSeconds(t: int)
    ensures ValidTm(Counted(t)) && ToSeconds(Counted(t)) == t
  {
    var day, s := t / 86400, t % 86400;
    var (y, yday) := CountYears(1970, day);
    CountedYear(1970, day);
    var m := MonthOf(yday, Leap(y));
    CountedMonth(0, m, yday, Leap(y));
    DivUnique(s, 60, s / 60, s % 60);
    DivUnique(s / 60, 60, s / 3600, s / 60 % 60) by {
      DivDiv(s, 60, 60);
    }
    hide Leap, CountYears, CountMonths, DaysBefore;
  }

  lemma MonthOf(yday: nat, leap: bool) returns (m: nat)
    requires yday < (if leap then 366 else 365)
    ensures m < 12 && InMonth(m, yday, leap)
  {
    m := 11;
    TableCounts(leap, 12);
    TableCounts(leap, 11);
    while yday < DaysBeforeMonth(m, leap)
      invariant m < 12 && yday < DaysBeforeMonth(m + 1, leap)
    {
      assert m > 0;
      m := m - 1;
    }
  }

  /** Every calendar time is the conversion of its own seconds. */
  lemma RoundTripTm(tm: Tm)
    requires ValidTm(tm)
    ensures Counted(ToSeconds(tm)) == tm
  {
    var y, leap := tm.year + 1900, Leap(tm.year + 1900);
    var day, s := DaysBefore(y) + tm.yday, 3600 * tm.hour + 60 * tm.min + tm.sec;
    DivUnique(ToSeconds(tm), 86400, day, s);
    MonthsGrow(tm.mon + 1, 12, leap);
    TableCounts(leap, 12);
    CountedYear(1970, day);
    YearUnique(y, tm.yday, CountYears(1970, day).0, CountYears(1970, day).1);
    CountedMonth(0, tm.mon, tm.yday, leap);
    DivUnique(s, 3600, tm.hour, 60 * tm.min + tm.sec);
    DivUnique(s, 60, 60 * tm.hour + tm.min, tm.sec);
    DivUnique(s / 60, 60, tm.hour, tm.min);
    hide Leap, CountYears, CountMonths, DaysBefore;
  }
}
