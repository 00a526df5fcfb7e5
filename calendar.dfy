/** Python's naive `datetime`: a calendar date and a time of day down to the
    microsecond, its comparison operators, and `(a - b).days`. */
module Calendar {

  datatype DateTime = DateTime(
    year: int, month: int, day: int,
    hour: int, minute: int, second: int, microsecond: int)

  predicate IsLeapYear(y: int) {
    y % 4 == 0 && (y % 100 != 0 || y % 400 == 0)
  }

  function DaysInMonth(y: int, m: int): (n: int)
    requires 1 <= m <= 12
    ensures 28 <= n <= 31
  {
    if m == 2 then (if IsLeapYear(y) then 29 else 28)
    else if m == 4 || m == 6 || m == 9 || m == 11 then 30
    else 31
  }

  /** A calendar date `datetime` accepts: year in MINYEAR..MAXYEAR (1..9999). */
  predicate IsValidDate(y: int, m: int, d: int) {
    1 <= y <= 9999 && 1 <= m <= 12 && 1 <= d <= DaysInMonth(y, m)
  }

  predicate IsValid(t: DateTime) {
    && IsValidDate(t.year, t.month, t.day)
    && 0 <= t.hour < 24 && 0 <= t.minute < 60 && 0 <= t.second < 60
    && 0 <= t.microsecond < 1000000
  }

  /** `datetime(y, m, d)`: the date at midnight. */
  function Midnight(y: int, m: int, d: int): DateTime {
    DateTime(y, m, d, 0, 0, 0, 0)
  }

  /** `a < b` on naive datetimes: field by field, most significant first. */
  predicate Before(a: DateTime, b: DateTime) {
    if a.year != b.year then a.year < b.year
    else if a.month != b.month then a.month < b.month
    else if a.day != b.day then a.day < b.day
    else if a.hour != b.hour then a.hour < b.hour
    else if a.minute != b.minute then a.minute < b.minute
    else if a.second != b.second then a.second < b.second
    else a.microsecond < b.microsecond
  }

  /** `Before` is a strict total order. */
  lemma BeforeIrreflexive(a: DateTime)
    ensures !Before(a, a)
  {
  }

  lemma BeforeTransitive(a: DateTime, b: DateTime, c: DateTime)
    requires Before(a, b) && Before(b, c)
    ensures Before(a, c)
  {
  }

  lemma BeforeTotal(a: DateTime, b: DateTime)
    ensures a == b || Before(a, b) || Before(b, a)
  {
  }

  /** Days from 0001-01-01 (day 1) to the given date: `date.toordinal()`. */
  function Ordinal(y: int, m: int, d: int): int
    requires IsValidDate(y, m, d)
  {
    DaysBeforeYear(y) + DaysBeforeMonth(y, m) + d
  }

  function DaysBeforeMonth(y: int, m: int): (n: int)
    requires 1 <= m <= 12
    ensures 28 * (m - 1) <= n <= 31 * (m - 1)
    decreases m
  {
    if m == 1 then 0 else DaysBeforeMonth(y, m - 1) + DaysInMonth(y, m - 1)
  }

  const MicrosPerDay: int := 86400000000

  /** Microseconds since the start of 0001-01-01. */
  function Micros(t: DateTime): int
    requires IsValid(t)
  {
    (Ordinal(t.year, t.month, t.day) - 1) * MicrosPerDay
    + ((t.hour * 60 + t.minute) * 60 + t.second) * 1000000 + t.microsecond
  }

  /** `(later - earlier).days`: whole days, rounded toward negative infinity
      like `timedelta.days`. Dafny's `/` with a positive divisor floors. */
  function DaysBetween(later: DateTime, earlier: DateTime): (days: int)
    requires IsValid(later) && IsValid(earlier)
    ensures days < 0 <==> Micros(later) < Micros(earlier)
    ensures days * MicrosPerDay <= Micros(later) - Micros(earlier) < (days + 1) * MicrosPerDay
  {
    (Micros(later) - Micros(earlier)) / MicrosPerDay
  }

  // ----- the microsecond count agrees with the field order -------------------

  /** Days before January 1st of year `y`. */
  function DaysBeforeYear(y: int): int {
    var py := y - 1;
    365 * py + py / 4 - py / 100 + py / 400
  }

  lemma DaysBeforeDecember(y: int)
    ensures DaysBeforeMonth(y, 12) == 334 + (if IsLeapYear(y) then 1 else 0)
  {
    assert DaysBeforeMonth(y, 2) == 31;
    assert DaysBeforeMonth(y, 3) == 31 + DaysInMonth(y, 2);
    assert DaysBeforeMonth(y, 4) == DaysBeforeMonth(y, 3) + 31;
    assert DaysBeforeMonth(y, 5) == DaysBeforeMonth(y, 4) + 30;
    assert DaysBeforeMonth(y, 6) == DaysBeforeMonth(y, 5) + 31;
    assert DaysBeforeMonth(y, 7) == DaysBeforeMonth(y, 6) + 30;
    assert DaysBeforeMonth(y, 8) == DaysBeforeMonth(y, 7) + 31;
    assert DaysBeforeMonth(y, 9) == DaysBeforeMonth(y, 8) + 31;
    assert DaysBeforeMonth(y, 10) == DaysBeforeMonth(y, 9) + 30;
    assert DaysBeforeMonth(y, 11) == DaysBeforeMonth(y, 10) + 31;
    assert DaysBeforeMonth(y, 12) == DaysBeforeMonth(y, 11) + 30;
  }

  /** Each floor quotient in `DaysBeforeYear` steps up exactly at a
      multiple of its divisor. */
  lemma LeapSteps(y: int)
    ensures y / 4 - (y - 1) / 4 == (if y % 4 == 0 then 1 else 0)
    ensures y / 100 - (y - 1) / 100 == (if y % 100 == 0 then 1 else 0)
    ensures y / 400 - (y - 1) / 400 == (if y % 400 == 0 then 1 else 0)
  {
  }

  lemma LeapDivisors(y: int)
    ensures y % 400 == 0 ==> y % 100 == 0
    ensures y % 100 == 0 ==> y % 4 == 0
  {
  }

  /** A year has 365 days, or 366 in a leap year. */
  lemma NextYear(y: int)
    ensures DaysBeforeYear(y + 1) == DaysBeforeYear(y) + 365 + (if IsLeapYear(y) then 1 else 0)
  {
    LeapSteps(y);
    LeapDivisors(y);
  }

  lemma {:induction false} LaterYear(y1: int, y2: int)
    requires y1 <= y2
    ensures DaysBeforeYear(y1) <= DaysBeforeYear(y2)
    decreases y2 - y1
  {
    if y1 < y2 {
      NextYear(y1);
      LaterYear(y1 + 1, y2);
    }
  }

  lemma {:induction false} LaterMonth(y: int, m1: int, m2: int)
    requires 1 <= m1 < m2 <= 12
    ensures DaysBeforeMonth(y, m1) + DaysInMonth(y, m1) <= DaysBeforeMonth(y, m2)
    decreases m2
  {
    if m1 < m2 - 1 {
      LaterMonth(y, m1, m2 - 1);
    }
  }

  /** Lexicographic order on valid dates is the order of their ordinals. */
  lemma OrdinalMonotone(y1: int, m1: int, d1: int, y2: int, m2: int, d2: int)
    requires IsValidDate(y1, m1, d1) && IsValidDate(y2, m2, d2)
    requires y1 < y2 || (y1 == y2 && (m1 < m2 || (m1 == m2 && d1 < d2)))
    ensures Ordinal(y1, m1, d1) < Ordinal(y2, m2, d2)
  {
    if y1 < y2 {
      WithinYear(y1, m1, d1);
      NextYear(y1);
      LaterYear(y1 + 1, y2);
    } else if m1 < m2 {
      LaterMonth(y1, m1, m2);
    }
  }

  /** Every date of year `y` comes before January 1st of the next year. */
  lemma WithinYear(y: int, m: int, d: int)
    requires IsValidDate(y, m, d)
    ensures DaysBeforeMonth(y, m) + d <= 365 + (if IsLeapYear(y) then 1 else 0)
  {
    if m < 12 {
      LaterMonth(y, m, 12);
    }
    DaysBeforeDecember(y);
  }

  /** `a < b` on valid datetimes is the order of their microsecond counts. */
  lemma BeforeIffEarlier(a: DateTime, b: DateTime)
    requires IsValid(a) && IsValid(b)
    ensures Before(a, b) <==> Micros(a) < Micros(b)
  {
    if Before(a, b) {
      EarlierWhenBefore(a, b);
    } else if a != b {
      BeforeTotal(a, b);
      EarlierWhenBefore(b, a);
    }
  }

  lemma EarlierWhenBefore(a: DateTime, b: DateTime)
    requires IsValid(a) && IsValid(b) && Before(a, b)
    ensures Micros(a) < Micros(b)
  {
    var ta := ((a.hour * 60 + a.minute) * 60 + a.second) * 1000000 + a.microsecond;
    var tb := ((b.hour * 60 + b.minute) * 60 + b.second) * 1000000 + b.microsecond;
    TimeOfDayBounds(a);
    TimeOfDayBounds(b);
    var oa, ob := Ordinal(a.year, a.month, a.day), Ordinal(b.year, b.month, b.day);
    assert Micros(a) == (oa - 1) * MicrosPerDay + ta;
    assert Micros(b) == (ob - 1) * MicrosPerDay + tb;
    if (a.year, a.month, a.day) != (b.year, b.month, b.day) {
      OrdinalMonotone(a.year, a.month, a.day, b.year, b.month, b.day);
      DayStep(oa - 1, ob - 1, ta, tb);
    } else {
      TimeOfDayMonotone(a, b);
    }
  }

  lemma TimeOfDayBounds(t: DateTime)
    requires IsValid(t)
    ensures 0 <= ((t.hour * 60 + t.minute) * 60 + t.second) * 1000000 + t.microsecond < MicrosPerDay
  {
    var hm := t.hour * 60 + t.minute;
    assert 0 <= hm <= 23 * 60 + 59;
    var hms := hm * 60 + t.second;
    assert 0 <= hms <= (23 * 60 + 59) * 60 + 59;
  }

  lemma TimeOfDayMonotone(a: DateTime, b: DateTime)
    requires IsValid(a) && IsValid(b) && Before(a, b)
    requires a.year == b.year && a.month == b.month && a.day == b.day
    ensures ((a.hour * 60 + a.minute) * 60 + a.second) * 1000000 + a.microsecond
          < ((b.hour * 60 + b.minute) * 60 + b.second) * 1000000 + b.microsecond
  {
    var ha, hb := a.hour * 60 + a.minute, b.hour * 60 + b.minute;
    var sa, sb := ha * 60 + a.second, hb * 60 + b.second;
    if a.hour != b.hour {
      assert ha < hb;
    } else if a.minute != b.minute {
      assert ha < hb;
    } else {
      assert ha == hb;
    }
    assert sa <= sb;
    if sa < sb {
      assert sa * 1000000 + 1000000 <= sb * 1000000;
    }
  }

  lemma DayStep(da: int, db: int, ta: int, tb: int)
    requires da < db && 0 <= ta < MicrosPerDay && 0 <= tb
    ensures da * MicrosPerDay + ta < db * MicrosPerDay + tb
  {
    assert (db - da) * MicrosPerDay >= MicrosPerDay;
  }
}
