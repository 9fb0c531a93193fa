/** The canonical UTC form `YYYY-MM-DDTHH:MM:SSZ`, a profile of section 5.6 of RFC 3339, for the
    years 1000 to 9999 of the proleptic Gregorian calendar. String order is time order, as
    section 5.1 of RFC 3339 promises for it. */
module Timestamps {
  import opened Wrappers

  datatype Civil = Civil(y: int, mo: int, d: int, h: int, mi: int, s: int)
  {
    predicate Valid() {
      && 1000 <= y <= 9999 && 1 <= mo <= 12 && 1 <= d <= DaysInMonth(y, mo)
      && 0 <= h < 24 && 0 <= mi < 60 && 0 <= s < 60
    }
  }

  // --- the calendar -----------------------------------------------------------------------

  predicate IsLeap(y: int) {
    y % 4 == 0 && (y % 100 != 0 || y % 400 == 0)
  }

  function DaysInMonth(y: int, mo: int): (n: int)
    ensures 28 <= n <= 31
  {
    if mo == 2 then (if IsLeap(y) then 29 else 28)
    else if mo == 4 || mo == 6 || mo == 9 || mo == 11 then 30
    else 31
  }

  function DaysBeforeYear(y: int): int {
    365 * (y - 1) + (y - 1) / 4 - (y - 1) / 100 + (y - 1) / 400
  }

  function DaysBeforeMonth(y: int, mo: int): (n: int)
    ensures n >= 0
    decreases mo
  {
    if mo <= 1 then 0 else DaysBeforeMonth(y, mo - 1) + DaysInMonth(y, mo - 1)
  }

  function YearLength(y: int): int {
    if IsLeap(y) then 366 else 365
  }

  /** Days since 1 January of year 1, counted from 0. */
  function Day(c: Civil): int {
    DaysBeforeYear(c.y) + DaysBeforeMonth(c.y, c.mo) + c.d - 1
  }

  const EPOCH_DAY: int := 719162

  /** Seconds since 1970-01-01T00:00:00Z. */
  function Epoch(c: Civil): int {
    (Day(c) - EPOCH_DAY) * 86400 + c.h * 3600 + c.mi * 60 + c.s
  }

  /** The first and the last second with a four-digit year. */
  const MIN_EPOCH: int := -30_610_224_000
  const MAX_EPOCH: int := 253_402_300_799

  const MONTHS := [31, 28, 31, 30, 31, 30, 31, 31, 30, 31, 30, 31]

  /** The Gregorian calendar: the twelve months, one day more in February of a year divisible by 4,
      but not of the hundreds, unless divisible by 400; and the seconds since 1970 began. */
  lemma CalendarIs(y: int, mo: int)
    requires 1 <= mo <= 12
    ensures DaysInMonth(y, mo) == MONTHS[mo - 1] + if mo == 2 && IsLeap(y) then 1 else 0
    ensures IsLeap(y) <==> (y % 400 == 0 || (y % 4 == 0 && y % 100 != 0))
    ensures Epoch(Civil(1970, 1, 1, 0, 0, 0)) == 0 && Epoch(Civil(2000, 1, 1, 0, 0, 0)) == 946_684_800
  {
  }

  lemma YearStep(y: int)
    ensures DaysBeforeYear(y + 1) == DaysBeforeYear(y) + YearLength(y)
  {
    DivStep(y, 4);
    DivStep(y, 100);
    DivStep(y, 400);
    Centuries(y);
  }

  lemma Centuries(y: int)
    ensures y % 400 == 0 ==> y % 100 == 0
    ensures y % 100 == 0 ==> y % 4 == 0
  {
    var q, r := y / 400, y % 400;
    assert y == 100 * (4 * q) + r;
    var t, u := y / 100, y % 100;
    assert y == 4 * (25 * t) + u;
  }

  lemma DivStep(y: int, k: int)
    requires k == 4 || k == 100 || k == 400
    ensures y / k == (y - 1) / k + if y % k == 0 then 1 else 0
  {
  }

  lemma {:induction false} YearsGrow(a: int, b: int)
    requires a <= b
    ensures DaysBeforeYear(a) + (b - a) * 365 <= DaysBeforeYear(b)
    decreases b - a
  {
    if a < b {
      YearsGrow(a, b - 1);
      YearStep(b - 1);
    }
  }

  lemma {:induction false} MonthsGrow(y: int, a: int, b: int)
    requires 1 <= a <= b
    ensures DaysBeforeMonth(y, a) <= DaysBeforeMonth(y, b)
    ensures a < b ==> DaysBeforeMonth(y, a) + DaysInMonth(y, a) <= DaysBeforeMonth(y, b)
    decreases b - a
  {
    if a < b {
      MonthsGrow(y, a, b - 1);
    }
  }

  lemma YearIsItsMonths(y: int)
    ensures DaysBeforeMonth(y, 13) == YearLength(y)
  {
    assert DaysBeforeMonth(y, 5) == DaysBeforeMonth(y, 3) + 61;
    assert DaysBeforeMonth(y, 7) == DaysBeforeMonth(y, 5) + 61;
    assert DaysBeforeMonth(y, 9) == DaysBeforeMonth(y, 7) + 62;
    assert DaysBeforeMonth(y, 11) == DaysBeforeMonth(y, 9) + 61;
    assert DaysBeforeMonth(y, 13) == DaysBeforeMonth(y, 11) + 61;
  }

  lemma DayInYear(c: Civil)
    requires c.Valid()
    ensures DaysBeforeYear(c.y) <= Day(c) < DaysBeforeYear(c.y + 1)
  {
    MonthsGrow(c.y, c.mo, 13);
    YearIsItsMonths(c.y);
    YearStep(c.y);
  }

  /** Field by field, most significant first. */
  predicate Before(a: Civil, b: Civil) {
    || a.y < b.y
    || (a.y == b.y && (|| a.mo < b.mo
                       || (a.mo == b.mo && (|| a.d < b.d
                                            || (a.d == b.d && (a.h * 3600 + a.mi * 60 + a.s < b.h * 3600 + b.mi * 60
                                              + b.s))))))
  }

  lemma BeforeIsEarlier(a: Civil, b: Civil)
    requires a.Valid() && b.Valid() && Before(a, b)
    ensures Epoch(a) < Epoch(b)
  {
    if a.y < b.y {
      DayInYear(a);
      DayInYear(b);
      YearsGrow(a.y + 1, b.y);
      assert Day(a) < Day(b);
    } else if a.mo < b.mo {
      MonthsGrow(a.y, a.mo, b.mo);
      assert Day(a) < Day(b);
    }
  }

  /** Chronological order is the order of the fields. */
  lemma EpochOrder(a: Civil, b: Civil)
    requires a.Valid() && b.Valid()
    ensures Epoch(a) < Epoch(b) <==> Before(a, b)
    ensures Epoch(a) == Epoch(b) <==> a == b
  {
    if Before(a, b) {
      BeforeIsEarlier(a, b);
    } else if Before(b, a) {
      BeforeIsEarlier(b, a);
    } else {
      assert a.h == b.h && a.mi == b.mi && a.s == b.s;
    }
  }

  // --- from an instant back to the calendar --------------------------------------------------

  function YearOf(day: int, from: int): (y: int)
    requires DaysBeforeYear(from) <= day
    ensures from <= y && DaysBeforeYear(y) <= day < DaysBeforeYear(y + 1)
    decreases day - DaysBeforeYear(from)
  {
    YearStep(from);
    if day < DaysBeforeYear(from + 1) then from else YearOf(day, from + 1)
  }

  function MonthOf(y: int, rest: int, from: int): (mo: int)
    requires 1 <= from <= 12 && DaysBeforeMonth(y, from) <= rest < YearLength(y)
    ensures from <= mo <= 12 && DaysBeforeMonth(y, mo) <= rest < DaysBeforeMonth(y, mo) + DaysInMonth(y, mo)
    decreases 12 - from
  {
    YearIsItsMonths(y);
    if rest < DaysBeforeMonth(y, from) + DaysInMonth(y, from) then from else MonthOf(y, rest, from + 1)
  }

  predicate InRange(epoch: int) {
    MIN_EPOCH <= epoch <= MAX_EPOCH
  }

  lemma RangeEnds()
    ensures Epoch(Civil(1000, 1, 1, 0, 0, 0)) == MIN_EPOCH == (DaysBeforeYear(1000) - EPOCH_DAY) * 86400
    ensures Epoch(Civil(9999, 12, 31, 23, 59, 59)) == MAX_EPOCH == (DaysBeforeYear(10000) - EPOCH_DAY) * 86400 - 1
  {
    assert DaysBeforeMonth(9999, 12) + 31 == DaysBeforeMonth(9999, 13);
    YearIsItsMonths(9999);
    assert DaysBeforeYear(9999) == 3651694 && DaysBeforeYear(10000) == 3652059 && DaysBeforeYear(1000) == 364877;
    assert DaysBeforeMonth(1000, 1) == 0;
  }

  lemma RangeOfDays(epoch: int)
    requires InRange(epoch)
    ensures DaysBeforeYear(1000) <= epoch / 86400 + EPOCH_DAY < DaysBeforeYear(10000)
  {
    RangeEnds();
  }

  function FromEpoch(epoch: int): (c: Civil)
    requires InRange(epoch)
    ensures c.Valid() && Epoch(c) == epoch
  {
    RangeOfDays(epoch);
    var day := epoch / 86400 + EPOCH_DAY;
    var sec := epoch % 86400;
    var y := YearOf(day, 1000);
    YearStep(y);
    var rest := day - DaysBeforeYear(y);
    var mo := MonthOf(y, rest, 1);
    assert y <= 9999 by {
      if y >= 10000 { YearsGrow(10000, y); }
    }
    Civil(y, mo, rest - DaysBeforeMonth(y, mo) + 1, sec / 3600, sec % 3600 / 60, sec % 60)
  }

  lemma EpochInRange(c: Civil)
    requires c.Valid()
    ensures InRange(Epoch(c))
  {
    RangeEnds();
    EpochOrder(Civil(1000, 1, 1, 0, 0, 0), c);
    EpochOrder(c, Civil(9999, 12, 31, 23, 59, 59));
  }

  /** `FromEpoch` is the inverse of `Epoch` (its other half is its postcondition). */
  lemma FromEpochInverts(c: Civil)
    requires c.Valid()
    ensures InRange(Epoch(c)) && FromEpoch(Epoch(c)) == c
  {
    EpochInRange(c);
    EpochOrder(FromEpoch(Epoch(c)), c);
  }
}
