/** The UTC calendar of JavaScript dates: day numbers of the proleptic Gregorian calendar and the fields read
    back from them (section 21.4.1 of ECMA-262), in whole seconds. */
module Calendar {

  /** A date-time as six numbers, whether or not they name a real one. */
  datatype Civil = Civil(year: int, month: int, day: int, hour: int, minute: int, second: int)

  // ---- the calendar itself ----

  predicate IsLeap(y: int) {
    y % 4 == 0 && (y % 100 != 0 || y % 400 == 0)
  }

  function DaysInMonth(y: int, m: int): int {
    if m == 2 then (if IsLeap(y) then 29 else 28) else if m in {4, 6, 9, 11} then 30 else 31
  }

  /** A date-time that exists in the Gregorian calendar. */
  predicate IsReal(c: Civil) {
    && 1 <= c.month <= 12
    && 1 <= c.day <= DaysInMonth(c.year, c.month)
    && 0 <= c.hour < 24 && 0 <= c.minute < 60 && 0 <= c.second < 60
  }

  // ---- numbers to time ----

  /** The day number of January 1 of a year. */
  function DayFromYear(y: int): int {
    365 * (y - 1970) + (y - 1969) / 4 - (y - 1901) / 100 + (y - 1601) / 400
  }

  /** Days of a year before its month `m`, January being 0. */
  function DaysBeforeMonth(leap: bool, m: int): int {
    var l := if leap then 1 else 0;
    match m
    case 0 => 0
    case 1 => 31
    case 2 => 59 + l
    case 3 => 90 + l
    case 4 => 120 + l
    case 5 => 151 + l
    case 6 => 181 + l
    case 7 => 212 + l
    case 8 => 243 + l
    case 9 => 273 + l
    case 10 => 304 + l
    case _ => if m == 11 then 334 + l else 365 + l
  }

  /** Month overflow carries into the year, day overflow runs on. */
  function MakeDay(year: int, month: int, day: int): int {
    var y := year + month / 12;
    DayFromYear(y) + DaysBeforeMonth(IsLeap(y), month % 12) + day - 1
  }

  /** Date.UTC of the six fields, month counted from 1: years 0 to 99 mean 1900 to 1999. */
  function Utc(c: Civil): int {
    var year := if 0 <= c.year <= 99 then 1900 + c.year else c.year;
    86400 * MakeDay(year, c.month - 1, c.day) + 3600 * c.hour + 60 * c.minute + c.second
  }

  // ---- time to numbers ----

  /** The largest year that starts on or before a day. */
  function YearFrom(day: int, y: int): (r: int)
    requires DayFromYear(y) <= day
    ensures DayFromYear(r) <= day < DayFromYear(r + 1)
    decreases day - DayFromYear(y)
  {
    YearLength(y);
    if DayFromYear(y + 1) <= day then YearFrom(day, y + 1) else y
  }

  /** A year that starts on or before the day, to search from. */
  function EarlyYear(day: int): (y: int)
    ensures DayFromYear(y) <= day
  {
    if day >= 0 then 1970 else 1970 + day
  }

  function MonthFrom(leap: bool, dayInYear: int): (m: int)
    requires 0 <= dayInYear < DaysBeforeMonth(leap, 12)
    ensures 0 <= m < 12 && DaysBeforeMonth(leap, m) <= dayInYear < DaysBeforeMonth(leap, m + 1)
  {
    if dayInYear < DaysBeforeMonth(leap, 1) then 0
    else if dayInYear < DaysBeforeMonth(leap, 2) then 1
    else if dayInYear < DaysBeforeMonth(leap, 3) then 2
    else if dayInYear < DaysBeforeMonth(leap, 4) then 3
    else if dayInYear < DaysBeforeMonth(leap, 5) then 4
    else if dayInYear < DaysBeforeMonth(leap, 6) then 5
    else if dayInYear < DaysBeforeMonth(leap, 7) then 6
    else if dayInYear < DaysBeforeMonth(leap, 8) then 7
    else if dayInYear < DaysBeforeMonth(leap, 9) then 8
    else if dayInYear < DaysBeforeMonth(leap, 10) then 9
    else if dayInYear < DaysBeforeMonth(leap, 11) then 10
    else 11
  }

  lemma YearLength(y: int)
    ensures DayFromYear(y + 1) - DayFromYear(y) == DaysBeforeMonth(IsLeap(y), 12)
  {
    LeapStep(y, 4, 1969);
    LeapStep(y, 100, 1901);
    LeapStep(y, 400, 1601);
    LeapsNest(y);
  }

  /** Counting the multiples of `k` up to a year goes up by one exactly at a multiple. */
  lemma LeapStep(y: int, k: int, base: int)
    requires k > 0 && (base - 1) % k == 0
    ensures (y + 1 - base) / k - (y - base) / k == if y % k == 0 then 1 else 0
  {
    var c, q, r := (base - 1) / k, y / k, y % k;
    assert y == k * q + r && base - 1 == k * c;
    assert y + 1 - base == k * (q - c) + r;
    Quotient(y + 1 - base, k, q - c, r);
    if r == 0 {
      assert y - base == k * (q - c - 1) + (k - 1) by { assert k * (q - c) == k * (q - c - 1) + k; }
      Quotient(y - base, k, q - c - 1, k - 1);
    } else {
      Quotient(y - base, k, q - c, r - 1);
    }
  }

  lemma Quotient(x: int, k: int, q: int, r: int)
    requires k > 0 && x == k * q + r && 0 <= r < k
    ensures x / k == q
  {
    var d := x / k - q;
    assert x == k * (x / k) + x % k;
    assert k * d == r - x % k by { assert k * (x / k) - k * q == k * d; }
    assert d >= 1 ==> k * d >= k;
    assert d <= -1 ==> k * d <= -k;
  }

  lemma LeapsNest(y: int)
    ensures y % 400 == 0 ==> y % 100 == 0
    ensures y % 100 == 0 ==> y % 4 == 0
  {
  }

  function CivilOfDay(day: int): (int, int, int) {
    var y := YearFrom(day, EarlyYear(day));
    YearLength(y);
    var k := day - DayFromYear(y);
    var m := MonthFrom(IsLeap(y), k);
    (y, m + 1, k - DaysBeforeMonth(IsLeap(y), m) + 1)
  }

  /** The UTC fields of a time. */
  function Fields(t: int): Civil {
    var date := CivilOfDay(t / 86400);
    var s := t % 86400;
    Civil(date.0, date.1, date.2, s / 3600, s / 60 % 60, s % 60)
  }

  // ---- the two conversions are inverse ----

  lemma MonthLength(y: int, m: int)
    requires 0 <= m < 12
    ensures DaysBeforeMonth(IsLeap(y), m + 1) - DaysBeforeMonth(IsLeap(y), m) == DaysInMonth(y, m + 1)
  {
  }

  /** Whatever the time, its fields name a real date-time. */
  lemma FieldsAreReal(t: int)
    ensures IsReal(Fields(t))
  {
    var day := t / 86400;
    var y := YearFrom(day, EarlyYear(day));
    YearLength(y);
    MonthLength(y, MonthFrom(IsLeap(y), day - DayFromYear(y)));
  }

  lemma {:induction false} YearsGrow(a: int, b: int)
    requires a <= b
    ensures DayFromYear(a) <= DayFromYear(b)
    decreases b - a
  {
    if a < b {
      YearLength(a);
      YearsGrow(a + 1, b);
    }
  }

  lemma {:induction false} MonthsGrow(leap: bool, a: int, b: int)
    requires 0 <= a <= b <= 12
    ensures DaysBeforeMonth(leap, a) <= DaysBeforeMonth(leap, b)
    decreases b - a
  {
    if a < b {
      MonthsGrow(leap, a + 1, b);
    }
  }

  lemma NoMonthBefore(leap: bool)
    ensures DaysBeforeMonth(leap, 0) == 0
  {
  }

  /** The day number of a real date reads back as that date. */
  lemma DateReadsBack(y: int, m: int, d: int)
    requires 1 <= m <= 12 && 1 <= d <= DaysInMonth(y, m)
    ensures CivilOfDay(MakeDay(y, m - 1, d)) == (y, m, d)
  {
    hide DayFromYear, IsLeap, DaysInMonth, DaysBeforeMonth;
    assert (m - 1) / 12 == 0 && (m - 1) % 12 == m - 1;
    assert DaysBeforeMonth(IsLeap(y), 0) == 0 by { NoMonthBefore(IsLeap(y)); }
    var day := MakeDay(y, m - 1, d);
    var k := DaysBeforeMonth(IsLeap(y), m - 1) + d - 1;
    assert day == DayFromYear(y) + k;
    MonthLength(y, m - 1);
    MonthsGrow(IsLeap(y), 0, m - 1);
    MonthsGrow(IsLeap(y), m, 12);
    YearLength(y);
    var r := YearFrom(day, EarlyYear(day));
    if r < y { YearsGrow(r + 1, y); }
    if y < r { YearsGrow(y + 1, r); }
    var n := MonthFrom(IsLeap(y), k);
    if n < m - 1 { MonthsGrow(IsLeap(y), n + 1, m - 1); }
    if m - 1 < n { MonthsGrow(IsLeap(y), m, n); }
  }

  /** Every day number is the day number of its own date. */
  lemma DayReadsBack(day: int)
    ensures var (y, m, d) := CivilOfDay(day); MakeDay(y, m - 1, d) == day
  {
    hide DayFromYear, IsLeap;
    var y := YearFrom(day, EarlyYear(day));
    YearLength(y);
    var m := MonthFrom(IsLeap(y), day - DayFromYear(y));
    assert m / 12 == 0 && m % 12 == m;
  }

  lemma TimeOfDayReadsBack(day: int, h: int, mi: int, s: int)
    requires 0 <= h < 24 && 0 <= mi < 60 && 0 <= s < 60
    ensures var t := 86400 * day + 3600 * h + 60 * mi + s;
      t / 86400 == day && t % 86400 / 3600 == h && t % 86400 / 60 % 60 == mi && t % 86400 % 60 == s
  {
    var t, within := 86400 * day + 3600 * h + 60 * mi + s, 3600 * h + 60 * mi + s;
    assert 0 <= within < 86400;
    assert t / 86400 == day && t % 86400 == within;
    assert within / 60 == 60 * h + mi;
  }

  /** A real date-time outside the years 0 to 99 survives the trip through a time and back. */
  lemma RealReadsBack(c: Civil)
    requires IsReal(c) && !(0 <= c.year <= 99)
    ensures Fields(Utc(c)) == c
  {
    hide MakeDay, CivilOfDay, DaysInMonth;
    var day := MakeDay(c.year, c.month - 1, c.day);
    DateReadsBack(c.year, c.month, c.day);
    TimeOfDayReadsBack(day, c.hour, c.minute, c.second);
  }

  /** EXACT. Normalising six numbers through a time and comparing the fields read back accepts precisely the
      real date-times, from year 100 on. */
  lemma NormalizingDetectsReal(c: Civil)
    requires c.year >= 100
    ensures Fields(Utc(c)) == c <==> IsReal(c)
  {
    if IsReal(c) {
      RealReadsBack(c);
    }
    FieldsAreReal(Utc(c));
  }

  /** The years 0 to 99 never survive: they are read as 1900 to 1999. */
  lemma ShortYearsNeverSurvive(c: Civil)
    requires 0 <= c.year <= 99 && IsReal(c)
    ensures Fields(Utc(c)).year >= 1900
  {
    hide DayFromYear, IsLeap, DaysInMonth, DaysBeforeMonth;
    var day := MakeDay(1900 + c.year, c.month - 1, c.day);
    TimeOfDayReadsBack(day, c.hour, c.minute, c.second);
    assert (c.month - 1) / 12 == 0 && (c.month - 1) % 12 == c.month - 1;
    NoMonthBefore(IsLeap(1900 + c.year));
    MonthsGrow(IsLeap(1900 + c.year), 0, c.month - 1);
    var r := YearFrom(day, EarlyYear(day));
    if r < 1900 { YearsGrow(r + 1, 1900 + c.year); }
  }

  lemma TimeOfDayAddsUp(t: int)
    ensures 86400 * (t / 86400) + 3600 * (t % 86400 / 3600) + 60 * (t % 86400 / 60 % 60) + t % 86400 % 60 == t
  {
    var s := t % 86400;
    assert s / 60 / 60 == s / 3600;
  }

  lemma UtcOfFields(t: int)
    requires !(0 <= Fields(t).year <= 99)
    ensures Utc(Fields(t)) == t
  {
    DayReadsBack(t / 86400);
    hide MakeDay, CivilOfDay;
    TimeOfDayAddsUp(t);
  }

  /** EXACT. A time is the time of its own fields, except in the years 0 to 99. */
  lemma TimeReadsBack(t: int)
    ensures Utc(Fields(t)) == t <==> !(0 <= Fields(t).year <= 99)
  {
    FieldsAreReal(t);
    hide Fields, Utc, IsReal;
    if 0 <= Fields(t).year <= 99 {
      ShortYearsNeverSurvive(Fields(t));
    } else {
      UtcOfFields(t);
    }
  }

  lemma KnownYears()
    ensures DayFromYear(1970) == 0 && DayFromYear(2024) == 19723 && DayFromYear(2026) == 20454
    ensures IsLeap(2024) && !IsLeap(1970) && !IsLeap(2026)
  {
  }

  lemma KnownDays()
    ensures MakeDay(1970, 0, 1) == 0 && MakeDay(2024, 1, 29) == 19782 && MakeDay(2026, 0, 1) == 20454
  {
    KnownYears();
    hide DayFromYear, IsLeap;
  }

  /** Time zero is the first of January 1970, 2024 had a twenty-ninth of February, and 2026 begins where it should. */
  lemma KnownTimes()
    ensures Utc(Civil(1970, 1, 1, 0, 0, 0)) == 0
    ensures Utc(Civil(2024, 2, 29, 23, 59, 59)) == 1709251199
    ensures Utc(Civil(2026, 1, 1, 0, 0, 0)) == 1767225600
  {
    KnownDays();
    hide MakeDay;
  }

  /** The fields of time zero. */
  lemma EpochFields()
    ensures Fields(0) == Civil(1970, 1, 1, 0, 0, 0)
  {
    var epoch := Civil(1970, 1, 1, 0, 0, 0);
    KnownTimes();
    hide Fields, Utc;
    RealReadsBack(epoch);
  }

  /** Twelve months more are a year more, and days, hours, minutes and seconds run on: the thirteenth month is the
      first of the next year. */
  lemma Overflows(year: int, month: int, day: int, n: int)
    ensures MakeDay(year, month + 12, day) == MakeDay(year + 1, month, day)
    ensures MakeDay(year, month, day + n) == MakeDay(year, month, day) + n
  {
    assert (month + 12) / 12 == month / 12 + 1 && (month + 12) % 12 == month % 12;
  }
}
