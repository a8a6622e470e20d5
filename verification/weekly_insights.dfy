/**
 * The date and rotation arithmetic of `lib/weekly-insights.ts`: the UTC Monday
 * that starts a date's week, the 32-bit string hash of that Monday's ISO
 * string, the template it selects, and the plain-text body of the weekly email.
 *
 * A JavaScript `Date` is a time value in milliseconds since 1970-01-01T00:00Z,
 * or NaN; time values are clipped to at most 8.64e15 in magnitude. Day numbers,
 * weekdays and civil dates follow the ECMAScript definitions, with day 0 a
 * Thursday. `Date.UTC` reads a year from 0 to 99 as 1900 to 1999, as its
 * definition in ECMA-262 prescribes, so the week start is a Monday only for
 * dates outside those years.
 */
module WeeklyInsights {
  import opened Wrappers
  import opened Numeric
  import opened Text

  const MsPerDay: int := 86_400_000
  const MaxTime: int := 8_640_000_000_000_000

  /** A time value, or the invalid date. */
  datatype JsDate = Valid(ms: int) | Invalid

  /** Every `Date` the runtime can hold: its time value lies within the clip range. */
  type Date = d: JsDate | d.Invalid? || -MaxTime <= d.ms <= MaxTime witness Invalid

  /** `TimeClip`: a time value outside the range becomes the invalid date. */
  function MakeDate(ms: int): (d: Date)
    ensures d.Valid? <==> -MaxTime <= ms <= MaxTime
    ensures d.Valid? ==> d.ms == ms
  {
    if -MaxTime <= ms <= MaxTime then Valid(ms) else Invalid
  }

  /** `Day(t)`: the day number, rounding towards minus infinity. */
  function Day(ms: int): int {
    ms / MsPerDay
  }

  /** `WeekDay(t)`: 0 for Sunday through 6 for Saturday. */
  function WeekDay(ms: int): (wd: int)
    ensures 0 <= wd < 7
  {
    (Day(ms) + 4) % 7
  }

  /** 1 January 1970 was a Thursday and 5 January 1970 a Monday; weekdays repeat every seven days. */
  lemma WeekDayAnchor(ms: int)
    ensures WeekDay(0) == 4 && WeekDay(4 * MsPerDay) == 1
    ensures WeekDay(ms + 7 * MsPerDay) == WeekDay(ms)
  {
    assert Day(ms + 7 * MsPerDay) == Day(ms) + 7;
  }

  predicate IsMidnight(ms: int) {
    ms % MsPerDay == 0
  }

  /** The offset in days from a weekday to the Monday that starts its week. */
  function MondayOffset(weekday: int): (diff: int)
    requires 0 <= weekday < 7
    ensures -6 <= diff <= 0
    ensures (weekday + diff) % 7 == 1
    ensures weekday == 0 ==> diff == -6
  {
    (if weekday == 0 then -6 else 1) - weekday
  }

  /** `Date.UTC`'s year rule: an integer year from 0 to 99 stands for 1900 to 1999. */
  function UtcYear(year: int): int {
    if 0 <= year <= 99 then 1900 + year else year
  }

  /** The civil date `Date.UTC` builds from a year 0..99: the same month and day, 1900 years later. */
  function Plus1900(c: Civil): Civil {
    Civil(c.year + 1900, c.month, c.day)
  }

  /** The UTC calendar year of a time value is one that `Date.UTC` reads as 1900 to 1999. */
  predicate TwoDigitYear(ms: int) {
    0 <= CivilFromDays(Day(ms)).year <= 99
  }

  /**
   * `Date.UTC(year, month, day)` for a day of a month: that day's UTC midnight,
   * reading a year from 0 to 99 as 1900 to 1999.
   */
  function DateUtc(year: int, month: int, day: int): (r: Date)
    requires 1 <= month <= 12 && 1 <= day <= 31
    ensures r.Valid? ==> IsMidnight(r.ms) && Day(r.ms) == DaysFromCivil(Civil(UtcYear(year), month, day))
    ensures 0 <= year <= 99 ==> r.Valid?
  {
    var days := DaysFromCivil(Civil(UtcYear(year), month, day));
    TwoDigitYearDays(year, month, day);
    DayOfMidnight(days);
    MakeDate(days * MsPerDay)
  }

  /** `setUTCDate(getUTCDate() + diff)`: the same time of day, `diff` days later. */
  function AddUtcDate(date: Date, diff: int): (r: Date)
    ensures date.Invalid? ==> r.Invalid?
    ensures date.Valid? ==> r == MakeDate(date.ms + diff * MsPerDay)
  {
    match date
    case Invalid => Invalid
    case Valid(t) =>
      var m := CivilFromDays(Day(t));
      SetDateStep(Day(t), diff);
      MakeDate(DaysFromCivil(Civil(m.year, m.month, m.day + diff)) * MsPerDay + t % MsPerDay)
  }

  /**
   * `getWeekStartUtc`: `Date.UTC` rebuilds midnight of the date's UTC day from
   * its year, month and day, and `setUTCDate` then moves it by the offset to
   * Monday. For every year outside 0..99 the result is the UTC midnight of the
   * Monday on or before the date's day. For years 0..99 `Date.UTC` first moves
   * the day into 1900..1999 and the offset, taken from the original weekday,
   * is applied there.
   */
  function GetWeekStartUtc(date: Date): (r: Date)
    ensures date.Invalid? ==> r.Invalid?
    ensures r.Valid? ==> IsMidnight(r.ms)
    ensures date.Valid? && !TwoDigitYear(date.ms) ==>
              r == MakeDate((Day(date.ms) + MondayOffset(WeekDay(date.ms))) * MsPerDay)
    ensures date.Valid? && !TwoDigitYear(date.ms) && r.Valid? ==>
              WeekDay(r.ms) == 1 && 0 <= Day(date.ms) - Day(r.ms) <= 6
    ensures date.Valid? && !TwoDigitYear(date.ms) && r.Valid? && WeekDay(date.ms) == 0 ==>
              Day(date.ms) - Day(r.ms) == 6
    ensures date.Valid? && date.ms >= -MaxTime + 6 * MsPerDay ==> r.Valid?
    ensures date.Valid? && TwoDigitYear(date.ms) ==>
              r.Valid? && Day(r.ms) == DaysFromCivil(Plus1900(CivilFromDays(Day(date.ms)))) + MondayOffset(WeekDay(date.ms))
  {
    match date
    case Invalid => Invalid
    case Valid(ms) =>
      var c := CivilFromDays(Day(ms));
      var diff := MondayOffset(WeekDay(ms));
      var monday := DateUtc(c.year, c.month, c.day);
      WeekStartFacts(ms, monday, diff);
      AddUtcDate(monday, diff)
  }

  /** The facts behind `GetWeekStartUtc`'s contract, for the midnight `Date.UTC` rebuilds. */
  lemma WeekStartFacts(ms: int, monday: Date, diff: int)
    requires -MaxTime <= ms <= MaxTime && diff == MondayOffset(WeekDay(ms))
    requires var c := CivilFromDays(Day(ms)); monday == DateUtc(c.year, c.month, c.day)
    ensures var r := AddUtcDate(monday, diff);
            && (r.Valid? ==> IsMidnight(r.ms))
            && (!TwoDigitYear(ms) ==> r == MakeDate((Day(ms) + diff) * MsPerDay))
            && (!TwoDigitYear(ms) && r.Valid? ==> WeekDay(r.ms) == 1 && 0 <= Day(ms) - Day(r.ms) <= 6)
            && (!TwoDigitYear(ms) && r.Valid? && WeekDay(ms) == 0 ==> Day(ms) - Day(r.ms) == 6)
            && (ms >= -MaxTime + 6 * MsPerDay ==> r.Valid?)
            && (TwoDigitYear(ms) ==> r.Valid? && Day(r.ms) == DaysFromCivil(Plus1900(CivilFromDays(Day(ms)))) + diff)
  {
    if TwoDigitYear(ms) {
      ShiftedWeekStart(ms, monday, diff);
    } else {
      OwnWeekStart(ms, monday, diff);
    }
  }

  /** Outside years 0..99, `Date.UTC` rebuilds the date's own midnight and the offset reaches its Monday. */
  lemma OwnWeekStart(ms: int, monday: Date, diff: int)
    requires -MaxTime <= ms <= MaxTime && diff == MondayOffset(WeekDay(ms)) && !TwoDigitYear(ms)
    requires var c := CivilFromDays(Day(ms)); monday == DateUtc(c.year, c.month, c.day)
    ensures var r := AddUtcDate(monday, diff);
            && r == MakeDate((Day(ms) + diff) * MsPerDay)
            && (r.Valid? ==> IsMidnight(r.ms) && WeekDay(r.ms) == 1 && Day(r.ms) == Day(ms) + diff)
            && (ms >= -MaxTime + 6 * MsPerDay ==> r.Valid?)
  {
    OwnMidnight(ms, monday);
    MondayStep(ms, diff);
  }

  /** Outside years 0..99, `Date.UTC` rebuilds the midnight of the date's own day. */
  lemma OwnMidnight(ms: int, monday: Date)
    requires -MaxTime <= ms <= MaxTime && !TwoDigitYear(ms)
    requires var c := CivilFromDays(Day(ms)); monday == DateUtc(c.year, c.month, c.day)
    ensures monday == Valid(Day(ms) * MsPerDay)
  {
    var c := CivilFromDays(Day(ms));
    assert Civil(UtcYear(c.year), c.month, c.day) == c;
    CivilRoundTrip(Day(ms));
    DayInRange(ms);
  }

  /** In years 0..99, the offset is applied to the midnight 1900 years later. */
  lemma ShiftedWeekStart(ms: int, monday: Date, diff: int)
    requires diff == MondayOffset(WeekDay(ms)) && TwoDigitYear(ms)
    requires var c := CivilFromDays(Day(ms)); monday == DateUtc(c.year, c.month, c.day)
    ensures var r := AddUtcDate(monday, diff);
            r.Valid? && IsMidnight(r.ms) && Day(r.ms) == DaysFromCivil(Plus1900(CivilFromDays(Day(ms)))) + diff
  {
    var c := CivilFromDays(Day(ms));
    assert Civil(UtcYear(c.year), c.month, c.day) == Plus1900(c);
    TwoDigitYearDays(c.year, c.month, c.day);
    MidnightShift(monday, diff);
  }

  /** From a midnight of 1900..1999 the offset lands on a midnight in range. */
  lemma MidnightShift(monday: Date, diff: int)
    requires monday.Valid? && IsMidnight(monday.ms) && -30000 <= Day(monday.ms) <= 30000 && -6 <= diff <= 0
    ensures var r := AddUtcDate(monday, diff);
            r.Valid? && IsMidnight(r.ms) && Day(r.ms) == Day(monday.ms) + diff
  {
    var start := Day(monday.ms);
    assert monday.ms == start * MsPerDay;
    MidnightStep(start, diff);
  }

  /** Moving a midnight by whole days lands on the midnight of the day moved to. */
  lemma MidnightStep(start: int, diff: int)
    ensures Day(start * MsPerDay + diff * MsPerDay) == start + diff
    ensures IsMidnight(start * MsPerDay + diff * MsPerDay)
  {
    assert start * MsPerDay + diff * MsPerDay == (start + diff) * MsPerDay;
    DayOfMidnight(start + diff);
  }

  /** From the midnight of a date's day, the offset reaches the Monday midnight of its week. */
  lemma MondayStep(ms: int, diff: int)
    requires -MaxTime <= ms <= MaxTime && diff == MondayOffset(WeekDay(ms))
    ensures var t := Day(ms) * MsPerDay + diff * MsPerDay;
            && Day(t) == Day(ms) + diff && IsMidnight(t) && WeekDay(t) == 1
            && (ms >= -MaxTime + 6 * MsPerDay ==> -MaxTime <= t)
  {
    MidnightStep(Day(ms), diff);
    MondayFacts(Day(ms), diff);
    assert Day(ms) * MsPerDay + diff * MsPerDay == (Day(ms) + diff) * MsPerDay;
    if ms >= -MaxTime + 6 * MsPerDay {
      assert Day(ms) >= -100_000_000 + 6 by {
        assert MaxTime == 100_000_000 * MsPerDay;
      }
    }
  }

  /** The day of a time value in range starts at a time value in range. */
  lemma DayInRange(ms: int)
    requires -MaxTime <= ms <= MaxTime
    ensures -MaxTime <= Day(ms) * MsPerDay <= MaxTime
  {
    assert Day(ms) * MsPerDay <= ms;
    assert -100_000_000 <= Day(ms) by {
      assert MaxTime == 100_000_000 * MsPerDay;
    }
  }

  /** The midnight of day `day` lies on that day. */
  lemma DayOfMidnight(day: int)
    ensures Day(day * MsPerDay) == day && IsMidnight(day * MsPerDay)
  {
  }

  /** A day of a month of 1900..1999, as `Date.UTC` reads a two-digit year, lies well within the time range. */
  lemma TwoDigitYearDays(year: int, month: int, day: int)
    requires 1 <= month <= 12 && 1 <= day <= 31
    ensures 0 <= year <= 99 ==> -30000 <= DaysFromCivil(Plus1900(Civil(year, month, day))) <= 30000
  {
    if 0 <= year <= 99 {
      var y := if month <= 2 then year + 1899 else year + 1900;
      assert y / 400 == 4;
    }
  }

  /** Adding `diff` to the day of the month of day `start` gives day `start + diff`. */
  lemma SetDateStep(start: int, diff: int)
    ensures var m := CivilFromDays(start);
            DaysFromCivil(Civil(m.year, m.month, m.day + diff)) == start + diff
  {
    CivilRoundTrip(start);
    DayOfMonthShift(CivilFromDays(start), diff);
  }

  /** The day number is linear in the day of the month. */
  lemma DayOfMonthShift(c: Civil, k: int)
    ensures DaysFromCivil(Civil(c.year, c.month, c.day + k)) == DaysFromCivil(c) + k
  {
  }

  /** The time value of the start of a day lies on that day and at its midnight. */
  lemma MondayFacts(day: int, diff: int)
    requires 0 <= (day + 4) % 7 < 7 && diff == MondayOffset((day + 4) % 7)
    ensures Day((day + diff) * MsPerDay) == day + diff
    ensures IsMidnight((day + diff) * MsPerDay)
    ensures WeekDay((day + diff) * MsPerDay) == 1
  {
    var wd := (day + 4) % 7;
    assert (day + diff + 4) % 7 == (wd + diff) % 7;
  }

  /**
   * The week start is the only Monday midnight 0 to 6 days before the date's
   * day: any such time value is the result.
   */
  lemma WeekStartIsUnique(date: Date, monday: int)
    requires date.Valid? && !TwoDigitYear(date.ms) && -MaxTime <= monday <= MaxTime
    requires IsMidnight(monday) && WeekDay(monday) == 1
    requires 0 <= Day(date.ms) - Day(monday) <= 6
    ensures GetWeekStartUtc(date) == Valid(monday)
  {
    MondayIsUnique(date.ms, monday);
  }

  /** A Monday midnight 0 to 6 days before a day is that day moved by its offset. */
  lemma MondayIsUnique(ms: int, monday: int)
    requires IsMidnight(monday) && WeekDay(monday) == 1
    requires 0 <= Day(ms) - Day(monday) <= 6
    ensures (Day(ms) + MondayOffset(WeekDay(ms))) * MsPerDay == monday
  {
    var day := Day(ms);
    var m := Day(monday);
    var diff := MondayOffset(WeekDay(ms));
    MondayFacts(day, diff);
    assert monday == m * MsPerDay;
    assert (m + 4) % 7 == 1;
    assert (day + diff + 4) % 7 == 1;
    assert m == day + diff by {
      assert -6 <= m - (day + diff) <= 6;
      assert (m - (day + diff)) % 7 == 0;
    }
  }

  /**
   * `getWeekStartUtc` is idempotent while neither the date nor its week start
   * falls in a year that `Date.UTC` reads as 1900 to 1999.
   */
  lemma WeekStartIdempotent(date: Date)
    requires date.Valid? ==> !TwoDigitYear(date.ms)
    ensures var r := GetWeekStartUtc(date);
            (r.Valid? ==> !TwoDigitYear(r.ms)) ==> GetWeekStartUtc(r) == r
  {
    var r := GetWeekStartUtc(date);
    if r.Valid? && !TwoDigitYear(r.ms) {
      WeekStartIsUnique(r, r.ms);
    }
  }

  /**
   * Saturday 1 January of the year 50 (day -701265): `Date.UTC` rebuilds it as
   * 1 January 1950 (day -7305), and the offset of -5 days taken from the
   * Saturday gives Tuesday 27 December 1949 (day -7310) rather than a Monday of
   * the year 49.
   */
  lemma TwoDigitYearWeekStart()
    ensures TwoDigitYear(-701265 * MsPerDay) && WeekDay(-701265 * MsPerDay) == 6
    ensures GetWeekStartUtc(Valid(-701265 * MsPerDay)) == Valid(-7310 * MsPerDay)
    ensures CivilFromDays(-7310) == Civil(1949, 12, 27) && WeekDay(-7310 * MsPerDay) == 2
  {
    Year50Day();
    var r := GetWeekStartUtc(Valid(-701265 * MsPerDay));
    assert Day(r.ms) == -7310;
    assert r.ms == Day(r.ms) * MsPerDay;
    Tuesday1949();
  }

  /** Day -701265 is Saturday 1 January of the year 50, which `Date.UTC` reads as day -7305. */
  lemma Year50Day()
    ensures Day(-701265 * MsPerDay) == -701265 && WeekDay(-701265 * MsPerDay) == 6
    ensures CivilFromDays(-701265) == Civil(50, 1, 1)
    ensures DaysFromCivil(Civil(1950, 1, 1)) == -7305
  {
    DayOfMidnight(-701265);
    assert YearOfEra(18203) == 49;
    CivilFromDaysAt(-701265, 0, 18203, 49, 10);
  }

  /** Day -7310 is Tuesday 27 December 1949. */
  lemma Tuesday1949()
    ensures CivilFromDays(-7310) == Civil(1949, 12, 27) && WeekDay(-7310 * MsPerDay) == 2
  {
    DayOfMidnight(-7310);
    assert YearOfEra(127770) == 349;
    CivilFromDaysAt(-7310, 4, 127770, 349, 9);
  }

  // ---------------------------------------------------------------------------
  // Template rotation

  /** The hash before `Math.abs`: `hash = (hash * 31 + code) | 0` over the characters. */
  function HashFold(value: string): (h: int)
    ensures IsInt32(h)
  {
    if value == [] then 0
    else ToInt32(HashFold(value[..|value| - 1]) * 31 + value[|value| - 1] as int)
  }

  /** `hashSeed`: the absolute value of the folded hash. */
  function HashSeed(value: string): (r: nat)
    ensures r <= TwoTo31
    ensures r == HashFold(value) || r == -HashFold(value)
  {
    AbsInt(HashFold(value))
  }

  /** The same hash without wrap-around: the base-31 value of the character codes. */
  function Poly(value: string): int {
    if value == [] then 0 else Poly(value[..|value| - 1]) * 31 + value[|value| - 1] as int
  }

  /** Two integers congruent modulo 2^32 wrap to the same 32-bit value. */
  lemma ToInt32Congruent(x: int, y: int)
    requires (x - y) % TwoTo32 == 0
    ensures ToInt32(x) == ToInt32(y)
  {
    var k := (x - y) / TwoTo32;
    assert x == y + k * TwoTo32;
    assert (x + TwoTo31) % TwoTo32 == (y + TwoTo31 + k * TwoTo32) % TwoTo32;
    ModAddMultiple(y + TwoTo31, k);
  }

  lemma ModAddMultiple(a: int, k: int)
    ensures (a + k * TwoTo32) % TwoTo32 == a % TwoTo32
  {
  }

  /** Wrapping to 32 bits after every step is the same as wrapping once at the end. */
  lemma {:induction false} HashFoldIsWrappedPoly(value: string)
    ensures HashFold(value) == ToInt32(Poly(value))
  {
    if value != [] {
      var init := value[..|value| - 1];
      var c := value[|value| - 1] as int;
      HashFoldIsWrappedPoly(init);
      var h, p := HashFold(init), Poly(init);
      assert (h - p) % TwoTo32 == 0;
      var k := (h - p) / TwoTo32;
      assert h == p + k * TwoTo32;
      assert (h * 31 + c) - (p * 31 + c) == (k * 31) * TwoTo32;
      ModAddMultiple(0, k * 31);
      ToInt32Congruent(h * 31 + c, p * 31 + c);
    }
  }

  /** `hashSeed` computed by the source's loop. */
  method HashSeedLoop(value: string) returns (seed: nat)
    ensures seed == HashSeed(value)
  {
    var hash := 0;
    var i := 0;
    while i < |value|
      invariant 0 <= i <= |value|
      invariant hash == HashFold(value[..i])
    {
      assert value[..i + 1][..i] == value[..i];
      hash := ToInt32(hash * 31 + value[i] as int);
      i := i + 1;
    }
    assert value[..i] == value;
    seed := if hash < 0 then -hash else hash;
  }

  // ---------------------------------------------------------------------------
  // ISO strings

  /** A proleptic Gregorian calendar date. */
  datatype Civil = Civil(year: int, month: int, day: int)

  /** Days in the years of a 400-year era (starting in March) before year `yoe`. */
  function DaysBeforeYear(yoe: int): int {
    365 * yoe + yoe / 4 - yoe / 100
  }

  /** Days in the months (counted from March) before month index `mp`. */
  function DaysBeforeMonth(mp: int): int {
    (153 * mp + 2) / 5
  }

  /** The year within a 400-year era of its day `doe`. */
  function YearOfEra(doe: int): (yoe: int)
    requires 0 <= doe < 146097
    ensures 0 <= yoe < 400
    ensures 0 <= doe - DaysBeforeYear(yoe) <= 365
  {
    if doe == 146096 then
      assert (doe - doe / 1460 + doe / 36524 - doe / 146096) / 365 == 399;
      399
    else
      var c := doe / 36524;
      var q := (doe - 36524 * c) / 1461;
      YearOfEraInBlock(doe, c, q);
      (doe - doe / 1460 + doe / 36524 - doe / 146096) / 365
  }

  /**
   * Inside century `c` and four-year block `q` of an era, the year of the era
   * is `100c + 4q` plus at most 3, and the day of that year is at most 365.
   */
  lemma YearOfEraInBlock(doe: int, c: int, q: int)
    requires 0 <= c < 4 && 0 <= q < 25
    requires 36524 * c + 1461 * q <= doe < 36524 * c + 1461 * q + 1461 && doe < 36524 * c + 36524
    ensures var yoe := (doe - doe / 1460 + doe / 36524 - doe / 146096) / 365;
            0 <= yoe < 400 && 0 <= doe - DaysBeforeYear(yoe) <= 365
  {
    var r := doe - 36524 * c - 1461 * q;
    assert doe / 36524 == c;
    assert doe / 146096 == 0;
    var e := (24 * c + q + r) / 1460;
    assert 0 <= e <= 1;
    assert doe == 1460 * (25 * c + q) + (24 * c + q + r);
    assert doe / 1460 == 25 * c + q + e;
    var y1 := (r - e) / 365;
    assert 0 <= y1 <= 3;
    assert doe - doe / 1460 + doe / 36524 - doe / 146096 == 365 * (100 * c + 4 * q) + (r - e);
    var yoe := 100 * c + 4 * q + y1;
    assert (doe - doe / 1460 + doe / 36524 - doe / 146096) / 365 == yoe;
    assert yoe / 4 == 25 * c + q;
    assert yoe / 100 == c;
  }

  /** The civil date of a day number (day 0 is 1970-01-01), by 400-year eras starting on 1 March. */
  function CivilFromDays(days: int): (c: Civil)
    ensures 1 <= c.month <= 12 && 1 <= c.day <= 31
  {
    var z := days + 719468;
    var era := z / 146097;
    var doe := z - era * 146097;
    var yoe := YearOfEra(doe);
    var y := yoe + era * 400;
    var doy := doe - DaysBeforeYear(yoe);
    var mp := (5 * doy + 2) / 153;
    var d := doy - DaysBeforeMonth(mp) + 1;
    var m := if mp < 10 then mp + 3 else mp - 9;
    Civil(if m <= 2 then y + 1 else y, m, d)
  }

  /** The day number of a civil date. */
  function DaysFromCivil(c: Civil): int {
    var y := if c.month <= 2 then c.year - 1 else c.year;
    var era := y / 400;
    var yoe := y - era * 400;
    var mp := if c.month > 2 then c.month - 3 else c.month + 9;
    var doy := DaysBeforeMonth(mp) + c.day - 1;
    era * 146097 + DaysBeforeYear(yoe) + doy - 719468
  }

  /** Converting a day number to a civil date and back gives the day number. */
  lemma CivilRoundTrip(days: int)
    ensures DaysFromCivil(CivilFromDays(days)) == days
  {
    var z := days + 719468;
    var era := z / 146097;
    var doe := z - era * 146097;
    var yoe := YearOfEra(doe);
    var doy := doe - DaysBeforeYear(yoe);
    var mp := (5 * doy + 2) / 153;
    assert 0 <= mp <= 11;
    var c := CivilFromDays(days);
    var y := if c.month <= 2 then c.year - 1 else c.year;
    assert y == yoe + era * 400;
    assert y / 400 == era;
    var mp' := if c.month > 2 then c.month - 3 else c.month + 9;
    assert mp' == mp;
  }

  /** The year field of an ISO string: four digits, or a sign and six digits outside 0..9999. */
  function IsoYear(year: int): string {
    if 0 <= year <= 9999 then PadNat(year, 4)
    else (if year < 0 then "-" else "+") + PadNat(AbsInt(year), 6)
  }

  /**
   * `toISOString`: `YYYY-MM-DDTHH:mm:ss.sssZ`; the invalid date has none (it throws).
   * For the years 0 to 9999 the string has 24 characters with the separators at
   * fixed positions.
   */
  function ToIsoString(date: Date): (r: Option<string>)
    ensures r.None? <==> date.Invalid?
    ensures date.Valid? && 0 <= CivilFromDays(Day(date.ms)).year <= 9999 ==> IsoLayout(r.value)
  {
    match date
    case Invalid => None
    case Valid(ms) =>
      var c := CivilFromDays(Day(ms));
      var t := ms % MsPerDay;
      var fields := [IsoYear(c.year), PadNat(c.month, 2), PadNat(c.day, 2), PadNat(t / 3_600_000, 2),
                     PadNat(t / 60_000 % 60, 2), PadNat(t / 1000 % 60, 2), PadNat(t % 1000, 3)];
      if 0 <= c.year <= 9999 then
        NatToStringLength(c.year);
        NatToStringLength(c.month);
        NatToStringLength(c.day);
        NatToStringLength(t / 3_600_000);
        NatToStringLength(t / 60_000 % 60);
        NatToStringLength(t / 1000 % 60);
        NatToStringLength(t % 1000);
        AssembleLayout(fields[0], fields[1], fields[2], fields[3], fields[4], fields[5], fields[6]);
        Some(IsoAssemble(fields[0], fields[1], fields[2], fields[3], fields[4], fields[5], fields[6]))
      else Some(IsoAssemble(fields[0], fields[1], fields[2], fields[3], fields[4], fields[5], fields[6]))
  }

  /** The ISO string from its seven fields. */
  function IsoAssemble(year: string, month: string, day: string, hour: string, minute: string, second: string, milli: string): string {
    year + "-" + month + "-" + day + "T" + hour + ":" + minute + ":" + second + "." + milli + "Z"
  }

  /** Twenty-four characters with `-`, `-`, `T`, `:`, `:`, `.` and `Z` at their fixed positions. */
  predicate IsoLayout(s: string) {
    |s| == 24 && s[4] == '-' && s[7] == '-' && s[10] == 'T' && s[13] == ':' && s[16] == ':' && s[19] == '.' && s[23] == 'Z'
  }

  lemma AssembleLayout(year: string, month: string, day: string, hour: string, minute: string, second: string, milli: string)
    requires |year| == 4 && |month| == 2 && |day| == 2 && |hour| == 2 && |minute| == 2 && |second| == 2 && |milli| == 3
    ensures IsoLayout(IsoAssemble(year, month, day, hour, minute, second, milli))
  {
  }

  /** Decimal digits of numbers below 10, 100, 1000 and 10000. */
  lemma NatToStringLength(n: nat)
    ensures n < 10 ==> |NatToString(n)| == 1
    ensures n < 100 ==> |NatToString(n)| <= 2
    ensures n < 1000 ==> |NatToString(n)| <= 3
    ensures n < 10000 ==> |NatToString(n)| <= 4
  {
    if n >= 10 {
      NatToStringLength(n / 10);
    }
  }

  /** The epoch renders as 1970-01-01T00:00:00.000Z. */
  lemma EpochIsoString()
    ensures ToIsoString(Valid(0)) == Some("1970-01-01T00:00:00.000Z")
  {
    var epoch: Date := Valid(0);
    assert CivilFromDays(Day(epoch.ms)) == Civil(1970, 1, 1) by {
      EpochDate();
    }
    IsoOfMidnight(epoch);
    EpochFields();
  }

  /** `toISOString` of a valid date from its calendar day and its time of day. */
  lemma IsoFieldsAt(date: Date)
    requires date.Valid?
    ensures var c := CivilFromDays(Day(date.ms));
            var t := date.ms % MsPerDay;
            ToIsoString(date) == Some(IsoAssemble(IsoYear(c.year), PadNat(c.month, 2), PadNat(c.day, 2),
              PadNat(t / 3_600_000, 2), PadNat(t / 60_000 % 60, 2), PadNat(t / 1000 % 60, 2), PadNat(t % 1000, 3)))
  {
  }

  /** A valid midnight, such as a week start, renders its calendar day followed by `T00:00:00.000Z`. */
  lemma IsoOfMidnight(date: Date)
    requires date.Valid? && IsMidnight(date.ms)
    ensures var c := CivilFromDays(Day(date.ms));
            ToIsoString(date) == Some(IsoAssemble(IsoYear(c.year), PadNat(c.month, 2), PadNat(c.day, 2), "00", "00", "00", "000"))
  {
    var t := date.ms % MsPerDay;
    assert t == 0;
    assert t / 3_600_000 == 0 && t / 60_000 % 60 == 0 && t / 1000 % 60 == 0 && t % 1000 == 0;
    EpochFields();
    IsoFieldsAt(date);
  }

  /** The date fields of the epoch, padded and assembled. */
  lemma EpochFields()
    ensures PadNat(0, 2) == "00" && PadNat(0, 3) == "000"
    ensures IsoAssemble(IsoYear(1970), PadNat(1, 2), PadNat(1, 2), "00", "00", "00", "000") == "1970-01-01T00:00:00.000Z"
  {
    EpochYear();
    EpochPads();
    assert IsoAssemble("1970", "01", "01", "00", "00", "00", "000") == "1970-01-01T00:00:00.000Z";
  }

  lemma EpochPads()
    ensures PadNat(1, 2) == "01" && PadNat(0, 2) == "00" && PadNat(0, 3) == "000"
  {
    assert NatToString(0) == "0" && NatToString(1) == "1";
  }

  lemma EpochYear()
    ensures IsoYear(1970) == "1970"
  {
    assert NatToString(1970) == "1970" by {
      assert NatToString(197) == NatToString(19) + "7";
      assert NatToString(19) == "19";
    }
    assert PadNat(1970, 4) == "1970";
  }

  /** Day 0 is 1 January 1970. */
  lemma EpochDate()
    ensures CivilFromDays(0) == Civil(1970, 1, 1)
  {
    CivilFromDaysAt(0, 4, 135080, 369, 10);
  }

  /** Day -1 is 31 December 1969. */
  lemma DayBeforeEpoch()
    ensures CivilFromDays(-1) == Civil(1969, 12, 31)
  {
    CivilFromDaysAt(-1, 4, 135079, 369, 9);
  }

  /** Day 11016 is the leap day of 2000, the last day of a 400-year era. */
  lemma LeapDay2000()
    ensures CivilFromDays(11016) == Civil(2000, 2, 29)
  {
    CivilFromDaysAt(11016, 4, 146096, 399, 11);
  }

  /**
   * Evaluation of `CivilFromDays` from its era, year of era and month index,
   * each checked against the bounds that determine it.
   */
  lemma CivilFromDaysAt(days: int, era: int, doe: int, yoe: int, mp: int)
    requires 0 <= doe < 146097 && days + 719468 == era * 146097 + doe
    requires YearOfEra(doe) == yoe
    requires 153 * mp <= 5 * (doe - DaysBeforeYear(yoe)) + 2 < 153 * mp + 153
    ensures var m := if mp < 10 then mp + 3 else mp - 9;
            CivilFromDays(days) == Civil(if m <= 2 then yoe + era * 400 + 1 else yoe + era * 400, m, doe - DaysBeforeYear(yoe) - DaysBeforeMonth(mp) + 1)
  {
    assert (days + 719468) / 146097 == era;
    assert (5 * (doe - DaysBeforeYear(yoe)) + 2) / 153 == mp;
  }

  /** One entry of the template catalogue; only the fields the email uses. */
  datatype Template = Template(slug: string, title: string, scenarioDescription: string,
                               exampleMessage: string, misunderstandingRisk: string)

  /** `pickTemplateForWeek`: the hash of the week start's ISO string, modulo the catalogue size. */
  function PickTemplateIndex(weekStart: Date, count: nat): (r: Option<nat>)
    requires count > 0
    ensures r.None? <==> weekStart.Invalid?
    ensures r.Some? ==> r.value < count
  {
    match ToIsoString(weekStart)
    case None => None
    case Some(iso) => Some(HashSeed(iso) % count)
  }

  function PickTemplateForWeek(weekStart: Date, templates: seq<Template>): (r: Option<Template>)
    requires |templates| > 0
    ensures r.None? <==> weekStart.Invalid?
    ensures r.Some? ==> r.value in templates
  {
    match PickTemplateIndex(weekStart, |templates|)
    case None => None
    case Some(i) => Some(templates[i])
  }

  /** Two dates in the same Monday-to-Sunday week get the same template. */
  lemma SameWeekSameTemplate(d1: Date, d2: Date, monday: Date, templates: seq<Template>)
    requires |templates| > 0
    requires d1.Valid? && d2.Valid? && monday.Valid? && !TwoDigitYear(d1.ms) && !TwoDigitYear(d2.ms)
    requires IsMidnight(monday.ms) && WeekDay(monday.ms) == 1
    requires 0 <= Day(d1.ms) - Day(monday.ms) <= 6 && 0 <= Day(d2.ms) - Day(monday.ms) <= 6
    ensures PickTemplateForWeek(GetWeekStartUtc(d1), templates) == PickTemplateForWeek(GetWeekStartUtc(d2), templates)
    ensures GetWeekStartUtc(d1) == monday
  {
    WeekStartIsUnique(d1, monday.ms);
    WeekStartIsUnique(d2, monday.ms);
  }

  // ---------------------------------------------------------------------------
  // Plain-text body

  datatype BlogPost = BlogPost(slug: string, title: string, description: string, date: string)

  /** The subject and plain-text body; the HTML body is not modelled. */
  datatype WeeklyEmail = WeeklyEmail(subject: string, text: string)

  const Headline: string := "Your weekly Reflxy reset"
  const Intro: string := "A quick practice to make your next message land with clarity and care."
  const Checklist: seq<string> := [
    "Intent: What do I want the reader to feel or do?",
    "Warmth: Did I add one human signal (thanks, context, appreciation)?",
    "Next step: Is the ask and timing unmistakable?"
  ]

  /** The lines every email has, from the headline to the app link. */
  function BodyLines(template: Template, siteUrl: string): (lines: seq<string>)
    ensures |lines| == 20 && lines[0] == Headline
  {
    [Headline, "", Intro, "",
     "Scenario of the week: " + template.title,
     template.scenarioDescription,
     "",
     "Sample draft:",
     template.exampleMessage,
     "",
     "Why it can be misread:",
     template.misunderstandingRisk,
     "",
     "60-second tone check:"]
    + seq(|Checklist|, i requires 0 <= i < |Checklist| => "- " + Checklist[i])
    + ["",
       "Analyze this scenario: " + siteUrl + "/templates/" + template.slug,
       "Try it in Reflxy: " + siteUrl + "/app"]
  }

  /** The journal lines: present only when there is a first post. */
  function JournalLines(posts: seq<BlogPost>, siteUrl: string, formatDate: string -> string): (lines: seq<string>)
    ensures lines == [] <==> posts == []
    ensures posts != [] ==> |lines| == 3 && lines[0] == ""
  {
    if posts == [] then []
    else
      var post := posts[0];
      ["",
       "From the journal: " + post.title + " (" + formatDate(post.date) + ")",
       post.description + " " + siteUrl + "/blog/" + post.slug]
  }

  /** `textLines` after the journal and unsubscribe lines are pushed. */
  function TextLines(template: Template, posts: seq<BlogPost>, siteUrl: string, unsubscribeUrl: string,
                     formatDate: string -> string): (lines: seq<string>)
    ensures |lines| == 25 <==> posts != []
    ensures |lines| == 22 <==> posts == []
    ensures lines[0] == Headline
    ensures lines[|lines| - 1] == "Unsubscribe: " + unsubscribeUrl && lines[|lines| - 2] == ""
  {
    BodyLines(template, siteUrl) + JournalLines(posts, siteUrl, formatDate) + ["", "Unsubscribe: " + unsubscribeUrl]
  }

  /** A non-empty join starts with its first part. */
  lemma {:induction false} JoinStartsWithFirst(parts: seq<string>, sep: string)
    requires parts != []
    ensures StartsWith(Join(parts, sep), parts[0])
  {
    if |parts| > 1 {
      assert Join(parts, sep) == parts[0] + (sep + Join(parts[1..], sep));
    }
  }

  /** A join of at least two parts ends with the last part, just after a separator. */
  lemma JoinEndsWithLast(parts: seq<string>, sep: string)
    requires |parts| >= 2
    ensures var j := Join(parts, sep);
            var last := parts[|parts| - 1];
            EndsWith(j, last) && EndsWith(j[..|j| - |last|], sep)
  {
    var init := parts[..|parts| - 1];
    var last := parts[|parts| - 1];
    assert parts == init + [last];
    JoinSnoc(init, last, sep);
    var j := Join(parts, sep);
    var front := Join(init, sep) + sep;
    assert j == front + last;
    assert j[..|j| - |last|] == front;
  }

  /** Lines that open with the headline and close with the unsubscribe line join into such a text. */
  lemma JoinedText(lines: seq<string>, unsubscribeUrl: string)
    requires |lines| >= 2 && lines[0] == Headline && lines[|lines| - 1] == "Unsubscribe: " + unsubscribeUrl
    ensures StartsWith(Join(lines, "\n"), Headline)
    ensures EndsWith(Join(lines, "\n"), "Unsubscribe: " + unsubscribeUrl)
  {
    JoinStartsWithFirst(lines, "\n");
    JoinEndsWithLast(lines, "\n");
  }

  /** `buildWeeklyInsightsEmail` without the HTML body; an invalid week start throws, so has no email. */
  function BuildWeeklyInsightsEmail(posts: seq<BlogPost>, weekStart: Date, unsubscribeUrl: string,
                                    siteUrl: string, templates: seq<Template>,
                                    formatDate: string -> string): (r: Option<WeeklyEmail>)
    requires |templates| > 0
    ensures r.None? <==> weekStart.Invalid?
    ensures r.Some? ==> r.value.subject == Headline
    ensures r.Some? ==> StartsWith(r.value.text, Headline)
    ensures r.Some? ==> EndsWith(r.value.text, "Unsubscribe: " + unsubscribeUrl)
  {
    match PickTemplateForWeek(weekStart, templates)
    case None => None
    case Some(template) =>
      var lines := TextLines(template, posts, siteUrl, unsubscribeUrl, formatDate);
      JoinedText(lines, unsubscribeUrl);
      Some(WeeklyEmail(Headline, Join(lines, "\n")))
  }
}
