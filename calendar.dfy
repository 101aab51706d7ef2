/** Local wall-clock time as the parsers see it through JavaScript's `Date`.
    An instant is a count of milliseconds since 1970-01-01 00:00 local time;
    days are counted with the ECMAScript formulas (DayFromYear, MakeDay), so
    `new Date(y, m, d)` with an out-of-range month or day lands where
    JavaScript puts it. The current moment is passed in as a `Clock`. */
module Calendar {

  type Millis = int

  const MsPerMinute: int := 60000
  const MsPerHour: int := 3600000
  const MsPerDay: int := 86400000

  predicate IsLeapYear(y: int) {
    y % 4 == 0 && (y % 100 != 0 || y % 400 == 0)
  }

  function DaysInYear(y: int): int {
    if IsLeapYear(y) then 366 else 365
  }

  function DaysInMonth(y: int, m: int): (n: int)
    requires 0 <= m < 12
    ensures 28 <= n <= 31
  {
    if m == 1 then (if IsLeapYear(y) then 29 else 28)
    else if m == 3 || m == 5 || m == 8 || m == 10 then 30
    else 31
  }

  /** Days in the months of year y before month m (0 = January). */
  function DaysBeforeMonth(y: int, m: int): (n: int)
    requires 0 <= m < 12
    ensures 0 <= n
    ensures n + DaysInMonth(y, m) <= DaysInYear(y)
    ensures m == 11 ==> n + DaysInMonth(y, m) == DaysInYear(y)
  {
    var common := [0, 31, 59, 90, 120, 151, 181, 212, 243, 273, 304, 334];
    common[m] + (if m >= 2 && IsLeapYear(y) then 1 else 0)
  }

  /** Each month starts where the previous one ends. */
  lemma DaysBeforeNextMonth(y: int, m: int)
    requires 0 <= m < 11
    ensures DaysBeforeMonth(y, m + 1) == DaysBeforeMonth(y, m) + DaysInMonth(y, m)
  {
  }

  /** Euclidean division by the length of a day, for a value given as whole
      days plus a remainder. */
  lemma DivModDay(x: int, r: int)
    requires 0 <= r < MsPerDay
    ensures (x * MsPerDay + r) / MsPerDay == x
    ensures (x * MsPerDay + r) % MsPerDay == r
  {
  }

  /** The day number of January 1st of year y, counted year by year from
      1970. */
  function DayFromYear(y: int): int
    decreases if y >= 1970 then y - 1970 else 1970 - y
  {
    if y == 1970 then 0
    else if y > 1970 then DayFromYear(y - 1) + DaysInYear(y - 1)
    else DayFromYear(y + 1) - DaysInYear(y)
  }

  /** Consecutive years are DaysInYear apart. */
  lemma DayFromYearStep(y: int)
    ensures DayFromYear(y + 1) == DayFromYear(y) + DaysInYear(y)
  {
  }

  /** ECMAScript's closed form of DayFromYear, with floor division. */
  function DayFromYearFormula(y: int): int {
    365 * (y - 1970) + (y - 1969) / 4 - (y - 1901) / 100 + (y - 1601) / 400
  }

  lemma FloorStep(a: int, n: int)
    requires n == 4 || n == 100 || n == 400
    ensures (a + 1) / n - a / n == (if (a + 1) % n == 0 then 1 else 0)
  {
  }

  /** The closed form also grows by DaysInYear from one year to the next. */
  lemma FormulaStep(y: int)
    ensures DayFromYearFormula(y + 1) == DayFromYearFormula(y) + DaysInYear(y)
  {
    FloorStep(y - 1969, 4);
    FloorStep(y - 1901, 100);
    FloorStep(y - 1601, 400);
    assert (y - 1968) % 4 == 0 <==> y % 4 == 0;
    assert (y - 1900) % 100 == 0 <==> y % 100 == 0;
    assert (y - 1600) % 400 == 0 <==> y % 400 == 0;
  }

  /** The year-by-year count is the ECMAScript DayFromYear formula. */
  lemma {:induction false} DayFromYearIsFormula(y: int)
    ensures DayFromYear(y) == DayFromYearFormula(y)
    decreases if y >= 1970 then y - 1970 else 1970 - y
  {
    if y > 1970 {
      DayFromYearIsFormula(y - 1);
      FormulaStep(y - 1);
    } else if y < 1970 {
      DayFromYearIsFormula(y + 1);
      FormulaStep(y);
    }
  }

  /** ECMAScript MakeDay(year, month, date): the month carries into the year
      (floor division), the date is added linearly. */
  function MakeDay(y: int, m: int, d: int): int {
    var ym := y + m / 12;
    var mn := m % 12;
    DayFromYear(ym) + DaysBeforeMonth(ym, mn) + d - 1
  }

  /** With the month already in range MakeDay carries nothing into the year. */
  lemma MakeDayInRange(y: int, m: int, d: int)
    requires 0 <= m < 12
    ensures MakeDay(y, m, d) == DayFromYear(y) + DaysBeforeMonth(y, m) + d - 1
  {
    assert m / 12 == 0 && m % 12 == m;
  }

  /** A real calendar date: month 0..11, day within the month. */
  predicate ValidDate(y: int, m: int, d: int) {
    0 <= m < 12 && 1 <= d <= DaysInMonth(y, m)
  }

  /** The day number of a valid date lies inside its year. */
  lemma DateWithinYear(y: int, m: int, d: int)
    requires ValidDate(y, m, d)
    ensures DayFromYear(y) <= MakeDay(y, m, d) < DayFromYear(y + 1)
  {
    MakeDayInRange(y, m, d);
    DayFromYearStep(y);
  }

  /** A day 1 or later of an in-range month is not before the year starts. */
  lemma MakeDayAfterYearStart(y: int, m: int, d: int)
    requires 0 <= m < 12 && 1 <= d
    ensures DayFromYear(y) <= MakeDay(y, m, d)
  {
    MakeDayInRange(y, m, d);
  }

  /** Year, month and day of the month that a (valid month, non-negative day)
      triple denotes once normalised: what JavaScript's MonthFromTime and
      DateFromTime report for `new Date(y, m, d)`. */
  function Normalize(y: int, m: int, d: int): (r: (int, int, int))
    requires 0 <= m < 12 && 0 <= d
    ensures ValidDate(r.0, r.1, r.2)
    decreases d
  {
    if d == 0 then
      (if m == 0 then (y - 1, 11, 31) else (y, m - 1, DaysInMonth(y, m - 1)))
    else if d <= DaysInMonth(y, m) then (y, m, d)
    else if m == 11 then Normalize(y + 1, 0, d - 31)
    else Normalize(y, m + 1, d - DaysInMonth(y, m))
  }

  /** Day 0 of January is December 31st of the year before. */
  lemma JanuaryZero(y: int)
    ensures MakeDay(y - 1, 11, 31) == MakeDay(y, 0, 0)
  {
    MakeDayInRange(y, 0, 0);
    MakeDayInRange(y - 1, 11, 31);
    DayFromYearStep(y - 1);
  }

  /** Day 0 of a later month is the last day of the month before it. */
  lemma MonthZero(y: int, m: int)
    requires 0 < m < 12
    ensures MakeDay(y, m - 1, DaysInMonth(y, m - 1)) == MakeDay(y, m, 0)
  {
    MakeDayInRange(y, m, 0);
    MakeDayInRange(y, m - 1, DaysInMonth(y, m - 1));
    DaysBeforeNextMonth(y, m - 1);
  }

  /** A day beyond the end of December is a day of next January. */
  lemma DecemberOverflow(y: int, d: int)
    ensures MakeDay(y + 1, 0, d - 31) == MakeDay(y, 11, d)
  {
    MakeDayInRange(y, 11, d);
    MakeDayInRange(y + 1, 0, d - 31);
    DayFromYearStep(y);
  }

  /** A day beyond the end of an earlier month is a day of the next one. */
  lemma MonthOverflow(y: int, m: int, d: int)
    requires 0 <= m < 11
    ensures MakeDay(y, m + 1, d - DaysInMonth(y, m)) == MakeDay(y, m, d)
  {
    MakeDayInRange(y, m, d);
    MakeDayInRange(y, m + 1, d - DaysInMonth(y, m));
    DaysBeforeNextMonth(y, m);
  }

  /** Normalising does not move the date. */
  lemma {:induction false} NormalizeSameDay(y: int, m: int, d: int)
    requires 0 <= m < 12 && 0 <= d
    ensures var r := Normalize(y, m, d); MakeDay(r.0, r.1, r.2) == MakeDay(y, m, d)
    decreases d
  {
    var r := Normalize(y, m, d);
    if d == 0 {
      if m == 0 {
        assert r == (y - 1, 11, 31);
        JanuaryZero(y);
      } else {
        assert r == (y, m - 1, DaysInMonth(y, m - 1));
        MonthZero(y, m);
      }
    } else if d <= DaysInMonth(y, m) {
    } else if m == 11 {
      assert r == Normalize(y + 1, 0, d - 31);
      DecemberOverflow(y, d);
      NormalizeSameDay(y + 1, 0, d - 31);
    } else {
      assert r == Normalize(y, m + 1, d - DaysInMonth(y, m));
      MonthOverflow(y, m, d);
      NormalizeSameDay(y, m + 1, d - DaysInMonth(y, m));
    }
  }

  /** A real date is already normal. */
  lemma NormalizeValid(y: int, m: int, d: int)
    requires ValidDate(y, m, d)
    ensures Normalize(y, m, d) == (y, m, d)
  {
  }

  /** The reading of the local clock at the moment of a parse. */
  datatype Clock = Clock(year: int, month: int, day: int, msOfDay: int)

  predicate ValidClock(c: Clock) {
    ValidDate(c.year, c.month, c.day) && 0 <= c.msOfDay < MsPerDay
  }

  function DayNumber(c: Clock): int {
    MakeDay(c.year, c.month, c.day)
  }

  /** `now` as a time value. */
  function Instant(c: Clock): Millis {
    DayNumber(c) * MsPerDay + c.msOfDay
  }

  /** `new Date(now.getFullYear(), now.getMonth(), now.getDate())`. */
  function StartOfToday(c: Clock): (t: Millis)
    requires ValidClock(c)
    ensures t <= Instant(c) < t + MsPerDay
    ensures DayOf(t) == DayOf(Instant(c)) == DayNumber(c)
    ensures t % MsPerDay == 0
  {
    DivModDay(DayNumber(c), 0);
    DivModDay(DayNumber(c), c.msOfDay);
    DayNumber(c) * MsPerDay
  }

  /** Local midnight of the day MakeDay(y, m, d). */
  function DateAtMidnight(y: int, m: int, d: int): (t: Millis)
    ensures t % MsPerDay == 0 && DayOf(t) == MakeDay(y, m, d)
  {
    DivModDay(MakeDay(y, m, d), 0);
    MakeDay(y, m, d) * MsPerDay
  }

  /** `new Date(y, m, d)`: the constructor reads a year 0..99 as 1900..1999. */
  function NewDate(y: int, m: int, d: int): Millis {
    DateAtMidnight(if 0 <= y <= 99 then 1900 + y else y, m, d)
  }

  /** The day a time value falls on. */
  function DayOf(t: Millis): int { t / MsPerDay }

  /** `getDay()`: 0 = Sunday; 1970-01-01 was a Thursday. */
  function WeekdayOf(t: Millis): (w: int)
    ensures 0 <= w < 7
  {
    (DayOf(t) + 4) % 7
  }

  function HourOf(t: Millis): int { (t % MsPerDay) / MsPerHour }
  function MinuteOf(t: Millis): int { (t % MsPerHour) / MsPerMinute }

  /** `t` plus n calendar days (`setDate(getDate() + n)`). */
  function AddDays(t: Millis, n: int): (r: Millis)
    ensures DayOf(r) == DayOf(t) + n
    ensures r % MsPerDay == t % MsPerDay
  {
    DivModDay(t / MsPerDay + n, t % MsPerDay);
    assert t + n * MsPerDay == (t / MsPerDay + n) * MsPerDay + t % MsPerDay;
    t + n * MsPerDay
  }

  lemma DivModHour(x: int, r: int)
    requires 0 <= r < MsPerHour
    ensures (x * MsPerHour + r) / MsPerHour == x
    ensures (x * MsPerHour + r) % MsPerHour == r
  {
  }

  lemma DivModMinute(x: int, r: int)
    requires 0 <= r < MsPerMinute
    ensures (x * MsPerMinute + r) / MsPerMinute == x
    ensures (x * MsPerMinute + r) % MsPerMinute == r
  {
  }

  /** The time of day h:m on day `day`, read back by the accessors. */
  lemma TimeOfDayParts(day: int, h: int, m: int)
    ensures var r := day * MsPerDay + h * MsPerHour + m * MsPerMinute;
      0 <= h < 24 && 0 <= m < 60 ==>
        DayOf(r) == day && HourOf(r) == h && MinuteOf(r) == m && r % MsPerMinute == 0
  {
    if 0 <= h < 24 && 0 <= m < 60 {
      var r := day * MsPerDay + h * MsPerHour + m * MsPerMinute;
      DivModDay(day, h * MsPerHour + m * MsPerMinute);
      DivModHour(h, m * MsPerMinute);
      assert r == (day * 24 + h) * MsPerHour + m * MsPerMinute;
      DivModHour(day * 24 + h, m * MsPerMinute);
      DivModMinute(m, 0);
      assert r == (day * 1440 + h * 60 + m) * MsPerMinute;
      DivModMinute(day * 1440 + h * 60 + m, 0);
    }
  }

  /** `setHours(h, m, 0, 0)`: the same day, at h hours and m minutes, with
      seconds and milliseconds zero; an hour or minute beyond its range
      carries forward as JavaScript's MakeTime does. */
  function SetHours(t: Millis, h: int, m: int): (r: Millis)
    ensures 0 <= h < 24 && 0 <= m < 60 ==>
      DayOf(r) == DayOf(t) && HourOf(r) == h && MinuteOf(r) == m && r % MsPerMinute == 0
  {
    TimeOfDayParts(DayOf(t), h, m);
    DayOf(t) * MsPerDay + h * MsPerHour + m * MsPerMinute
  }

  /** The days from currentDay forward to the next targetDay, a full week
      when they are the same weekday. */
  function DaysUntil(currentDay: int, targetDay: int): (n: int)
    requires 0 <= currentDay < 7 && 0 <= targetDay < 7
    ensures 1 <= n <= 7
    ensures (currentDay + n) % 7 == targetDay
    ensures n == 7 <==> currentDay == targetDay
  {
    if targetDay <= currentDay then 7 - currentDay + targetDay else targetDay - currentDay
  }

  lemma ModAddMod(x: int, n: int)
    ensures (x % 7 + n) % 7 == (x + n) % 7
  {
    assert x == (x / 7) * 7 + x % 7;
    assert x + n == (x / 7) * 7 + (x % 7 + n);
  }

  /** Moving forward DaysUntil days from today lands on the target weekday,
      at midnight, strictly after now. */
  lemma WeekdayAfterDaysUntil(now: Clock, targetDay: int)
    requires ValidClock(now) && 0 <= targetDay < 7
    ensures var n := DaysUntil(WeekdayOf(Instant(now)), targetDay);
      WeekdayOf(AddDays(StartOfToday(now), n)) == targetDay
      && AddDays(StartOfToday(now), n) % MsPerDay == 0
      && Instant(now) < AddDays(StartOfToday(now), n)
  {
    var dn := DayNumber(now);
    var t := StartOfToday(now);
    assert t == dn * MsPerDay;
    var n := DaysUntil(WeekdayOf(Instant(now)), targetDay);
    assert WeekdayOf(Instant(now)) == (dn + 4) % 7;
    ModAddMod(dn + 4, n);
  }
}
