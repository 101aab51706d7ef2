/** What the two parsers share once a phrase has been recognised: the clock
    reading `(\d{1,2})(?::(\d{2}))?\s*(am|pm)`, the 12-hour to 24-hour
    rule, the weekday and month names, and the turning of a recognised
    date expression into a time value relative to `now`. */
module DueDates {
  import opened Options
  import opened Text
  import opened Calendar

  // ---------------------------------------------------------------------
  // Names

  /** The weekday alternation in the order both regexes write it. */
  const WeekdayAlternation: seq<String> :=
    ["monday", "tuesday", "wednesday", "thursday", "friday", "saturday", "sunday"]

  /** The `days` array the handlers index: position = `getDay()` number. */
  const DayNames: seq<String> :=
    ["sunday", "monday", "tuesday", "wednesday", "thursday", "friday", "saturday"]

  /** The month alternation; it and the handlers' `months` array agree. */
  const MonthNames: seq<String> :=
    ["january", "february", "march", "april", "may", "june", "july",
     "august", "september", "october", "november", "december"]

  /** The ordinal suffixes a day number may carry; they exclude one
      another, so at most one is present at a position. */
  const DaySuffixes: seq<String> := ["st", "nd", "rd", "th"]

  /** `days.indexOf(name)` for a name the weekday alternation matched. */
  function DayIndex(name: String): (d: nat)
    requires name in DayNames
    ensures d < 7 && DayNames[d] == name
  {
    if name == DayNames[0] then 0 else 1 + DayIndexFrom(name, 1)
  }

  function DayIndexFrom(name: String, k: nat): (d: nat)
    requires 1 <= k <= 7 && name in DayNames[k..]
    ensures k + d < 7 && DayNames[k + d] == name
    decreases 7 - k
  {
    if DayNames[k] == name then 0 else 1 + DayIndexFrom(name, k + 1)
  }

  /** The alternation's k-th weekday is `getDay()` number k + 1 (mod 7). */
  lemma WeekdayAlternationIndex(k: nat)
    requires k < 7
    ensures WeekdayAlternation[k] in DayNames
    ensures DayIndex(WeekdayAlternation[k]) == (k + 1) % 7
  {
    assert WeekdayAlternation[k] == DayNames[(k + 1) % 7];
    var d := DayIndex(WeekdayAlternation[k]);
    DayNamesDistinct(d, (k + 1) % 7);
  }

  lemma DayNamesDistinct(a: nat, b: nat)
    requires a < 7 && b < 7 && DayNames[a] == DayNames[b]
    ensures a == b
  {
  }

  // ---------------------------------------------------------------------
  // Clock readings

  /** A clock reading `H[:MM] am|pm`: the whole match and the captures. */
  datatype TimeMatch = TimeMatch(whole: Span, hour: Span, minute: Option<Span>, pm: bool)

  predicate ValidTimeMatch(s: String, m: TimeMatch) {
    SpanIn(m.whole, s) && m.whole.lo == m.hour.lo < m.hour.hi <= m.hour.lo + 2
    && m.hour.hi <= m.whole.hi && AllDigits(Slice(s, m.hour))
    && (m.minute.Some? ==>
          m.minute.value.lo == m.hour.hi + 1 && m.minute.value.hi == m.minute.value.lo + 2
          && m.minute.value.hi <= m.whole.hi && AllDigits(Slice(s, m.minute.value)))
  }

  /** Where the digits of a reading end: after the minutes, if any. */
  function DigitsEnd(m: TimeMatch): nat {
    if m.minute.Some? then m.minute.value.hi else m.hour.hi
  }

  /** The reading ends in `pm` when its flag is set and in `am` otherwise,
      with only whitespace between its digits and the marker. */
  predicate MarkerText(s: String, m: TimeMatch, bounded: bool) {
    DigitsEnd(m) + 2 <= m.whole.hi <= |s|
    && LitAt(s, m.whole.hi - 2, if m.pm then "pm" else "am", bounded)
    && (bounded ==> IsBoundary(s, m.whole.hi))
    && forall k :: DigitsEnd(m) <= k < m.whole.hi - 2 ==> IsSpace(s[k])
  }

  /** The `am`/`pm` marker after the optional spaces at p. `\s*` cannot give
      a space back, since the marker starts with a letter. With `bounded`
      the marker is matched ignoring case and must end at a word boundary
      (`...(am|pm)\b/i`); without, it is matched exactly. */
  function TimeMarker(s: String, i: nat, h: nat, minute: Option<Span>, p: nat,
                      bounded: bool): (r: Option<TimeMatch>)
    requires i < h <= p <= |s|
    ensures r.Some? ==> r.value.whole.lo == i && p + 2 <= r.value.whole.hi <= |s|
                        && r.value.hour == Span(i, h) && r.value.minute == minute
    ensures r.Some? && p == DigitsEnd(r.value) ==> MarkerText(s, r.value, bounded)
  {
    var q := RunEnd(s, p, IsSpace);
    if LitAt(s, q, "am", bounded) && (!bounded || IsBoundary(s, q + 2)) then
      Some(TimeMatch(Span(i, q + 2), Span(i, h), minute, false))
    else if LitAt(s, q, "pm", bounded) && (!bounded || IsBoundary(s, q + 2)) then
      Some(TimeMatch(Span(i, q + 2), Span(i, h), minute, true))
    else None
  }

  /** After the hour digits [i, h): the optional `:MM` group, tried first
      with and then without. */
  function TimeAfterHour(s: String, i: nat, h: nat, bounded: bool): (r: Option<TimeMatch>)
    requires i < h <= |s| && h <= i + 2 && AllDigits(s[i..h])
    ensures r.Some? ==> r.value.whole.lo == i && ValidTimeMatch(s, r.value)
    ensures r.Some? ==> MarkerText(s, r.value, bounded)
  {
    var withMinutes :=
      if h + 3 <= |s| && s[h] == ':' && IsDigit(s[h + 1]) && IsDigit(s[h + 2])
      then TimeMarker(s, i, h, Some(Span(h + 1, h + 3)), h + 3, bounded)
      else None;
    OrElse(withMinutes, TimeMarker(s, i, h, None, h, bounded))
  }

  /** A clock reading starting at i: `\d{1,2}` tries two digits, then one.
      With `bounded` the reading must start at a word boundary. */
  function TimeAt(s: String, i: nat, bounded: bool): (r: Option<TimeMatch>)
    ensures r.Some? ==> r.value.whole.lo == i && ValidTimeMatch(s, r.value)
    ensures r.Some? && bounded ==> IsBoundary(s, i)
    ensures r.Some? ==> MarkerText(s, r.value, bounded)
  {
    if i >= |s| || !IsDigit(s[i]) || (bounded && !IsBoundary(s, i)) then None
    else
      var two := if i + 2 <= |s| && IsDigit(s[i + 1]) then TimeAfterHour(s, i, i + 2, bounded) else None;
      OrElse(two, TimeAfterHour(s, i, i + 1, bounded))
  }

  /** The leftmost clock reading in s: none starts before it, and there is
      none at all when the result is None. */
  function FindTime(s: String, bounded: bool): (r: Option<TimeMatch>)
    ensures r.Some? ==> ValidTimeMatch(s, r.value) && MarkerText(s, r.value, bounded)
    ensures r.Some? ==> TimeAt(s, r.value.whole.lo, bounded) == r
    ensures r.Some? ==> forall j :: 0 <= j < r.value.whole.lo ==> TimeAt(s, j, bounded).None?
    ensures r.None? ==> forall j :: 0 <= j <= |s| ==> TimeAt(s, j, bounded).None?
  {
    var at := (t: String, i: nat) => TimeAt(t, i, bounded);
    assert forall j: nat :: at(s, j) == TimeAt(s, j, bounded);
    match FindFrom(s, 0, at)
    case None => None
    case Some(found) => Some(found.1)
  }

  /** The 12-hour to 24-hour rule: pm adds twelve except to 12, and 12 am
      is hour 0; any other hour is kept. */
  function To24(hours: nat, pm: bool): (h: nat)
    ensures 1 <= hours <= 12 ==> h < 24
  {
    if pm && hours != 12 then hours + 12
    else if !pm && hours == 12 then 0
    else hours
  }

  /** How a 24-hour hour reads on a 12-hour clock. */
  function To12(h: nat): (r: (nat, bool))
    requires h < 24
    ensures 1 <= r.0 <= 12
    ensures r.1 <==> h >= 12
  {
    if h == 0 then (12, false)
    else if h < 12 then (h, false)
    else if h == 12 then (12, true)
    else (h - 12, true)
  }

  /** Every 12-hour reading converts to a distinct hour of the day, and
      every hour of the day is the conversion of its 12-hour reading. */
  lemma To24RoundTrip(hours: nat, pm: bool, h: nat)
    requires 1 <= hours <= 12 && h < 24
    ensures To12(To24(hours, pm)) == (hours, pm)
    ensures To24(To12(h).0, To12(h).1) == h
  {
  }

  /** 12 am is midnight, 12 pm is noon, and any other pm hour moves on by
      twelve hours while an am hour stays. */
  lemma To24Cases(hours: nat, pm: bool)
    ensures hours == 12 ==> To24(hours, pm) == (if pm then 12 else 0)
    ensures hours != 12 ==> To24(hours, pm) == (if pm then hours + 12 else hours)
  {
  }

  /** The hour and minute a clock reading denotes: `parseInt` of the
      captures, minutes 0 when absent, then the 12-to-24 rule. */
  function ReadTime(s: String, m: TimeMatch): (hm: (nat, nat))
    requires ValidTimeMatch(s, m)
    ensures hm.0 < 112 && hm.1 < 100
    ensures m.minute.None? ==> hm.1 == 0
  {
    var hours := ParseDigits(Slice(s, m.hour));
    var minutes := if m.minute.Some? then ParseDigits(Slice(s, m.minute.value)) else 0;
    (To24(hours, m.pm), minutes)
  }

  // ---------------------------------------------------------------------
  // Date expressions

  /** A recognised date expression, before it is resolved against `now`:
      `month` is 0-based for DayMonth and as written (1-based) for Numeric. */
  datatype DateCue =
    | Tomorrow
    | Today
    | OnWeekday(targetDay: nat)
    | DayMonth(day: nat, month: nat)
    | Numeric(month: nat, day: nat, year: Option<nat>)

  predicate ValidCue(c: DateCue) {
    match c
    case OnWeekday(t) => t < 7
    case DayMonth(_, m) => m < 12
    case _ => true
  }

  /** `today + daysUntil` for a named weekday. */
  function WeekdayDate(now: Clock, targetDay: nat): (t: Millis)
    requires ValidClock(now) && targetDay < 7
    ensures t % MsPerDay == 0
    ensures WeekdayOf(t) == targetDay
    ensures Instant(now) < t
    ensures 1 <= DayOf(t) - DayNumber(now) <= 7
    ensures DayOf(t) - DayNumber(now) == 7 <==> WeekdayOf(Instant(now)) == targetDay
  {
    WeekdayAfterDaysUntil(now, targetDay);
    AddDays(StartOfToday(now), DaysUntil(WeekdayOf(Instant(now)), targetDay))
  }

  /** `setFullYear(year)` on the date `new Date(y, month, day)` made: the
      month and day it normalised to, in the given year, at midnight. */
  function WithFullYear(year: int, y: int, month: nat, day: nat): (t: Millis)
    requires month < 12
    ensures t % MsPerDay == 0
    ensures DayFromYear(year) * MsPerDay <= t
  {
    var n := Normalize(y, month, day);
    MakeDayAfterYearStart(year, n.1, n.2);
    MidnightMonotone(DayFromYear(year), MakeDay(year, n.1, n.2));
    DateAtMidnight(year, n.1, n.2)
  }

  /** The year `new Date(year, ...)` uses. */
  function ConstructorYear(year: int): int {
    if 0 <= year <= 99 then 1900 + year else year
  }

  /** `new Date(now.getFullYear(), month, day)`, moved to next year by
      `setFullYear` when it lies before now. */
  function DayMonthDate(now: Clock, month: nat, day: nat): (t: Millis)
    requires ValidClock(now) && month < 12
    ensures t % MsPerDay == 0
  {
    var date := DateAtMidnight(ConstructorYear(now.year), month, day);
    if date < Instant(now) then WithFullYear(now.year + 1, ConstructorYear(now.year), month, day)
    else date
  }

  /** Every moment of the clock's year comes before the next year starts. */
  lemma ClockBeforeNextYear(now: Clock)
    requires ValidClock(now)
    ensures Instant(now) < DayFromYear(now.year + 1) * MsPerDay
  {
    DateWithinYear(now.year, now.month, now.day);
    MidnightMonotone(DayNumber(now) + 1, DayFromYear(now.year + 1));
  }

  lemma MidnightMonotone(a: int, b: int)
    requires a <= b
    ensures a * MsPerDay <= b * MsPerDay
  {
  }

  /** A day-month date is never before now: either it already is not, or it
      moves into next year, which starts after now. */
  lemma DayMonthNotBeforeNow(now: Clock, month: nat, day: nat)
    requires ValidClock(now) && month < 12
    ensures Instant(now) <= DayMonthDate(now, month, day)
  {
    ClockBeforeNextYear(now);
  }

  /** For a real calendar date in a year the constructor takes as written,
      the result is that date this year when it is not yet past, and the
      same month and day next year otherwise. */
  lemma DayMonthCalendar(now: Clock, month: nat, day: nat)
    requires ValidClock(now) && ValidDate(now.year, month, day) && !(0 <= now.year <= 99)
    ensures DateAtMidnight(now.year, month, day) >= Instant(now) ==>
              DayMonthDate(now, month, day) == DateAtMidnight(now.year, month, day)
    ensures DateAtMidnight(now.year, month, day) < Instant(now) ==>
              DayMonthDate(now, month, day) == DateAtMidnight(now.year + 1, month, day)
  {
    assert ConstructorYear(now.year) == now.year;
    NormalizeValid(now.year, month, day);
  }

  /** `new Date(fullYear, M - 1, D)` for `M/D[/Y]`: a year below 100 means
      2000 + year, and a missing year is the current one. */
  function NumericDate(now: Clock, month: nat, day: nat, year: Option<nat>): Millis {
    var y: int := if year.Some? then year.value else now.year;
    var fullYear := if y < 100 then 2000 + y else y;
    NewDate(fullYear, month - 1, day)
  }

  /** The resolved year: written two-digit years land in 2000..2099, and a
      written year of 100 or more, or the clock's year when none is written,
      is kept; month M is month M - 1 of the constructor. */
  lemma NumericDateYear(now: Clock, month: nat, day: nat, year: Option<nat>)
    requires !(0 <= now.year <= 99)
    ensures year.Some? && year.value < 100 ==>
      NumericDate(now, month, day, year) == DateAtMidnight(2000 + year.value, month - 1, day)
    ensures year.Some? && year.value >= 100 ==>
      NumericDate(now, month, day, year) == DateAtMidnight(year.value, month - 1, day)
    ensures year.None? && now.year >= 100 ==>
      NumericDate(now, month, day, year) == DateAtMidnight(now.year, month - 1, day)
  {
  }

  /** The handler of each date pattern: the time value at local midnight of
      the day the expression names. */
  function Resolve(now: Clock, cue: DateCue): (t: Millis)
    requires ValidClock(now) && ValidCue(cue)
    ensures t % MsPerDay == 0
    ensures cue.Tomorrow? ==> DayOf(t) == DayNumber(now) + 1
    ensures cue.Today? ==> DayOf(t) == DayNumber(now)
    ensures cue.OnWeekday? ==> WeekdayOf(t) == cue.targetDay && Instant(now) < t
    ensures cue.DayMonth? ==> Instant(now) <= t
  {
    match cue
    case Tomorrow => AddDays(StartOfToday(now), 1)
    case Today => StartOfToday(now)
    case OnWeekday(d) => WeekdayDate(now, d)
    case DayMonth(d, m) => DayMonthNotBeforeNow(now, m, d); DayMonthDate(now, m, d)
    case Numeric(m, d, y) => NumericDate(now, m, d, y)
  }
}
