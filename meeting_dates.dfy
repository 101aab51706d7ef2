/** `parseDateFromText`, the reading of the phrase after `by` in a meeting
    sentence: the phrase is lower-cased, a few filler words are dropped,
    a clock reading `H[:MM]am|pm` is taken out, and the rest is tried
    against four date patterns in order. The matchers work on the
    lower-cased text, so every literal is compared exactly. */
module MeetingDates {
  import opened Options
  import opened Text
  import opened Calendar
  import opened DueDates

  // ---------------------------------------------------------------------
  // replace(/\b(by|before|on|at|this|next|the)\b/g, '')

  const DroppedWords: seq<String> := ["by", "before", "on", "at", "this", "next", "the"]

  predicate Boundary(s: String, j: nat) { IsBoundary(s, j) }

  /** A filler word bounded on both sides at i: where it ends. */
  function DroppedWordAt(s: String, i: nat): (r: Option<nat>)
    ensures r.Some? ==> i < r.value <= |s| && IsBoundary(s, i) && IsBoundary(s, r.value)
  {
    if !IsBoundary(s, i) then None
    else
      match AltFrom(s, i, DroppedWords, 0, false, Boundary)
      case None => None
      case Some(k) => Some(i + |DroppedWords[k]|)
  }

  /** The global replacement from position i on: the scan goes left to
      right over the original text, drops a filler word where one starts
      and keeps the character otherwise. */
  function DropWordsFrom(s: String, i: nat): (r: String)
    requires i <= |s|
    ensures |r| <= |s| - i
    decreases |s| - i
  {
    if i == |s| then []
    else
      match DroppedWordAt(s, i)
      case Some(e) => DropWordsFrom(s, e)
      case None => [s[i]] + DropWordsFrom(s, i + 1)
  }

  /** The replacement only removes characters: what it returns is drawn
      from the text, and text without a filler word passes through
      unchanged. */
  lemma {:induction false} DropWordsKeeps(s: String, i: nat)
    requires i <= |s|
    ensures multiset(DropWordsFrom(s, i)) <= multiset(s[i..])
    ensures (forall j :: i <= j < |s| ==> DroppedWordAt(s, j).None?) ==> DropWordsFrom(s, i) == s[i..]
    decreases |s| - i
  {
    if i < |s| {
      assert s[i..] == [s[i]] + s[i + 1..];
      match DroppedWordAt(s, i)
      case Some(e) =>
        DropWordsKeeps(s, e);
        SuffixMultiset(s, i, e);
      case None =>
        DropWordsKeeps(s, i + 1);
    }
  }

  // ---------------------------------------------------------------------
  // What the replacement leaves: no filler word anywhere

  /** A whole word (a maximal run of `\w` characters) starts at i and is a
      filler word. */
  predicate FillerAt(s: String, i: nat) {
    i < |s| && IsWordChar(s[i]) && (i == 0 || !IsWordChar(s[i - 1]))
    && s[i..RunEnd(s, i, IsWordChar)] in DroppedWords
  }

  lemma DroppedWordsAreWords(k: nat)
    requires k < |DroppedWords|
    ensures |DroppedWords[k]| > 0
    ensures forall c :: 0 <= c < |DroppedWords[k]| ==> IsWordChar(DroppedWords[k][c])
  {
  }

  /** The regex finds a filler word exactly where a whole word is one, and
      its match is that whole word. */
  lemma DroppedWordIsFiller(s: String, i: nat)
    ensures DroppedWordAt(s, i).Some? <==> FillerAt(s, i)
    ensures DroppedWordAt(s, i).Some? ==> DroppedWordAt(s, i).value == RunEnd(s, i, IsWordChar)
  {
    if DroppedWordAt(s, i).Some? {
      DroppedWordIsWhole(s, i);
    } else if FillerAt(s, i) {
      FillerIsDropped(s, i);
    }
  }

  lemma DroppedWordIsWhole(s: String, i: nat)
    requires DroppedWordAt(s, i).Some?
    ensures FillerAt(s, i) && DroppedWordAt(s, i).value == RunEnd(s, i, IsWordChar)
  {
    var k := AltFrom(s, i, DroppedWords, 0, false, Boundary).value;
    var w := DroppedWords[k];
    DroppedWordsAreWords(k);
    assert s[i..i + |w|] == w;
    assert forall m :: i <= m < i + |w| ==> s[m] == w[m - i];
    RunEndUnique(s, i, IsWordChar, i + |w|);
  }

  lemma FillerIsDropped(s: String, i: nat)
    requires FillerAt(s, i)
    ensures DroppedWordAt(s, i).Some?
  {
    var e := RunEnd(s, i, IsWordChar);
    var k :| 0 <= k < |DroppedWords| && DroppedWords[k] == s[i..e];
    assert LiteralAt(s, i, DroppedWords[k]);
    assert IsBoundary(s, i);
    assert IsBoundary(s, e);
  }

  /** Outside a word: at the end, before a non-word character, at the start
      or after a non-word character. */
  predicate OutsideWord(s: String, i: nat) {
    i <= |s| && (i == |s| || !IsWordChar(s[i]) || i == 0 || !IsWordChar(s[i - 1]))
  }

  /** A non-word character is never the start of a filler, so it is kept. */
  lemma KeepsNonWord(s: String, i: nat)
    requires i < |s| && !IsWordChar(s[i])
    ensures DropWordsFrom(s, i) == [s[i]] + DropWordsFrom(s, i + 1)
  {
    DroppedWordIsFiller(s, i);
  }

  /** Inside a word no filler starts, so the rest of the word is kept. */
  lemma {:induction false} KeepsWordTail(s: String, p: nat, we: nat)
    requires 0 < p <= we <= |s|
    requires forall k :: p - 1 <= k < we ==> IsWordChar(s[k])
    ensures DropWordsFrom(s, p) == s[p..we] + DropWordsFrom(s, we)
    decreases we - p
  {
    if p < we {
      KeepsWordChar(s, p);
      KeepsWordTail(s, p + 1, we);
      SliceCons(s, p, we);
      ConsChain(DropWordsFrom(s, p), DropWordsFrom(s, p + 1), DropWordsFrom(s, we), s[p], s[p + 1..we], s[p..we]);
    } else {
      EmptyThen(s[p..we], DropWordsFrom(s, we));
    }
  }

  lemma ConsAssoc(c: char, a: String, b: String)
    ensures [c] + (a + b) == ([c] + a) + b
  {
  }

  lemma KeepsWordChar(s: String, p: nat)
    requires 0 < p < |s| && IsWordChar(s[p - 1])
    ensures DropWordsFrom(s, p) == [s[p]] + DropWordsFrom(s, p + 1)
  {
    DroppedWordIsFiller(s, p);
  }

  /** Text in front of x moves its whole words along unchanged, provided
      it does not run into x's first word. */
  lemma FillerAfterPrefix(u: String, x: String, j: nat)
    requires j >= 1 || (|u| > 0 && !IsWordChar(u[|u| - 1])) || u == []
    ensures FillerAt(u + x, |u| + j) <==> FillerAt(x, j)
  {
    var v := u + x;
    if j < |x| {
      var e := RunEnd(x, j, IsWordChar);
      assert forall m :: |u| + j <= m < |u| + e ==> v[m] == x[m - |u|];
      RunEndUnique(v, |u| + j, IsWordChar, |u| + e);
      assert v[|u| + j..|u| + e] == x[j..e];
      if j >= 1 {
        assert v[|u| + j - 1] == x[j - 1];
      }
    }
  }

  /** Text after m that starts outside a word keeps m's whole words. */
  lemma FillerBeforeSuffix(m: String, v: String, j: nat)
    requires v == [] || !IsWordChar(v[0])
    ensures FillerAt(m, j) ==> FillerAt(m + v, j)
  {
    if FillerAt(m, j) {
      var e := RunEnd(m, j, IsWordChar);
      var x := m + v;
      assert forall k :: j <= k < e ==> x[k] == m[k];
      RunEndUnique(x, j, IsWordChar, e);
      assert x[j..e] == m[j..e];
    }
  }

  /** A whole word that is not a filler, followed by text with none that
      starts outside a word, gives text with none. */
  lemma WordThenNoFiller(w: String, x: String)
    requires |w| > 0 && forall k :: 0 <= k < |w| ==> IsWordChar(w[k])
    requires w !in DroppedWords
    requires x == [] || !IsWordChar(x[0])
    requires forall j: nat :: !FillerAt(x, j)
    ensures forall j: nat :: !FillerAt(w + x, j)
  {
    var v := w + x;
    forall j: nat ensures !FillerAt(v, j) {
      if j == 0 {
        RunEndUnique(v, 0, IsWordChar, |w|);
        assert v[0..|w|] == w;
      } else if j < |w| {
        assert v[j - 1] == w[j - 1];
      } else if j > |w| {
        FillerAfterPrefix(w, x, j - |w|);
      }
    }
  }

  /** From a position outside a word on, the replacement leaves no filler
      word in what it returns. */
  lemma {:induction false} NoFillerFrom(s: String, i: nat)
    requires i <= |s| && OutsideWord(s, i)
    ensures forall j: nat :: !FillerAt(DropWordsFrom(s, i), j)
    decreases |s| - i, 1
  {
    if i < |s| {
      if !IsWordChar(s[i]) {
        NoFillerAfterNonWord(s, i);
      } else {
        NoFillerAfterWord(s, i);
      }
    }
  }

  lemma {:induction false} NoFillerAfterNonWord(s: String, i: nat)
    requires i < |s| && !IsWordChar(s[i])
    ensures forall j: nat :: !FillerAt(DropWordsFrom(s, i), j)
    decreases |s| - i, 0
  {
    KeepsNonWord(s, i);
    NoFillerFrom(s, i + 1);
    NonWordThenNoFiller(s[i], DropWordsFrom(s, i + 1));
  }

  /** A non-word character in front of text with no filler word adds none. */
  lemma NonWordThenNoFiller(c: char, x: String)
    requires !IsWordChar(c)
    requires forall j: nat :: !FillerAt(x, j)
    ensures forall j: nat :: !FillerAt([c] + x, j)
  {
    forall j: nat ensures !FillerAt([c] + x, j) {
      if j >= 1 {
        FillerAfterPrefix([c], x, j - 1);
      }
    }
  }

  lemma {:induction false} NoFillerAfterWord(s: String, i: nat)
    requires i < |s| && IsWordChar(s[i]) && OutsideWord(s, i)
    ensures forall j: nat :: !FillerAt(DropWordsFrom(s, i), j)
    decreases |s| - i, 0
  {
    var we := RunEnd(s, i, IsWordChar);
    NoFillerFrom(s, we);
    if FillerAt(s, i) {
      DropsFiller(s, i);
    } else {
      KeepsOtherWord(s, i, we);
      StartsOutsideWord(s, we);
      WordThenNoFiller(s[i..we], DropWordsFrom(s, we));
    }
  }

  /** From the end of a word on, the result starts outside a word. */
  lemma StartsOutsideWord(s: String, we: nat)
    requires we <= |s| && (we == |s| || !IsWordChar(s[we]))
    ensures var x := DropWordsFrom(s, we); x == [] || !IsWordChar(x[0])
  {
    if we < |s| {
      KeepsNonWord(s, we);
    }
  }

  /** A filler word is dropped whole. */
  lemma DropsFiller(s: String, i: nat)
    requires FillerAt(s, i)
    ensures DropWordsFrom(s, i) == DropWordsFrom(s, RunEnd(s, i, IsWordChar))
  {
    DroppedWordIsFiller(s, i);
  }

  /** Any other whole word, [i, we), is kept whole. */
  lemma KeepsOtherWord(s: String, i: nat, we: nat)
    requires i < we <= |s| && forall k :: i <= k < we ==> IsWordChar(s[k])
    requires !FillerAt(s, i)
    ensures DropWordsFrom(s, i) == s[i..we] + DropWordsFrom(s, we)
  {
    KeepsUnfilled(s, i);
    KeepsWordTail(s, i + 1, we);
    SliceCons(s, i, we);
    ConsChain(DropWordsFrom(s, i), DropWordsFrom(s, i + 1), DropWordsFrom(s, we), s[i], s[i + 1..we], s[i..we]);
  }

  lemma EmptyThen(w: String, x: String)
    requires |w| == 0
    ensures w + x == x
  {
  }

  lemma SliceCons(s: String, i: nat, we: nat)
    requires i < we <= |s|
    ensures s[i..we] == [s[i]] + s[i + 1..we]
  {
  }

  lemma ConsChain(d0: String, d1: String, x: String, c: char, w1: String, w: String)
    requires d0 == [c] + d1 && d1 == w1 + x && w == [c] + w1
    ensures d0 == w + x
  {
    ConsAssoc(c, w1, x);
  }

  /** Where no filler starts, the character is kept. */
  lemma KeepsUnfilled(s: String, i: nat)
    requires i < |s| && !FillerAt(s, i)
    ensures DropWordsFrom(s, i) == [s[i]] + DropWordsFrom(s, i + 1)
  {
    DroppedWordIsFiller(s, i);
  }

  /** The replacement removes every filler word: none is left for the
      regex to find in the result. */
  lemma DropWordsLeavesNoFiller(s: String)
    ensures forall j: nat :: DroppedWordAt(DropWordsFrom(s, 0), j).None?
  {
    NoFillerFrom(s, 0);
    forall j: nat ensures DroppedWordAt(DropWordsFrom(s, 0), j).None? {
      DroppedWordIsFiller(DropWordsFrom(s, 0), j);
    }
  }

  lemma SuffixMultiset(s: String, i: nat, e: nat)
    requires i <= e <= |s|
    ensures multiset(s[e..]) <= multiset(s[i..])
  {
    assert s[i..] == s[i..e] + s[e..];
  }

  /** The phrase once lower-cased, rid of filler words and trimmed. */
  function DateWords(timeStr: String): (r: String)
    ensures IsTrimmed(r)
    ensures |r| <= |timeStr|
    ensures forall k :: 0 <= k < |r| ==> !('A' <= r[k] <= 'Z')
    ensures forall j: nat :: DroppedWordAt(r, j).None?
  {
    var d := DropWordsFrom(ToLower(timeStr), 0);
    DropWordsKeeps(ToLower(timeStr), 0);
    assert ToLower(timeStr)[0..] == ToLower(timeStr);
    LowerCharsKept(ToLower(timeStr), d);
    NoFillerFrom(ToLower(timeStr), 0);
    TrimKeepsNoFiller(d);
    forall j: nat ensures DroppedWordAt(Trim(d), j).None? {
      DroppedWordIsFiller(Trim(d), j);
    }
    Trim(d)
  }

  /** Characters drawn from lower-cased text are lower-cased, and trimming
      keeps only some of them. */
  lemma LowerCharsKept(l: String, d: String)
    requires forall k :: 0 <= k < |l| ==> !('A' <= l[k] <= 'Z')
    requires multiset(d) <= multiset(l)
    ensures forall k :: 0 <= k < |Trim(d)| ==> !('A' <= Trim(d)[k] <= 'Z')
  {
    forall k | 0 <= k < |d| ensures !('A' <= d[k] <= 'Z') {
      assert d[k] in multiset(d);
      assert d[k] in l;
    }
    var a := TrimStartIndex(d);
    forall k | 0 <= k < |Trim(d)| ensures !('A' <= Trim(d)[k] <= 'Z') {
      assert Trim(d)[k] == d[a + k];
    }
  }

  /** Trimming cuts only whitespace, so it leaves every whole word whole. */
  lemma TrimKeepsNoFiller(d: String)
    requires forall j: nat :: !FillerAt(d, j)
    ensures forall j: nat :: !FillerAt(Trim(d), j)
  {
    var a := TrimStartIndex(d);
    var b := TrimEndIndex(d, a);
    var u, m, v := d[..a], d[a..b], d[b..];
    assert d == u + (m + v);
    forall j: nat ensures !FillerAt(m, j) {
      FillerBeforeSuffix(m, v, j);
      FillerAfterPrefix(u, m + v, j);
    }
  }

  /** The phrase the date patterns see: the clock reading's text, when
      there is one, removed where it first occurs, and the rest trimmed. */
  function DateRest(t: String, tm: Option<TimeMatch>): (r: String)
    requires tm.Some? ==> ValidTimeMatch(t, tm.value)
    ensures tm.None? ==> r == t
  {
    if tm.Some? then Trim(RemoveFirst(t, Slice(t, tm.value.whole))) else t
  }

  // ---------------------------------------------------------------------
  // The date patterns

  /** `(monday|...|sunday)` at i, by its `getDay()` number. */
  function WeekdayTextAt(s: String, i: nat): (r: Option<DateCue>)
    ensures r.Some? ==> r.value.OnWeekday? && ValidCue(r.value)
    ensures r.Some? ==> LiteralAt(s, i, DayNames[r.value.targetDay])
  {
    match AltFrom(s, i, WeekdayAlternation, 0, false, AnyPos)
    case None => None
    case Some(k) =>
      WeekdayAlternationIndex(k);
      Some(OnWeekday(DayIndex(WeekdayAlternation[k])))
  }

  /** `(january|...|december)` at p, for a day already read. */
  function MonthTextAt(s: String, p: nat, day: nat): (r: Option<DateCue>)
    ensures r.Some? ==> r.value.DayMonth? && r.value.day == day && ValidCue(r.value)
    ensures r.Some? ==> LiteralAt(s, p, MonthNames[r.value.month])
  {
    match AltFrom(s, p, MonthNames, 0, false, AnyPos)
    case None => None
    case Some(k) => Some(DayMonth(day, k))
  }

  /** One or two digits at i spelling n. */
  predicate DigitsSpell(s: String, i: nat, n: nat) {
    exists h :: i < h <= i + 2 && h <= |s| && AllDigits(s[i..h]) && n == ParseDigits(s[i..h])
  }

  lemma DigitsSpellAt(s: String, i: nat, h: nat)
    requires i < h <= |s| && AllDigits(s[i..h])
    ensures h <= i + 2 ==> DigitsSpell(s, i, ParseDigits(s[i..h]))
  {
  }

  /** `(\d{1,2})\s*(st|nd|rd|th)?\s*(january|...|december)` at i, two day
      digits tried before one. */
  /** After the day digits [i, h): `\s*(st|nd|rd|th)?\s*` and the month.
      The first `\s*` keeps all its spaces and the suffix is tried present
      before absent; giving spaces back cannot help, since both the suffix
      and the month begin with a letter. */
  function DayMonthAfter(s: String, i: nat, h: nat): (r: Option<DateCue>)
    requires i < h <= |s| && AllDigits(s[i..h])
    ensures r.Some? ==> r.value.DayMonth? && r.value.day == ParseDigits(s[i..h]) && ValidCue(r.value)
    ensures r.Some? ==> Contains(s, MonthNames[r.value.month])
    ensures r.Some? && h <= i + 2 ==> DigitsSpell(s, i, r.value.day)
  {
    DigitsSpellAt(s, i, h);
    var day := ParseDigits(s[i..h]);
    var q := RunEnd(s, h, IsSpace);
    var withSuffix :=
      if AltFrom(s, q, DaySuffixes, 0, false, AnyPos).Some?
      then MonthTextAt(s, RunEnd(s, q + 2, IsSpace), day) else None;
    if withSuffix.Some? then
      ContainsAt(s, RunEnd(s, q + 2, IsSpace), MonthNames[withSuffix.value.month]);
      withSuffix
    else
      var plain := MonthTextAt(s, q, day);
      if plain.Some? then ContainsAt(s, q, MonthNames[plain.value.month]); plain else None
  }

  function DayMonthTextAt(s: String, i: nat): (r: Option<DateCue>)
    ensures r.Some? ==> r.value.DayMonth? && r.value.day < 100 && ValidCue(r.value)
    ensures r.Some? ==> DigitsSpell(s, i, r.value.day) && Contains(s, MonthNames[r.value.month])
  {
    if i >= |s| || !IsDigit(s[i]) then None
    else
      var two := if i + 2 <= |s| && IsDigit(s[i + 1]) then DayMonthAfter(s, i, i + 2) else None;
      Options.OrElse(two, DayMonthAfter(s, i, i + 1))
  }

  datatype DayPattern = TomorrowText | TodayText | WeekdayText | DayMonthText

  const DayPatterns: seq<DayPattern> := [TomorrowText, TodayText, WeekdayText, DayMonthText]

  /** A date pattern's match in s, as the expression it names: the first
      two are plain searches, the last two take the leftmost match. */
  function MatchDay(p: DayPattern, s: String): (r: Option<DateCue>)
    ensures r.Some? ==> ValidCue(r.value)
    ensures p == TomorrowText ==> (r.Some? <==> Contains(s, "tomorrow")) && (r.Some? ==> r.value == Tomorrow)
    ensures p == TodayText ==>
              (r.Some? <==> Contains(s, "today") || Contains(s, "tonight")) && (r.Some? ==> r.value == Today)
    ensures p == WeekdayText && r.Some? ==> r.value.OnWeekday? && Contains(s, DayNames[r.value.targetDay])
    ensures p == WeekdayText ==> IsLeftmostAt(s, WeekdayTextAt, r)
    ensures p == DayMonthText && r.Some? ==>
              r.value.DayMonth? && Contains(s, MonthNames[r.value.month])
              && exists i :: 0 <= i <= |s| && DigitsSpell(s, i, r.value.day)
    ensures p == DayMonthText ==> IsLeftmostAt(s, DayMonthTextAt, r)
  {
    match p
    case TomorrowText => if Contains(s, "tomorrow") then Some(Tomorrow) else None
    case TodayText => if Contains(s, "today") || Contains(s, "tonight") then Some(Today) else None
    case WeekdayText =>
      var found := FindFrom(s, 0, WeekdayTextAt);
      if found.Some? then
        ContainsAt(s, found.value.0, DayNames[found.value.1.targetDay]);
        Some(found.value.1)
      else None
    case DayMonthText =>
      var found := FindFrom(s, 0, DayMonthTextAt);
      if found.Some? then Some(found.value.1) else None
  }

  /** What a matcher gives at the leftmost position where it matches: the
      value at some position with nothing before it, or None when it
      matches nowhere. */
  ghost predicate IsLeftmostAt(s: String, at: (String, nat) -> Option<DateCue>, r: Option<DateCue>) {
    (r.None? <==> forall i :: 0 <= i <= |s| ==> at(s, i).None?)
    && (r.Some? ==> exists i :: 0 <= i <= |s| && at(s, i) == r && forall j :: 0 <= j < i ==> at(s, j).None?)
  }

  /** The index of the first date pattern at or after k that matches. */
  function FirstDay(s: String, k: nat): (r: Option<nat>)
    requires k <= |DayPatterns|
    ensures r.Some? ==> k <= r.value < |DayPatterns| && MatchDay(DayPatterns[r.value], s).Some?
    ensures forall j :: k <= j < |DayPatterns| && (r.None? || j < r.value) ==>
              MatchDay(DayPatterns[j], s).None?
    decreases |DayPatterns| - k
  {
    if k == |DayPatterns| then None
    else if MatchDay(DayPatterns[k], s).Some? then Some(k)
    else FirstDay(s, k + 1)
  }

  // ---------------------------------------------------------------------
  // parseDateFromText

  /** The date `parseDateFromText(timeStr)` returns with the clock reading
      `now`: the first matching pattern's date, at the clock reading's
      hour and minute when the phrase has one, at midnight otherwise. */
  function DateFromText(timeStr: String, now: Clock): (r: Option<Millis>)
    requires ValidClock(now)
  {
    var t := DateWords(timeStr);
    var tm := FindTime(t, false);
    var rest := DateRest(t, tm);
    var dk := FirstDay(rest, 0);
    if dk.None? then None
    else
      var day := Resolve(now, MatchDay(DayPatterns[dk.value], rest).value);
      if tm.None? then Some(day)
      else
        var hm := ReadTime(t, tm.value);
        Some(SetHours(day, hm.0, hm.1))
  }

  /** `parseDateFromText` as the source runs it: the clean-up, the clock
      reading with its 12-hour rule, then the loop over the patterns that
      returns the first match's date. */
  method ParseDateFromText(timeStr: String, now: Clock) returns (r: Option<Millis>)
    requires ValidClock(now)
    ensures r == DateFromText(timeStr, now)
  {
    var found, hours, minutes, t := ReadPhraseClock(timeStr);
    for k := 0 to |DayPatterns|
      invariant FirstDay(t, k) == FirstDay(t, 0)
    {
      var m := MatchDay(DayPatterns[k], t);
      if m.Some? {
        assert FirstDay(t, 0) == Some(k);
        var date := Resolve(now, m.value);
        if found {
          date := SetHours(date, hours, minutes);
        }
        return Some(date);
      }
    }
    return None;
  }

  /** The clean-up and the clock reading: its hour converted to 24-hour
      time, and the phrase left once its text is removed. */
  method ReadPhraseClock(timeStr: String) returns (found: bool, hours: int, minutes: int, rest: String)
    ensures var t := DateWords(timeStr);
      found == FindTime(t, false).Some? && rest == DateRest(t, FindTime(t, false))
      && (found ==> (hours, minutes) == ReadTime(t, FindTime(t, false).value))
  {
    var t := DateWords(timeStr);
    var timeMatch := FindTime(t, false);
    found := timeMatch.Some?;
    hours := 0;
    minutes := 0;
    rest := t;
    if timeMatch.Some? {
      hours := ParseDigits(Slice(t, timeMatch.value.hour));
      minutes := if timeMatch.value.minute.Some? then ParseDigits(Slice(t, timeMatch.value.minute.value)) else 0;
      if timeMatch.value.pm && hours != 12 {
        hours := hours + 12;
      }
      if !timeMatch.value.pm && hours == 12 {
        hours := 0;
      }
      rest := Trim(RemoveFirst(t, Slice(t, timeMatch.value.whole)));
    }
  }

  // ---------------------------------------------------------------------
  // Properties

  /** A date is found exactly when one of the patterns matches what is
      left of the phrase. */
  lemma DateFoundIffPatternMatched(timeStr: String, now: Clock)
    requires ValidClock(now)
    ensures var t := DateWords(timeStr);
      var rest := DateRest(t, FindTime(t, false));
      DateFromText(timeStr, now).Some? <==>
        exists j :: 0 <= j < |DayPatterns| && MatchDay(DayPatterns[j], rest).Some?
  {
    var t := DateWords(timeStr);
    var rest := DateRest(t, FindTime(t, false));
    var dk := FirstDay(rest, 0);
    if dk.Some? {
      assert MatchDay(DayPatterns[dk.value], rest).Some?;
    }
  }

  /** Without a clock reading the date is the pattern's day at midnight;
      with one whose hour and minute are in range, it is the same day at
      that hour and minute. */
  lemma DateFromTextTime(timeStr: String, now: Clock)
    requires ValidClock(now)
    ensures var t := DateWords(timeStr);
      var tm := FindTime(t, false);
      var r := DateFromText(timeStr, now);
      r.Some? ==>
        var day := Resolve(now, MatchDay(DayPatterns[FirstDay(DateRest(t, tm), 0).value], DateRest(t, tm)).value);
        (tm.None? ==> r.value == day && r.value % MsPerDay == 0)
        && (tm.Some? && ReadTime(t, tm.value).0 < 24 && ReadTime(t, tm.value).1 < 60 ==>
              DayOf(r.value) == DayOf(day)
              && HourOf(r.value) == ReadTime(t, tm.value).0
              && MinuteOf(r.value) == ReadTime(t, tm.value).1)
  {
  }

  /** `tomorrow` anywhere in the rest of the phrase wins over every other
      pattern and names the day after today, unless an hour past 23 or a
      minute past 59 carries the time into another day. */
  lemma TomorrowWins(timeStr: String, now: Clock)
    requires ValidClock(now)
    ensures var t := DateWords(timeStr);
      var tm := FindTime(t, false);
      var r := DateFromText(timeStr, now);
      Contains(DateRest(t, tm), "tomorrow") ==>
        r.Some? && ((tm.None? || (ReadTime(t, tm.value).0 < 24 && ReadTime(t, tm.value).1 < 60)) ==>
                       DayOf(r.value) == DayNumber(now) + 1)
  {
    var t := DateWords(timeStr);
    var tm := FindTime(t, false);
    if Contains(DateRest(t, tm), "tomorrow") {
      assert FirstDay(DateRest(t, tm), 0) == Some(0);
    }
  }
}
