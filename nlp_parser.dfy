/** `parseNaturalLanguage`: one line typed by the user becomes a task record
    `{title, assignee, dueDate, priority}`. Every pattern is searched for in
    the original input; what a match covered is then removed from the running
    title, which starts as the trimmed input. Each regular expression is
    written out as a matcher over the string that tries its alternatives in
    the order the regex engine does. */
module NlpParser {
  import opened Options
  import opened Text
  import opened Calendar
  import opened Tasks
  import opened DueDates

  /** `title.replace(piece, '').trim()`. */
  function Strip(title: String, piece: String): (r: String)
    ensures IsTrimmed(r)
  {
    Trim(RemoveFirst(title, piece))
  }

  /** The piece goes where it first occurs in the title, and the rest is
      trimmed; a piece that does not occur leaves the title only trimmed,
      and the empty piece leaves a trimmed title as it is. */
  lemma StripRemovesFirst(title: String, piece: String)
    ensures !Contains(title, piece) ==> Strip(title, piece) == Trim(title)
    ensures Contains(title, piece) ==>
      exists k :: 0 <= k && LiteralAt(title, k, piece)
        && (forall j :: 0 <= j < k ==> !LiteralAt(title, j, piece))
        && Strip(title, piece) == Trim(title[..k] + title[k + |piece|..])
    ensures Contains(title, piece) ==> |Strip(title, piece)| <= |title| - |piece|
    ensures IsTrimmed(title) ==> Strip(title, []) == title
  {
    if Contains(title, piece) {
      var k := IndexOf(title, piece).value;
      assert LiteralAt(title, k, piece);
    }
    if IsTrimmed(title) {
      assert LiteralAt(title, 0, []);
      assert IndexOf(title, []) == Some(0);
      assert title[..0] + title[0..] == title;
      TrimOfTrimmed(title);
    }
  }

  // ---------------------------------------------------------------------
  // Priority: /\b(P[1-4]|priority\s+[1-4])\b/i

  /** The priority token starting at i, by its end. Before the level digit
      `\s+` cannot give a space back, since a digit must follow it. */
  function PriorityTokenAt(s: String, i: nat): (r: Option<nat>)
    ensures r.Some? ==> i + 2 <= r.value <= |s| && IsLevelDigit(s[r.value - 1])
    ensures r.Some? ==> forall k :: i <= k < r.value - 1 ==> !IsDigit(s[k])
  {
    if !IsBoundary(s, i) then None
    else
      var short :=
        if i + 2 <= |s| && LowerChar(s[i]) == 'p' && IsLevelDigit(s[i + 1]) && IsBoundary(s, i + 2)
        then Some(i + 2) else None;
      var long :=
        if LiteralAtCI(s, i, "priority") then
          LettersNotDigits(s, i);
          match Spaces1(s, i + 8)
          case Some(q) =>
            if q < |s| && IsLevelDigit(s[q]) && IsBoundary(s, q + 1) then Some(q + 1) else None
          case None => None
        else None;
      OrElse(short, long)
  }

  lemma LettersNotDigits(s: String, i: nat)
    requires LiteralAtCI(s, i, "priority")
    ensures forall k :: i <= k < i + 8 ==> !IsDigit(s[k])
  {
    forall k | i <= k < i + 8 ensures !IsDigit(s[k]) {
      assert ToLower(s[i..i + 8])[k - i] == LowerChar(s[k]);
    }
  }

  /** The chain of `includes` tests on the lowered token: the first level
      whose name or digit the token contains; the level stays P3 otherwise. */
  function LevelOfToken(tok: String): Priority {
    if Contains(tok, "p1") || Contains(tok, "1") then P1
    else if Contains(tok, "p2") || Contains(tok, "2") then P2
    else if Contains(tok, "p3") || Contains(tok, "3") then P3
    else if Contains(tok, "p4") || Contains(tok, "4") then P4
    else P3
  }

  /** The only digit a priority token [i, j) holds is its last character. */
  lemma TokenDigits(s: String, i: nat, j: nat)
    requires i < j <= |s| && forall k :: i <= k < j - 1 ==> !IsDigit(s[k])
    ensures forall c :: IsDigit(c) ==> (c in ToLower(s[i..j]) <==> c == s[j - 1])
  {
    var tok := ToLower(s[i..j]);
    assert tok[|tok| - 1] == LowerChar(s[j - 1]);
    forall c | IsDigit(c) && c in tok ensures c == s[j - 1] {
      var k :| 0 <= k < |tok| && tok[k] == c;
      assert tok[k] == LowerChar(s[i + k]);
    }
  }

  /** One test of the chain, `includes('pN') || includes('N')`, holds
      exactly for the token's own digit. */
  lemma DigitTest(tok: String, c: char, d: char)
    requires IsDigit(c)
    requires forall e :: IsDigit(e) ==> (e in tok <==> e == d)
    ensures (Contains(tok, ['p', c]) || Contains(tok, [c])) <==> c == d
  {
    ContainsChar(tok, c);
    if Contains(tok, ['p', c]) {
      ContainsLastChar(tok, ['p', c]);
    }
  }

  /** The tested level is the token's own digit: the token holds no other. */
  lemma {:induction false} LevelIsTokenDigit(s: String, i: nat)
    requires PriorityTokenAt(s, i).Some?
    ensures var j := PriorityTokenAt(s, i).value;
      LevelOfToken(ToLower(s[i..j])) == LevelOfDigit(s[j - 1])
  {
    var j := PriorityTokenAt(s, i).value;
    var tok := ToLower(s[i..j]);
    var d := s[j - 1];
    TokenDigits(s, i, j);
    DigitTest(tok, '1', d);
    DigitTest(tok, '2', d);
    DigitTest(tok, '3', d);
    DigitTest(tok, '4', d);
    assert "1" == ['1'] && "2" == ['2'] && "3" == ['3'] && "4" == ['4'];
    assert "p1" == ['p', '1'] && "p2" == ['p', '2'] && "p3" == ['p', '3'] && "p4" == ['p', '4'];
  }

  // ---------------------------------------------------------------------
  // Assignee: three name patterns, tried in order

  /** Where `[A-Z][a-z]+` ends when it starts at i. Under the `i` flag both
      classes match every ASCII letter. Whatever follows a name word in
      these patterns needs a space or a word boundary, so giving back a
      letter can never help: the word is the whole run of letters. */
  function WordEnd(s: String, i: nat): (r: Option<nat>)
    ensures r.Some? ==> i + 2 <= r.value <= |s|
  {
    if i > |s| then None
    else
      var e := RunEnd(s, i, IsLetter);
      if e >= i + 2 then Some(e) else None
  }

  /** A name pattern's captured name (group 1) and whole match. */
  datatype NameMatch = NameMatch(capture: Span, whole: Span)

  predicate ValidNameMatch(s: String, m: NameMatch) {
    m.whole.lo <= m.capture.lo < m.capture.hi <= m.whole.hi <= |s|
  }

  /** `(?:\s+[A-Z][a-z]+)*\b` after a word ending at p: another word is
      tried first, and the repetition may stop where a boundary follows. */
  function NameTail(s: String, p: nat): (r: Option<nat>)
    requires p <= |s|
    ensures r.Some? ==> p <= r.value <= |s|
    decreases |s| - p
  {
    var more :=
      match Spaces1(s, p)
      case None => None
      case Some(q) =>
        match WordEnd(s, q)
        case None => None
        case Some(e) => NameTail(s, e);
    OrElse(more, if IsBoundary(s, p) then Some(p) else None)
  }

  /** `\s+([A-Z][a-z]+(?:\s+[A-Z][a-z]+)*)\b` at k, for a match begun at lo.
      The leading `\s+` takes every space, as a letter must follow. */
  function NameAfter(s: String, lo: nat, k: nat): (r: Option<NameMatch>)
    requires lo <= k <= |s|
    ensures r.Some? ==> ValidNameMatch(s, r.value) && r.value.whole.lo == lo
  {
    match Spaces1(s, k)
    case None => None
    case Some(q) =>
      match WordEnd(s, q)
      case None => None
      case Some(e) =>
        match NameTail(s, e)
        case None => None
        case Some(t) => Some(NameMatch(Span(q, t), Span(lo, t)))
  }

  /** `\s+to` then the name, after `assign` or `assigned`. */
  function AssignToAfter(s: String, lo: nat, k: nat): (r: Option<NameMatch>)
    requires lo <= k <= |s|
    ensures r.Some? ==> ValidNameMatch(s, r.value) && r.value.whole.lo == lo
  {
    match Spaces1(s, k)
    case None => None
    case Some(q) => if LiteralAtCI(s, q, "to") then NameAfter(s, lo, q + 2) else None
  }

  /** `\b(?:for|with|by|to|assign(?:ed)?\s+to)\s+(NAME)\b` at i. */
  function ForNameAt(s: String, i: nat): (r: Option<NameMatch>)
    ensures r.Some? ==> ValidNameMatch(s, r.value) && r.value.whole.lo == i
  {
    if !IsBoundary(s, i) then None
    else
      var viaFor := if LiteralAtCI(s, i, "for") then NameAfter(s, i, i + 3) else None;
      var viaWith := if LiteralAtCI(s, i, "with") then NameAfter(s, i, i + 4) else None;
      var viaBy := if LiteralAtCI(s, i, "by") then NameAfter(s, i, i + 2) else None;
      var viaTo := if LiteralAtCI(s, i, "to") then NameAfter(s, i, i + 2) else None;
      var viaAssign :=
        if LiteralAtCI(s, i, "assign") then
          OrElse(if LiteralAtCI(s, i + 6, "ed") then AssignToAfter(s, i, i + 8) else None,
                 AssignToAfter(s, i, i + 6))
        else None;
      OrElse(viaFor, OrElse(viaWith, OrElse(viaBy, OrElse(viaTo, viaAssign))))
  }

  const Modals: seq<String> := ["should", "needs to", "must", "will"]

  /** `(?:\s+[A-Z][a-z]+)*\s+(?:should|needs to|must|will)\b` after a word
      ending at p: the longest run of further words that a modal still
      follows. Yields the end of the name and the end of the match. */
  function ModalTail(s: String, p: nat): (r: Option<(nat, nat)>)
    requires p <= |s|
    ensures r.Some? ==> p <= r.value.0 < r.value.1 <= |s|
    decreases |s| - p
  {
    var more :=
      match Spaces1(s, p)
      case None => None
      case Some(q) =>
        match WordEnd(s, q)
        case None => None
        case Some(e) => ModalTail(s, e);
    var stop :=
      match Spaces1(s, p)
      case None => None
      case Some(q) =>
        match AltFrom(s, q, Modals, 0, true, (t: String, j: nat) => IsBoundary(t, j))
        case None => None
        case Some(k) => Some((p, q + |Modals[k]|));
    OrElse(more, stop)
  }

  /** `\b(NAME)\s+(?:should|needs to|must|will)\b` at i. */
  function ModalNameAt(s: String, i: nat): (r: Option<NameMatch>)
    ensures r.Some? ==> ValidNameMatch(s, r.value) && r.value.whole.lo == i
  {
    if !IsBoundary(s, i) then None
    else
      match WordEnd(s, i)
      case None => None
      case Some(e) =>
        match ModalTail(s, e)
        case None => None
        case Some(ends) => Some(NameMatch(Span(i, ends.0), Span(i, ends.1)))
  }

  const LookaheadWords: seq<String> := ["by", "before", "on", "at"]

  /** `\b([A-Z][a-z]+)\b(?=\s+(?:by|before|on|at))` at i: the lookahead
      consumes nothing and does not ask for a boundary after the word. */
  function WordBeforeCueAt(s: String, i: nat): (r: Option<NameMatch>)
    ensures r.Some? ==> ValidNameMatch(s, r.value) && r.value.whole.lo == i
    ensures r.Some? ==> r.value.capture == r.value.whole
  {
    if !IsBoundary(s, i) then None
    else
      match WordEnd(s, i)
      case None => None
      case Some(e) =>
        if !IsBoundary(s, e) then None
        else
          match Spaces1(s, e)
          case None => None
          case Some(q) =>
            if AltFrom(s, q, LookaheadWords, 0, true, AnyPos).Some?
            then Some(NameMatch(Span(i, e), Span(i, e))) else None
  }

  datatype NamePattern = ForName | ModalName | WordBeforeCue

  const NamePatterns: seq<NamePattern> := [ForName, ModalName, WordBeforeCue]

  function NameAt(p: NamePattern, s: String, i: nat): (r: Option<NameMatch>)
    ensures r.Some? ==> ValidNameMatch(s, r.value)
  {
    match p
    case ForName => ForNameAt(s, i)
    case ModalName => ModalNameAt(s, i)
    case WordBeforeCue => WordBeforeCueAt(s, i)
  }

  /** `input.match(pattern)`: the leftmost match of a name pattern. */
  function MatchName(p: NamePattern, s: String): (r: Option<NameMatch>)
    ensures r.Some? ==> ValidNameMatch(s, r.value)
  {
    match FindFrom(s, 0, (t: String, i: nat) => NameAt(p, t, i))
    case None => None
    case Some(found) => Some(found.1)
  }

  const CommonWords: seq<String> :=
    ["today", "tomorrow", "monday", "tuesday", "wednesday", "thursday", "friday",
     "saturday", "sunday", "morning", "afternoon", "evening", "night", "am", "pm"]

  /** A match of pattern p whose captured name is not a common word. */
  predicate Accepted(p: NamePattern, s: String) {
    var m := MatchName(p, s);
    m.Some? && ToLower(Slice(s, m.value.capture)) !in CommonWords
  }

  /** The index of the first accepted name pattern at or after k. */
  function FirstAccepted(s: String, k: nat): (r: Option<nat>)
    requires k <= |NamePatterns|
    ensures r.Some? ==> k <= r.value < |NamePatterns| && Accepted(NamePatterns[r.value], s)
    ensures forall j :: k <= j < |NamePatterns| && (r.None? || j < r.value) ==>
              !Accepted(NamePatterns[j], s)
    decreases |NamePatterns| - k
  {
    if k == |NamePatterns| then None
    else if Accepted(NamePatterns[k], s) then Some(k)
    else FirstAccepted(s, k + 1)
  }

  // ---------------------------------------------------------------------
  // Dates: six patterns, tried in order

  /** The number a run of digits at i spells, as `parseInt` reads it. */
  function LeadingNumber(s: String, i: nat): nat
    requires i <= |s|
  {
    var h := RunEnd(s, i, IsDigit);
    assert forall k :: 0 <= k < h - i ==> s[i..h][k] == s[i + k];
    ParseDigits(s[i..h])
  }

  /** The match [lo, hi) ends with the word w, ignoring case. */
  predicate EndsWithCI(s: String, lo: nat, hi: nat, w: String) {
    lo + |w| <= hi <= |s| && LiteralAtCI(s, hi - |w|, w)
  }

  /** What the text a date pattern matched at [lo, hi) says the cue is:
      the word itself; a weekday or month name ending the match, ignoring
      case; the month, day and year as the digit runs spell them between
      the slashes. */
  predicate CueText(s: String, lo: nat, hi: nat, c: DateCue)
    requires lo <= hi <= |s|
  {
    match c
    case Tomorrow => ToLower(s[lo..hi]) == "tomorrow"
    case Today => ToLower(s[lo..hi]) == "today"
    case OnWeekday(t) => t < 7 && EndsWithCI(s, lo, hi, DayNames[t])
    case DayMonth(d, m) =>
      m < 12 && DayText(s, lo, d) && EndsWithCI(s, RunEnd(s, lo, IsDigit) + 1, hi, MonthNames[m])
    case Numeric(m, d, y) =>
      var a := RunEnd(s, lo, IsDigit);
      DayText(s, lo, m) && a < hi && s[a] == '/' && DayText(s, a + 1, d)
      && var b := RunEnd(s, a + 1, IsDigit);
      (y.None? ==> hi == b)
      && (y.Some? ==> YearText(s, b, hi, y.value))
  }

  /** One or two digits at i, the whole digit run there, spelling n. */
  predicate DayText(s: String, i: nat, n: nat) {
    i <= |s| && i < RunEnd(s, i, IsDigit) <= i + 2 && n == LeadingNumber(s, i)
  }

  /** A slash at b, then two to four digits running to hi, spelling y. */
  predicate YearText(s: String, b: nat, hi: nat, y: nat) {
    b + 3 <= hi <= b + 5 && hi <= |s| && s[b] == '/'
    && RunEnd(s, b + 1, IsDigit) == hi && y == LeadingNumber(s, b + 1)
  }

  /** A literal starting with a letter can only match at a letter. */
  lemma LetterLiteral(s: String, q: nat, lit: String, ci: bool)
    requires |lit| > 0 && IsLetter(lit[0]) && LitAt(s, q, lit, ci)
    ensures q < |s| && IsLetter(s[q])
  {
    assert s[q..q + |lit|][0] == s[q];
  }

  /** How many digits the day took, once the suffix or the spaces after it
      are read: a letter or a space follows, so the run stops there. */
  lemma DayDigitsEnd(s: String, i: nat, h: nat)
    requires i < h <= |s| && AllDigits(s[i..h])
    requires h < |s| && !IsDigit(s[h])
    ensures RunEnd(s, i, IsDigit) == h && LeadingNumber(s, i) == ParseDigits(s[i..h])
  {
    assert forall k :: i <= k < h ==> s[k] == s[i..h][k - i];
    RunEndUnique(s, i, IsDigit, h);
  }

  /** A single word bounded on both sides, ignoring case: `\b(tomorrow)\b`. */
  function WordCueAt(s: String, i: nat, word: String, cue: DateCue): (r: Option<(nat, DateCue)>)
    requires word != []
    ensures r.Some? ==> i < r.value.0 <= |s| && r.value.1 == cue
    ensures r.Some? ==> ToLower(s[i..r.value.0]) == word
  {
    if IsBoundary(s, i) && LiteralAtCI(s, i, word) && IsBoundary(s, i + |word|)
    then Some((i + |word|, cue)) else None
  }

  /** `(monday|...|sunday)\b` at q, named by its `getDay()` number. */
  function WeekdayNameAt(s: String, q: nat): (r: Option<(nat, DateCue)>)
    ensures r.Some? ==> q < r.value.0 <= |s| && ValidCue(r.value.1) && r.value.1.OnWeekday?
    ensures r.Some? ==> r.value.1.targetDay < 7 && EndsWithCI(s, q, r.value.0, DayNames[r.value.1.targetDay])
  {
    match AltFrom(s, q, WeekdayAlternation, 0, true, (t: String, j: nat) => IsBoundary(t, j))
    case None => None
    case Some(k) =>
      WeekdayAlternationIndex(k);
      Some((q + |WeekdayAlternation[k]|, OnWeekday(DayIndex(WeekdayAlternation[k]))))
  }

  /** `\bnext\s+(monday|...|sunday)\b` at i. */
  function NextWeekdayAt(s: String, i: nat): (r: Option<(nat, DateCue)>)
    ensures r.Some? ==> i < r.value.0 <= |s| && ValidCue(r.value.1)
    ensures r.Some? ==> CueText(s, i, r.value.0, r.value.1)
  {
    if IsBoundary(s, i) && LiteralAtCI(s, i, "next") then
      match Spaces1(s, i + 4)
      case None => None
      case Some(q) => WeekdayNameAt(s, q)
    else None
  }

  /** `\b(monday|...|sunday)\b` at i. */
  function WeekdayAt(s: String, i: nat): (r: Option<(nat, DateCue)>)
    ensures r.Some? ==> i < r.value.0 <= |s| && ValidCue(r.value.1)
    ensures r.Some? ==> CueText(s, i, r.value.0, r.value.1)
  {
    if IsBoundary(s, i) then WeekdayNameAt(s, i) else None
  }

  /** `\s+(january|...|december)\b` at p, for a day already read. */
  function MonthAfter(s: String, p: nat, day: nat): (r: Option<(nat, DateCue)>)
    ensures r.Some? ==> p < r.value.0 <= |s| && ValidCue(r.value.1)
    ensures r.Some? ==> r.value.1.DayMonth? && r.value.1.day == day
    ensures r.Some? ==> p < |s| && IsSpace(s[p])
    ensures r.Some? ==> EndsWithCI(s, p + 1, r.value.0, MonthNames[r.value.1.month])
  {
    match Spaces1(s, p)
    case None => None
    case Some(q) =>
      match AltFrom(s, q, MonthNames, 0, true, (t: String, j: nat) => IsBoundary(t, j))
      case None => None
      case Some(k) =>
        NameEndsMatch(s, p + 1, q, MonthNames[k]);
        Some((q + |MonthNames[k]|, DayMonth(day, k)))
  }

  /** A name matched at q ends a match that starts at lo <= q. */
  lemma NameEndsMatch(s: String, lo: nat, q: nat, w: String)
    requires lo <= q && LiteralAtCI(s, q, w)
    ensures EndsWithCI(s, lo, q + |w|, w)
  {
  }

  /** After the day digits [i, h): the optional suffix, tried first with and
      then without. The suffixes exclude one another, so the first that is
      present is the only one that can match. */
  function DayMonthAfterDigits(s: String, i: nat, h: nat): (r: Option<(nat, DateCue)>)
    requires i < h <= |s| && AllDigits(s[i..h])
    ensures r.Some? ==> h < r.value.0 <= |s| && ValidCue(r.value.1)
    ensures r.Some? ==> r.value.1.DayMonth? && r.value.1.day == ParseDigits(s[i..h])
    ensures r.Some? ==> h < |s| && !IsDigit(s[h])
    ensures r.Some? ==> EndsWithCI(s, h + 1, r.value.0, MonthNames[r.value.1.month])
  {
    var day := ParseDigits(s[i..h]);
    var suffix := AltFrom(s, h, DaySuffixes, 0, true, AnyPos);
    var withSuffix := if suffix.Some? then MonthAfter(s, h + 2, day) else None;
    if withSuffix.Some? then
      SuffixThenMonth(s, h, suffix.value, withSuffix.value.0, MonthNames[withSuffix.value.1.month]);
      withSuffix
    else MonthAfter(s, h, day)
  }

  /** A day suffix at h starts with a letter, and a month name ending after
      it also ends after h + 1. */
  lemma SuffixThenMonth(s: String, h: nat, k: nat, hi: nat, w: String)
    requires k < |DaySuffixes| && LitAt(s, h, DaySuffixes[k], true)
    requires EndsWithCI(s, h + 3, hi, w)
    ensures h < |s| && !IsDigit(s[h]) && EndsWithCI(s, h + 1, hi, w)
  {
    SuffixStartsWithLetter(k);
    LetterLiteral(s, h, DaySuffixes[k], true);
  }

  lemma SuffixStartsWithLetter(k: nat)
    requires k < |DaySuffixes|
    ensures |DaySuffixes[k]| == 2 && IsLetter(DaySuffixes[k][0])
  {
    assert k == 0 || k == 1 || k == 2 || k == 3;
  }

  /** `\b(\d{1,2})(?:st|nd|rd|th)?\s+(january|...|december)\b` at i. */
  function DayMonthAt(s: String, i: nat): (r: Option<(nat, DateCue)>)
    ensures r.Some? ==> i < r.value.0 <= |s| && ValidCue(r.value.1)
    ensures r.Some? ==> CueText(s, i, r.value.0, r.value.1)
  {
    if !IsBoundary(s, i) || i >= |s| || !IsDigit(s[i]) then None
    else
      var two := if i + 2 <= |s| && IsDigit(s[i + 1]) then DayMonthAfterDigits(s, i, i + 2) else None;
      if two.Some? then
        DayMonthText(s, i, i + 2);
        two
      else
        var one := DayMonthAfterDigits(s, i, i + 1);
        if one.Some? then DayMonthText(s, i, i + 1); one else None
  }

  /** The day digits [i, h) are the whole run, and the match ends with the
      month's name. */
  lemma DayMonthText(s: String, i: nat, h: nat)
    requires i < h <= i + 2 && h <= |s| && AllDigits(s[i..h]) && DayMonthAfterDigits(s, i, h).Some?
    ensures var r := DayMonthAfterDigits(s, i, h).value; CueText(s, i, r.0, r.1)
  {
    DayDigitsEnd(s, i, h);
  }

  /** `/(\d{n})\b` at b, for the year group's n = 4, 3 or 2. The boundary
      after the digits ends their run. */
  function YearDigits(s: String, b: nat, n: nat): (r: Option<(nat, nat)>)
    requires 2 <= n <= 4
    ensures r.Some? ==> b < r.value.0 <= |s|
    ensures r.Some? ==> r.value.0 == b + 1 + n && YearText(s, b, r.value.0, r.value.1)
  {
    if b + 1 + n <= |s| && s[b] == '/' && AllDigits(s[b + 1..b + 1 + n]) && IsBoundary(s, b + 1 + n)
    then
      assert IsDigit(s[b + 1..b + 1 + n][n - 1]);
      DigitRunEnd(s, b + 1, b + 1 + n);
      Some((b + 1 + n, ParseDigits(s[b + 1..b + 1 + n])))
    else None
  }

  /** Digits at [i, h) followed by a position outside any word end their
      run there. */
  lemma DigitRunEnd(s: String, i: nat, h: nat)
    requires i < h <= |s| && AllDigits(s[i..h]) && IsBoundary(s, h)
    ensures RunEnd(s, i, IsDigit) == h
  {
    assert forall k :: i <= k < h ==> s[k] == s[i..h][k - i];
    RunEndUnique(s, i, IsDigit, h);
  }

  /** After `M/D` ending at b: `(?:\/(\d{2,4}))?\b`, the year group tried
      first with four digits, then three, then two, then absent. */
  function NumericAfterDay(s: String, month: nat, day: nat, b: nat): (r: Option<(nat, DateCue)>)
    requires 0 < b <= |s| && IsDigit(s[b - 1])
    ensures r.Some? ==> b <= r.value.0 <= |s| && ValidCue(r.value.1)
    ensures r.Some? ==> b == |s| || !IsDigit(s[b])
    ensures r.Some? ==> r.value.1.Numeric? && r.value.1.month == month && r.value.1.day == day
    ensures r.Some? && r.value.1.year.None? ==> r.value.0 == b
    ensures r.Some? && r.value.1.year.Some? ==> YearText(s, b, r.value.0, r.value.1.year.value)
  {
    match OrElse(YearDigits(s, b, 4), OrElse(YearDigits(s, b, 3), YearDigits(s, b, 2)))
    case Some(y) => Some((y.0, Numeric(month, day, Some(y.1))))
    case None => if IsBoundary(s, b) then Some((b, Numeric(month, day, None))) else None
  }

  /** `/(\d{1,2})` after the month digits [i, a), two day digits first. */
  function NumericAfterMonth(s: String, i: nat, a: nat): (r: Option<(nat, DateCue)>)
    requires i < a <= |s| && AllDigits(s[i..a])
    ensures r.Some? ==> a < r.value.0 <= |s| && ValidCue(r.value.1)
    ensures r.Some? ==> s[a] == '/' && r.value.1.Numeric? && r.value.1.month == ParseDigits(s[i..a])
    ensures r.Some? ==> DayText(s, a + 1, r.value.1.day)
    ensures r.Some? && r.value.1.year.None? ==> r.value.0 == RunEnd(s, a + 1, IsDigit)
    ensures r.Some? && r.value.1.year.Some? ==>
              YearText(s, RunEnd(s, a + 1, IsDigit), r.value.0, r.value.1.year.value)
  {
    if a + 1 < |s| && s[a] == '/' && IsDigit(s[a + 1]) then
      var month := ParseDigits(s[i..a]);
      var two :=
        if a + 2 < |s| && IsDigit(s[a + 2])
        then NumericAfterDay(s, month, ParseDigits(s[a + 1..a + 3]), a + 3) else None;
      if two.Some? then
        DayRunEnd(s, a + 1, a + 3);
        two
      else
        var one := NumericAfterDay(s, month, ParseDigits(s[a + 1..a + 2]), a + 2);
        if one.Some? then DayRunEnd(s, a + 1, a + 2); one else None
    else None
  }

  /** The day's digits [c, b) stop where the year's slash or a boundary
      follows them. */
  lemma DayRunEnd(s: String, c: nat, b: nat)
    requires c < b <= |s| && forall k :: c <= k < b ==> IsDigit(s[k])
    requires b == |s| || !IsDigit(s[b])
    ensures RunEnd(s, c, IsDigit) == b
    ensures AllDigits(s[c..b]) && LeadingNumber(s, c) == ParseDigits(s[c..b])
  {
    RunEndUnique(s, c, IsDigit, b);
  }

  /** `\b(\d{1,2})\/(\d{1,2})(?:\/(\d{2,4}))?\b` at i; no flag is needed. */
  function NumericAt(s: String, i: nat): (r: Option<(nat, DateCue)>)
    ensures r.Some? ==> i < r.value.0 <= |s| && ValidCue(r.value.1)
    ensures r.Some? ==> CueText(s, i, r.value.0, r.value.1)
  {
    if !IsBoundary(s, i) || i >= |s| || !IsDigit(s[i]) then None
    else
      var two := if i + 2 <= |s| && IsDigit(s[i + 1]) then NumericWithMonth(s, i, i + 2) else None;
      Options.OrElse(two, NumericWithMonth(s, i, i + 1))
  }

  /** The numeric date whose month is the digits in [i, a). */
  function NumericWithMonth(s: String, i: nat, a: nat): (r: Option<(nat, DateCue)>)
    requires i < a <= i + 2 && a <= |s| && forall k :: i <= k < a ==> IsDigit(s[k])
    ensures r.Some? ==> i < r.value.0 <= |s| && ValidCue(r.value.1)
    ensures r.Some? ==> CueText(s, i, r.value.0, r.value.1)
  {
    assert AllDigits(s[i..a]) by {
      assert forall k :: 0 <= k < a - i ==> s[i..a][k] == s[i + k];
    }
    var r := NumericAfterMonth(s, i, a);
    if r.Some? then NumericText(s, i, a); r else None
  }


  /** The month digits [i, a) are followed by the slash, so they are the
      whole run, and the rest of the match spells the day and year. */
  lemma NumericText(s: String, i: nat, a: nat)
    requires i < a <= i + 2 && a <= |s| && forall k :: i <= k < a ==> IsDigit(s[k])
    requires AllDigits(s[i..a]) && NumericAfterMonth(s, i, a).Some?
    ensures var r := NumericAfterMonth(s, i, a).value; CueText(s, i, r.0, r.1)
  {
    DayRunEnd(s, i, a);
  }

  datatype DatePattern = TomorrowWord | TodayWord | NextWeekday | Weekday | DayMonthName | MonthSlashDay

  const DatePatterns: seq<DatePattern> :=
    [TomorrowWord, TodayWord, NextWeekday, Weekday, DayMonthName, MonthSlashDay]

  function DateAt(p: DatePattern, s: String, i: nat): (r: Option<(nat, DateCue)>)
    ensures r.Some? ==> i < r.value.0 <= |s| && ValidCue(r.value.1)
    ensures r.Some? ==> CueText(s, i, r.value.0, r.value.1)
    ensures r.Some? ==> match p
      case TomorrowWord => r.value.1.Tomorrow?
      case TodayWord => r.value.1.Today?
      case NextWeekday => r.value.1.OnWeekday?
      case Weekday => r.value.1.OnWeekday?
      case DayMonthName => r.value.1.DayMonth?
      case MonthSlashDay => r.value.1.Numeric?
  {
    match p
    case TomorrowWord => WordCueAt(s, i, "tomorrow", Tomorrow)
    case TodayWord => WordCueAt(s, i, "today", Today)
    case NextWeekday => NextWeekdayAt(s, i)
    case Weekday => WeekdayAt(s, i)
    case DayMonthName => DayMonthAt(s, i)
    case MonthSlashDay => NumericAt(s, i)
  }

  /** A date pattern's leftmost match: what it covered and what it names. */
  function MatchDate(p: DatePattern, s: String): (r: Option<(Span, DateCue)>)
    ensures r.Some? ==> SpanIn(r.value.0, s) && ValidCue(r.value.1)
    ensures r.Some? ==> CueText(s, r.value.0.lo, r.value.0.hi, r.value.1)
    ensures r.Some? ==> forall j :: 0 <= j < r.value.0.lo ==> DateAt(p, s, j).None?
    ensures r.None? ==> forall j :: 0 <= j <= |s| ==> DateAt(p, s, j).None?
  {
    var at := (t: String, i: nat) => DateAt(p, t, i);
    assert forall j: nat :: at(s, j) == DateAt(p, s, j);
    match FindFrom(s, 0, at)
    case None => None
    case Some(found) => Some((Span(found.0, found.1.0), found.1.1))
  }

  /** The index of the first date pattern at or after k that matches. */
  function FirstDate(s: String, k: nat): (r: Option<nat>)
    requires k <= |DatePatterns|
    ensures r.Some? ==> k <= r.value < |DatePatterns| && MatchDate(DatePatterns[r.value], s).Some?
    ensures forall j :: k <= j < |DatePatterns| && (r.None? || j < r.value) ==>
              MatchDate(DatePatterns[j], s).None?
    decreases |DatePatterns| - k
  {
    if k == |DatePatterns| then None
    else if MatchDate(DatePatterns[k], s).Some? then Some(k)
    else FirstDate(s, k + 1)
  }

  // ---------------------------------------------------------------------
  // Title cleanup

  const TrailingWords: seq<String> := ["by", "before", "on", "at", "for", "with", "to", "and", "or"]

  predicate OnlySpacesAfter(s: String, j: nat) {
    j <= |s| && RunEnd(s, j, IsSpace) == |s|
  }

  /** `\b(by|before|on|at|for|with|to|and|or)\s*$` at i, ignoring case. */
  function TrailingWordAt(s: String, i: nat): (r: Option<nat>)
    ensures r.Some? ==> r.value < |TrailingWords|
  {
    if IsBoundary(s, i) then AltFrom(s, i, TrailingWords, 0, true, OnlySpacesAfter) else None
  }

  /** Removes the leftmost trailing connective, if there is one; the match
      runs to the end, so what is left is the text before it. */
  function DropTrailingWord(t: String): (r: String)
    ensures (forall i :: 0 <= i <= |t| ==> TrailingWordAt(t, i).None?) ==> r == t
    ensures (exists i :: 0 <= i <= |t| && TrailingWordAt(t, i).Some?) ==>
              exists i :: 0 <= i < |t| && r == t[..i] && TrailingWordAt(t, i).Some?
                          && forall j :: 0 <= j < i ==> TrailingWordAt(t, j).None?
  {
    var at := (s: String, i: nat) => TrailingWordAt(s, i);
    assert forall j: nat :: at(t, j) == TrailingWordAt(t, j);
    match FindFrom(t, 0, at)
    case None => t
    case Some(found) =>
      TrailingWordInside(t, found.0);
      t[..found.0]
  }

  /** A connective matches only where a word starts, before the end. */
  lemma TrailingWordInside(t: String, i: nat)
    requires TrailingWordAt(t, i).Some?
    ensures i < |t|
  {
    var k := TrailingWordAt(t, i).value;
    assert |TrailingWords[k]| > 0;
  }

  /** The cleanup chain: trailing connective removed, whitespace collapsed,
      trimmed. */
  function CleanTitle(t: String): (r: String)
    ensures IsTrimmed(r) && NoSpaceRuns(r)
    ensures forall i :: 0 <= i < |r| && IsSpace(r[i]) ==> r[i] == ' '
    ensures NonSpace(r) == NonSpace(DropTrailingWord(t))
  {
    Tidy(DropTrailingWord(t))
  }

  // ---------------------------------------------------------------------
  // The whole parse, as a specification in stages

  /** The priority token's leftmost match, as (start, end). */
  function PriorityMatch(input: String): (r: Option<(nat, nat)>)
    ensures r.Some? ==> r.value.0 + 2 <= r.value.1 <= |input| && IsLevelDigit(input[r.value.1 - 1])
  {
    match FindFrom(input, 0, PriorityTokenAt)
    case None => None
    case Some(found) => Some((found.0, found.1))
  }

  /** The level the token names, P3 without one. */
  function PriorityOf(input: String): Priority {
    var pm := PriorityMatch(input);
    if pm.Some? then LevelOfToken(ToLower(input[pm.value.0..pm.value.1])) else P3
  }

  /** The trimmed input with the priority token removed. */
  function TitleAfterPriority(input: String): String {
    var pm := PriorityMatch(input);
    if pm.Some? then Strip(Trim(input), input[pm.value.0..pm.value.1]) else Trim(input)
  }

  /** The accepted name match, if any pattern gave one. */
  function NameOf(input: String): (r: Option<NameMatch>)
    ensures r.Some? ==> ValidNameMatch(input, r.value)
  {
    var nk := FirstAccepted(input, 0);
    if nk.Some? then MatchName(NamePatterns[nk.value], input) else None
  }

  function AssigneeOf(input: String): String {
    var name := NameOf(input);
    if name.Some? then Slice(input, name.value.capture) else ""
  }

  function TitleAfterName(input: String): String {
    var name := NameOf(input);
    var t := TitleAfterPriority(input);
    if name.Some? then Strip(t, Slice(input, name.value.whole)) else t
  }

  function TitleAfterTime(input: String): String {
    var tm := FindTime(input, true);
    var t := TitleAfterName(input);
    if tm.Some? then Strip(t, Slice(input, tm.value.whole)) else t
  }

  /** The first date pattern's match, if any matched. */
  function DateOf(input: String): (r: Option<(Span, DateCue)>)
    ensures r.Some? ==> SpanIn(r.value.0, input) && ValidCue(r.value.1)
  {
    var dk := FirstDate(input, 0);
    if dk.Some? then MatchDate(DatePatterns[dk.value], input) else None
  }

  /** The running title once the priority, name, clock and date matches
      have each been removed from it, before cleanup. */
  function TitleBeforeCleanup(input: String): String {
    var dm := DateOf(input);
    var t := TitleAfterTime(input);
    if dm.Some? then Strip(t, Slice(input, dm.value.0)) else t
  }

  /** The first date pattern's date, at the clock reading's hour and
      minute when there is one. */
  function DueDateOf(input: String, now: Clock): Option<Millis>
    requires ValidClock(now)
  {
    var dm := DateOf(input);
    var tm := FindTime(input, true);
    if dm.None? then None
    else if tm.None? then Some(Resolve(now, dm.value.1))
    else
      var hm := ReadTime(input, tm.value);
      Some(SetHours(Resolve(now, dm.value.1), hm.0, hm.1))
  }

  /** The result of `parseNaturalLanguage(input)` with the clock reading
      `now`: the value the imperative method below computes. */
  function Parse(input: String, now: Clock): ParsedTask
    requires ValidClock(now)
  {
    var title := CleanTitle(TitleBeforeCleanup(input));
    ParsedTask(if title == [] then input else title, AssigneeOf(input),
               DueDateOf(input, now), PriorityOf(input))
  }

  /** The priority step: the `includes` chain on the lowered token, and the
      token removed from the trimmed input. */
  method ReadPriority(input: String) returns (priority: Priority, title: String)
    ensures priority == PriorityOf(input)
    ensures title == TitleAfterPriority(input)
  {
    title := Trim(input);
    priority := P3;
    var priorityMatch := FindFrom(input, 0, PriorityTokenAt);
    if priorityMatch.Some? {
      var token := input[priorityMatch.value.0..priorityMatch.value.1];
      var lowered := ToLower(token);
      if Contains(lowered, "p1") || Contains(lowered, "1") {
        priority := P1;
      } else if Contains(lowered, "p2") || Contains(lowered, "2") {
        priority := P2;
      } else if Contains(lowered, "p3") || Contains(lowered, "3") {
        priority := P3;
      } else if Contains(lowered, "p4") || Contains(lowered, "4") {
        priority := P4;
      }
      title := Strip(title, token);
    }
  }

  /** The loop over the name patterns, which stops at the first match
      whose name is not a common word. */
  method ReadAssignee(input: String, title0: String) returns (assignee: String, title: String)
    requires title0 == TitleAfterPriority(input)
    ensures assignee == AssigneeOf(input)
    ensures title == TitleAfterName(input)
  {
    assignee := "";
    title := title0;
    for k := 0 to |NamePatterns|
      invariant assignee == "" && title == title0
      invariant FirstAccepted(input, k) == FirstAccepted(input, 0)
    {
      var m := MatchName(NamePatterns[k], input);
      if m.Some? && ToLower(Slice(input, m.value.capture)) !in CommonWords {
        assert FirstAccepted(input, 0) == Some(k);
        assignee := Slice(input, m.value.capture);
        title := Strip(title, Slice(input, m.value.whole));
        break;
      }
    }
  }

  /** The clock reading: hour and minute converted to 24-hour time. */
  method ReadClock(input: String, title0: String) returns (found: bool, hours: int, minutes: int, title: String)
    requires title0 == TitleAfterName(input)
    ensures found == FindTime(input, true).Some?
    ensures found ==> (hours, minutes) == ReadTime(input, FindTime(input, true).value)
    ensures title == TitleAfterTime(input)
  {
    var timeMatch := FindTime(input, true);
    found := timeMatch.Some?;
    hours := 0;
    minutes := 0;
    title := title0;
    if timeMatch.Some? {
      hours := ParseDigits(Slice(input, timeMatch.value.hour));
      minutes := if timeMatch.value.minute.Some? then ParseDigits(Slice(input, timeMatch.value.minute.value)) else 0;
      if timeMatch.value.pm && hours != 12 {
        hours := hours + 12;
      }
      if !timeMatch.value.pm && hours == 12 {
        hours := 0;
      }
      title := Strip(title, Slice(input, timeMatch.value.whole));
    }
  }

  /** The loop over the date patterns, which stops at the first match. */
  method ReadDate(input: String, now: Clock, title0: String) returns (dueDate: Option<Millis>, title: String)
    requires ValidClock(now)
    requires title0 == TitleAfterTime(input)
    ensures dueDate == (if DateOf(input).Some? then Some(Resolve(now, DateOf(input).value.1)) else None)
    ensures title == TitleBeforeCleanup(input)
  {
    dueDate := None;
    title := title0;
    for k := 0 to |DatePatterns|
      invariant dueDate.None? && title == title0
      invariant FirstDate(input, k) == FirstDate(input, 0)
    {
      var m := MatchDate(DatePatterns[k], input);
      if m.Some? {
        assert FirstDate(input, 0) == Some(k);
        dueDate := Some(Resolve(now, m.value.1));
        title := Strip(title, Slice(input, m.value.0));
        break;
      }
    }
  }

  /** `parseNaturalLanguage`, step by step as the source runs it: priority,
      assignee, clock reading, date, the clock applied to the date, then
      the title cleanup with the input as the fallback title. */
  method ParseNaturalLanguage(input: String, now: Clock) returns (r: ParsedTask)
    requires ValidClock(now)
    ensures r == Parse(input, now)
  {
    var priority, title := ReadPriority(input);
    var assignee;
    assignee, title := ReadAssignee(input, title);
    var found, hours, minutes;
    found, hours, minutes, title := ReadClock(input, title);
    var dueDate;
    dueDate, title := ReadDate(input, now, title);
    if dueDate.Some? && found {
      dueDate := Some(SetHours(dueDate.value, hours, minutes));
    }
    title := CleanTitle(title);
    r := ParsedTask(if title == [] then input else title, assignee, dueDate, priority);
  }

  // ---------------------------------------------------------------------
  // Properties of the parse

  /** The priority is P3 unless a priority token matched, and then it is
      the level the token's digit names. */
  lemma ParsePriority(input: String)
    ensures var pm := PriorityMatch(input);
      PriorityOf(input) == if pm.Some? then LevelOfDigit(input[pm.value.1 - 1]) else P3
  {
    var pm := PriorityMatch(input);
    if pm.Some? {
      assert PriorityTokenAt(input, pm.value.0) == Some(pm.value.1);
      LevelIsTokenDigit(input, pm.value.0);
    }
  }

  /** The assignee is empty exactly when no name pattern is accepted; the
      first accepted pattern in order supplies it, as its captured name. */
  lemma ParseAssignee(input: String, now: Clock, k: nat)
    requires ValidClock(now) && k < |NamePatterns|
    ensures Parse(input, now).assignee == [] <==>
              forall j :: 0 <= j < |NamePatterns| ==> !Accepted(NamePatterns[j], input)
    ensures Accepted(NamePatterns[k], input) && (forall j :: 0 <= j < k ==> !Accepted(NamePatterns[j], input)) ==>
              Parse(input, now).assignee == Slice(input, MatchName(NamePatterns[k], input).value.capture)
  {
    var nk := FirstAccepted(input, 0);
    if nk.Some? {
      var m := MatchName(NamePatterns[nk.value], input).value;
      assert |Slice(input, m.capture)| > 0;
    }
  }

  /** A due date is set exactly when some date pattern matched; a clock
      reading alone sets none. */
  lemma ParseDueDateIffDateMatched(input: String, now: Clock)
    requires ValidClock(now)
    ensures Parse(input, now).dueDate.Some? <==>
              exists j :: 0 <= j < |DatePatterns| && MatchDate(DatePatterns[j], input).Some?
  {
    var dk := FirstDate(input, 0);
    if dk.Some? {
      assert MatchDate(DatePatterns[dk.value], input).Some?;
    }
  }

  /** With the first matching date pattern k, the due date is that
      pattern's date at midnight when no clock reading matched, and, when
      one did, the same day at the reading's hour and minute, with seconds
      and milliseconds zero. */
  lemma ParseDueDateTime(input: String, now: Clock, k: nat)
    requires ValidClock(now) && k < |DatePatterns|
    requires MatchDate(DatePatterns[k], input).Some?
    requires forall j :: 0 <= j < k ==> MatchDate(DatePatterns[j], input).None?
    ensures var day := Resolve(now, MatchDate(DatePatterns[k], input).value.1);
      var due := Parse(input, now).dueDate;
      var tm := FindTime(input, true);
      due.Some?
      && (tm.None? ==> due.value == day && due.value % MsPerDay == 0)
      && (tm.Some? && ReadTime(input, tm.value).0 < 24 && ReadTime(input, tm.value).1 < 60 ==>
            DayOf(due.value) == DayOf(day)
            && HourOf(due.value) == ReadTime(input, tm.value).0
            && MinuteOf(due.value) == ReadTime(input, tm.value).1
            && due.value % MsPerMinute == 0)
  {
    assert FirstDate(input, 0) == Some(k);
  }

  /** The text each stage takes out of the title: what its pattern
      matched in the input, or nothing when it matched nothing. */
  function PriorityText(input: String): (r: String)
    ensures PriorityMatch(input).None? <==> r == []
    ensures PriorityMatch(input).Some? ==> Contains(input, r)
  {
    var pm := PriorityMatch(input);
    if pm.Some? then
      ContainsAt(input, pm.value.0, input[pm.value.0..pm.value.1]);
      input[pm.value.0..pm.value.1]
    else []
  }

  function NameText(input: String): (r: String)
    ensures NameOf(input).None? <==> r == []
    ensures NameOf(input).Some? ==> Contains(input, r)
  {
    var name := NameOf(input);
    if name.Some? then
      assert LiteralAt(input, name.value.whole.lo, Slice(input, name.value.whole));
      ContainsAt(input, name.value.whole.lo, Slice(input, name.value.whole));
      Slice(input, name.value.whole)
    else []
  }

  function ClockText(input: String): (r: String)
    ensures FindTime(input, true).None? ==> r == []
    ensures FindTime(input, true).Some? ==> r != [] && Contains(input, r)
  {
    var tm := FindTime(input, true);
    if tm.Some? then
      assert LiteralAt(input, tm.value.whole.lo, Slice(input, tm.value.whole));
      ContainsAt(input, tm.value.whole.lo, Slice(input, tm.value.whole));
      Slice(input, tm.value.whole)
    else []
  }

  function DateText(input: String): (r: String)
    ensures DateOf(input).None? ==> r == []
    ensures DateOf(input).Some? ==> Contains(input, r)
  {
    var dm := DateOf(input);
    if dm.Some? then
      assert LiteralAt(input, dm.value.0.lo, Slice(input, dm.value.0));
      ContainsAt(input, dm.value.0.lo, Slice(input, dm.value.0));
      Slice(input, dm.value.0)
    else []
  }

  /** The title before cleanup is the trimmed input with the priority
      token, the name phrase, the clock reading and the date expression
      each removed, in that order, where it first occurs in what is left. */
  lemma TitleStages(input: String)
    ensures TitleBeforeCleanup(input) ==
      Strip(Strip(Strip(Strip(Trim(input), PriorityText(input)), NameText(input)), ClockText(input)),
            DateText(input))
  {
    StripRemovesFirst(Trim(input), []);
    StripRemovesFirst(TitleAfterPriority(input), []);
    StripRemovesFirst(TitleAfterName(input), []);
    StripRemovesFirst(TitleAfterTime(input), []);
  }

  /** The returned title is the cleaned-up remainder of the input once the
      four matched texts are removed; when nothing is left it is the input
      itself, and otherwise it is trimmed and its whitespace is single
      spaces. */
  lemma ParseTitle(input: String, now: Clock)
    requires ValidClock(now)
    ensures var c := CleanTitle(Strip(Strip(Strip(Strip(Trim(input), PriorityText(input)),
                                   NameText(input)), ClockText(input)), DateText(input)));
      var t := Parse(input, now).title;
      (c == [] ==> t == input)
      && (c != [] ==> t == c && IsTrimmed(t) && NoSpaceRuns(t)
                      && forall i :: 0 <= i < |t| && IsSpace(t[i]) ==> t[i] == ' ')
  {
    TitleStages(input);
  }

  /** Stripping is idempotent: parsing again a title that is already clean
      and holds no priority token, name phrase, clock reading, date
      expression or trailing connective gives that title back. */
  lemma ReparseKeepsTitle(c: String, now: Clock)
    requires ValidClock(now)
    requires c != [] && IsTrimmed(c) && NoSpaceRuns(c)
    requires forall i :: 0 <= i < |c| && IsSpace(c[i]) ==> c[i] == ' '
    requires PriorityText(c) == [] && NameText(c) == [] && ClockText(c) == [] && DateText(c) == []
    requires forall i :: 0 <= i <= |c| ==> TrailingWordAt(c, i).None?
    ensures Parse(c, now).title == c
  {
    ParseTitle(c, now);
    TrimOfTrimmed(c);
    StripRemovesFirst(c, []);
    assert DropTrailingWord(c) == c;
    TidyOfTidy(c);
  }
}
