/** `parseMeetingMinutes`: a transcript is cut into sentences, and each
    sentence is tried against three task patterns in order; the first whose
    cleaned-up title is usable gives one task. A phrase introduced by `by`
    is read as the due date by `parseDateFromText`, and the sentence's
    priority words set the priority. Every regular expression is written
    out as a matcher that tries its alternatives in the order the regex
    engine does. */
module MeetingParser {
  import opened Options
  import opened Text
  import opened Calendar
  import opened Tasks
  import opened DueDates
  import opened MeetingDates

  // ---------------------------------------------------------------------
  // Sentences: transcript.split(/[.!?]+/).filter(s => s.trim().length > 0)

  predicate NotSentenceEnd(c: char) { !IsSentenceEnd(c) }

  predicate NoSentenceEnd(s: String) {
    forall k :: 0 <= k < |s| ==> !IsSentenceEnd(s[k])
  }

  /** The pieces between the maximal runs of `.`, `!` and `?`; a run at
      either end leaves an empty piece there, as `split` does. */
  function SplitSentences(s: String): (r: seq<String>)
    ensures |r| >= 1
    ensures forall k :: 0 <= k < |r| ==> NoSentenceEnd(r[k])
    decreases |s|
  {
    var j := RunEnd(s, 0, NotSentenceEnd);
    if j == |s| then [s]
    else [s[..j]] + SplitSentences(s[RunEnd(s, j, IsSentenceEnd)..])
  }

  /** The characters of s that are not sentence punctuation, in order. */
  function WithoutSentenceEnds(s: String): (r: String)
    ensures NoSentenceEnd(r)
    decreases |s|
  {
    if s == [] then []
    else (if IsSentenceEnd(s[0]) then [] else [s[0]]) + WithoutSentenceEnds(s[1..])
  }

  function Concat(ps: seq<String>): String {
    if ps == [] then [] else ps[0] + Concat(ps[1..])
  }

  /** Text without punctuation passes through unchanged. */
  lemma {:induction false} WithoutSentenceEndsPrefix(s: String, j: nat)
    requires j <= |s| && forall k :: 0 <= k < j ==> !IsSentenceEnd(s[k])
    ensures WithoutSentenceEnds(s) == s[..j] + WithoutSentenceEnds(s[j..])
    decreases j
  {
    if j > 0 {
      WithoutSentenceEndsPrefix(s[1..], j - 1);
      assert s[1..][..j - 1] == s[1..j];
      assert s[1..][j - 1..] == s[j..];
      assert s[..j] == [s[0]] + s[1..j];
    }
  }

  /** A run of punctuation disappears. */
  lemma {:induction false} WithoutSentenceEndsRun(s: String, j: nat, e: nat)
    requires j <= e <= |s| && forall k :: j <= k < e ==> IsSentenceEnd(s[k])
    ensures WithoutSentenceEnds(s[j..]) == WithoutSentenceEnds(s[e..])
    decreases e - j
  {
    if j < e {
      assert s[j..][1..] == s[j + 1..];
      WithoutSentenceEndsRun(s, j + 1, e);
    }
  }

  lemma ConcatCons(a: String, qs: seq<String>)
    ensures Concat([a] + qs) == a + Concat(qs)
  {
    assert ([a] + qs)[1..] == qs;
  }

  /** The pieces, put back together, are the transcript without its
      sentence punctuation: splitting loses nothing else. */
  lemma {:induction false} SplitSentencesLosesOnlyPunctuation(s: String)
    ensures Concat(SplitSentences(s)) == WithoutSentenceEnds(s)
    decreases |s|
  {
    var j := RunEnd(s, 0, NotSentenceEnd);
    if j == |s| {
      WithoutSentenceEndsPrefix(s, j);
      ConcatCons(s, []);
    } else {
      var e := RunEnd(s, j, IsSentenceEnd);
      SplitSentencesLosesOnlyPunctuation(s[e..]);
      WithoutSentenceEndsPrefix(s, j);
      WithoutSentenceEndsRun(s, j, e);
      ConcatCons(s[..j], SplitSentences(s[e..]));
    }
  }

  /** The punctuation runs `split` cuts at, in order: one between each
      two consecutive pieces. */
  function Separators(s: String): (r: seq<String>)
    ensures forall k :: 0 <= k < |r| ==>
              |r[k]| > 0 && forall m :: 0 <= m < |r[k]| ==> IsSentenceEnd(r[k][m])
    decreases |s|
  {
    var j := RunEnd(s, 0, NotSentenceEnd);
    if j == |s| then []
    else
      var e := RunEnd(s, j, IsSentenceEnd);
      assert forall m :: 0 <= m < e - j ==> s[j..e][m] == s[j + m];
      [s[j..e]] + Separators(s[e..])
  }

  /** The pieces with the separators put back between them. */
  function Interleave(ps: seq<String>, seps: seq<String>): String
    requires |seps| + 1 == |ps|
  {
    if seps == [] then ps[0] else ps[0] + seps[0] + Interleave(ps[1..], seps[1..])
  }

  /** Splitting is undone by joining the pieces with the runs between
      them: the pieces are exactly the text between maximal runs of
      sentence punctuation. */
  lemma {:induction false} SplitSentencesRebuilds(s: String)
    ensures |Separators(s)| + 1 == |SplitSentences(s)|
    ensures Interleave(SplitSentences(s), Separators(s)) == s
    decreases |s|
  {
    var j := RunEnd(s, 0, NotSentenceEnd);
    if j < |s| {
      var e := RunEnd(s, j, IsSentenceEnd);
      SplitSentencesRebuilds(s[e..]);
      InterleaveCons(s[..j], s[j..e], SplitSentences(s[e..]), Separators(s[e..]));
      ThreeParts(s, j, e);
    }
  }

  lemma ThreeParts(s: String, j: nat, e: nat)
    requires j <= e <= |s|
    ensures s == s[..j] + s[j..e] + s[e..]
  {
  }

  lemma InterleaveCons(p: String, sep: String, ps: seq<String>, seps: seq<String>)
    requires |seps| + 1 == |ps|
    ensures Interleave([p] + ps, [sep] + seps) == p + sep + Interleave(ps, seps)
  {
    assert ([p] + ps)[1..] == ps;
    assert ([sep] + seps)[1..] == seps;
  }

  /** The pieces whose trimmed text is not empty, in order. */
  function NonBlank(ps: seq<String>): (r: seq<String>)
    ensures |r| <= |ps|
    ensures forall k :: 0 <= k < |r| ==> Trim(r[k]) != [] && r[k] in ps
    ensures forall k :: 0 <= k < |ps| && Trim(ps[k]) != [] ==> ps[k] in r
  {
    if ps == [] then []
    else
      var rest := NonBlank(ps[1..]);
      if Trim(ps[0]) != [] then [ps[0]] + rest else rest
  }

  /** The sentences the loop visits. */
  function Sentences(transcript: String): seq<String> {
    NonBlank(SplitSentences(transcript))
  }

  // ---------------------------------------------------------------------
  // The tail every task pattern shares: (?:\s+by\s+(.+?))?(?:\.|$)

  /** `(?:\.|$)` at p: a dot, or the end of the sentence. */
  predicate EndOrDot(s: String, p: nat) {
    p == |s| || (p < |s| && s[p] == '.')
  }

  /** The lazy `.+?` whose last character is at e - 1, extended one
      character at a time until a dot or the end follows; `.` does not
      cross a line terminator. */
  function LazyLine(s: String, e: nat): (r: Option<nat>)
    requires 1 <= e <= |s|
    ensures r.Some? ==> e <= r.value <= |s| && EndOrDot(s, r.value)
    decreases |s| - e
  {
    if IsLineTerminator(s[e - 1]) then None
    else if EndOrDot(s, e) then Some(e)
    else LazyLine(s, e + 1)
  }

  /** The time capture `(.+?)` starting at c, by its end. */
  function TimeCaptureAt(s: String, c: nat): (r: Option<nat>)
    ensures r.Some? ==> c < r.value <= |s| && EndOrDot(s, r.value)
  {
    if c < |s| then LazyLine(s, c + 1) else None
  }

  /** `\s+by\s+(.+?)` followed by `(?:\.|$)` at p: the capture. The first
      `\s+` keeps every space, since `by` must follow; the second gives
      spaces back to the capture one at a time. */
  function ByTimeAt(s: String, p: nat): (r: Option<Span>)
    ensures r.Some? ==> p < r.value.lo < r.value.hi <= |s| && EndOrDot(s, r.value.hi)
  {
    match Spaces1(s, p)
    case None => None
    case Some(q) =>
      if !LiteralAtCI(s, q, "by") then None
      else
        match Spaces1(s, q + 2)
        case None => None
        case Some(e) =>
          match FindBackFrom(s, q + 2, e, TimeCaptureAt)
          case None => None
          case Some(found) => Some(Span(found.0, found.1))
  }

  /** The tail at p: the optional `by` group, tried first, then the end;
      yields the time capture when the group took part. */
  function TailAt(s: String, p: nat): (r: Option<Option<Span>>)
    ensures r.Some? && r.value.Some? ==> p < r.value.value.lo < r.value.value.hi <= |s|
  {
    match ByTimeAt(s, p)
    case Some(t) => Some(Some(t))
    case None => if EndOrDot(s, p) then Some(None) else None
  }

  predicate NoCommaIn(s: String, lo: nat, hi: nat)
    requires lo <= hi <= |s|
  {
    forall k :: lo <= k < hi ==> s[k] != ','
  }

  /** A title capture and the time capture that followed it. */
  datatype TitleTail = TitleTail(title: Span, time: Option<Span>)

  predicate ValidTitleTail(s: String, t: TitleTail) {
    t.title.lo < t.title.hi <= |s| && NoCommaIn(s, t.title.lo, t.title.hi)
    && (t.time.Some? ==> t.title.hi < t.time.value.lo < t.time.value.hi <= |s|)
  }

  /** The lazy title `([^,]+?)` begun at q and now ending at p, followed by
      the tail: the shortest comma-free title the tail accepts. */
  function LazyTitle(s: String, q: nat, p: nat): (r: Option<TitleTail>)
    requires q < p <= |s| && NoCommaIn(s, q, p - 1)
    ensures r.Some? ==> r.value.title.lo == q && p <= r.value.title.hi && ValidTitleTail(s, r.value)
    decreases |s| - p
  {
    if s[p - 1] == ',' then None
    else
      match TailAt(s, p)
      case Some(t) => Some(TitleTail(Span(q, p), t))
      case None => if p == |s| then None else LazyTitle(s, q, p + 1)
  }

  /** The title starting at q. */
  function TitleAt(s: String, q: nat): (r: Option<TitleTail>)
    ensures r.Some? ==> r.value.title.lo == q && ValidTitleTail(s, r.value)
  {
    if q < |s| then LazyTitle(s, q, q + 1) else None
  }

  /** `\s+([^,]+?)` and the tail at v: the title may begin with spaces the
      `\s+` gave back, the latest start being tried first. */
  function TitleAfterSpaces(s: String, v: nat): (r: Option<TitleTail>)
    ensures r.Some? ==> v < r.value.title.lo && ValidTitleTail(s, r.value)
  {
    match Spaces1(s, v)
    case None => None
    case Some(e) =>
      match FindBackFrom(s, v, e, TitleAt)
      case None => None
      case Some(found) => Some(found.1)
  }

  // ---------------------------------------------------------------------
  // The three task patterns

  /** The first three capture groups of a task pattern's match. */
  datatype Groups = Groups(g1: Span, g2: Span, g3: Option<Span>)

  predicate ValidGroups(s: String, g: Groups) {
    g.g1.lo < g.g1.hi <= |s| && g.g2.lo < g.g2.hi <= |s|
    && (g.g3.Some? ==> g.g3.value.lo < g.g3.value.hi <= |s|)
  }

  predicate AllWordChars(s: String) {
    forall k :: 0 <= k < |s| ==> IsWordChar(s[k])
  }

  /** `(\w+)\s+` at i: the end of the word and of the spaces. The word is
      the whole run, since a shorter one would leave a word character
      where `\s+` must begin; the spaces are all taken, since a letter
      follows them in both patterns that use this. */
  function WordThenSpaces(s: String, i: nat): (r: Option<(nat, nat)>)
    ensures r.Some? ==> i < r.value.0 < r.value.1 <= |s| && AllWordChars(s[i..r.value.0])
  {
    if i > |s| then None
    else
      var w := RunEnd(s, i, IsWordChar);
      if w == i then None
      else
        match Spaces1(s, w)
        case None => None
        case Some(e) => Some((w, e))
  }

  /** A verb followed by `\s+` and the title. */
  function VerbTitle(s: String, k: nat, verb: String): (r: Option<TitleTail>)
    ensures r.Some? ==> ValidTitleTail(s, r.value)
  {
    if LiteralAtCI(s, k, verb) then TitleAfterSpaces(s, k + |verb|) else None
  }

  const LaterVerbs: seq<String> := ["complete", "finish", "review", "prepare", "create", "update", "fix"]

  /** The first of the verbs from index n on that starts a match at k. */
  function LaterVerbTitle(s: String, k: nat, n: nat): (r: Option<TitleTail>)
    requires n <= |LaterVerbs|
    ensures r.Some? ==> ValidTitleTail(s, r.value)
    decreases |LaterVerbs| - n
  {
    if n == |LaterVerbs| then None
    else Options.OrElse(VerbTitle(s, k, LaterVerbs[n]), LaterVerbTitle(s, k, n + 1))
  }

  /** `take\s+(?:care\s+of\s+)?`: the `care of` group is tried first. */
  function TakeTitle(s: String, k: nat): (r: Option<TitleTail>)
    ensures r.Some? ==> ValidTitleTail(s, r.value)
  {
    if !LiteralAtCI(s, k, "take") then None
    else
      var careOf :=
        match Spaces1(s, k + 4)
        case None => None
        case Some(c) =>
          if !LiteralAtCI(s, c, "care") then None
          else
            match Spaces1(s, c + 4)
            case None => None
            case Some(o) => if LiteralAtCI(s, o, "of") then TitleAfterSpaces(s, o + 2) else None;
      Options.OrElse(careOf, TitleAfterSpaces(s, k + 4))
  }

  /** `work\s+on\s+`. */
  function WorkOnTitle(s: String, k: nat): (r: Option<TitleTail>)
    ensures r.Some? ==> ValidTitleTail(s, r.value)
  {
    if !LiteralAtCI(s, k, "work") then None
    else
      match Spaces1(s, k + 4)
      case None => None
      case Some(o) => if LiteralAtCI(s, o, "on") then TitleAfterSpaces(s, o + 2) else None
  }

  /** The verb alternation in the order the first pattern writes it. */
  function ActionTitle(s: String, k: nat): (r: Option<TitleTail>)
    ensures r.Some? ==> ValidTitleTail(s, r.value)
  {
    Options.OrElse(TakeTitle(s, k),
    Options.OrElse(VerbTitle(s, k, "do"),
    Options.OrElse(VerbTitle(s, k, "handle"),
    Options.OrElse(WorkOnTitle(s, k), LaterVerbTitle(s, k, 0)))))
  }

  /** `(?:please\s+)?` then the verb; the group is tried first. */
  function PleaseTitle(s: String, k: nat): (r: Option<TitleTail>)
    ensures r.Some? ==> ValidTitleTail(s, r.value)
  {
    var withPlease :=
      if LiteralAtCI(s, k, "please") then
        match Spaces1(s, k + 6)
        case None => None
        case Some(e) => ActionTitle(s, e)
      else None;
    Options.OrElse(withPlease, ActionTitle(s, k))
  }

  /** `(?:you\s+)?` then the rest; the group is tried first. */
  function YouTitle(s: String, k: nat): (r: Option<TitleTail>)
    ensures r.Some? ==> ValidTitleTail(s, r.value)
  {
    var withYou :=
      if LiteralAtCI(s, k, "you") then
        match Spaces1(s, k + 3)
        case None => None
        case Some(e) => PleaseTitle(s, e)
      else None;
    Options.OrElse(withYou, PleaseTitle(s, k))
  }

  /** `(?:needs\s+to|should|must|will)` then `\s+` and the title. */
  function ModalTitle(s: String, k: nat): (r: Option<TitleTail>)
    ensures r.Some? ==> ValidTitleTail(s, r.value)
  {
    var needsTo :=
      if LiteralAtCI(s, k, "needs") then
        match Spaces1(s, k + 5)
        case None => None
        case Some(t) => if LiteralAtCI(s, t, "to") then TitleAfterSpaces(s, t + 2) else None
      else None;
    Options.OrElse(needsTo,
    Options.OrElse(VerbTitle(s, k, "should"),
    Options.OrElse(VerbTitle(s, k, "must"), VerbTitle(s, k, "will"))))
  }

  /** The first pattern, `(\w+)\s+(?:you\s+)?(?:please\s+)?(?:VERB)([^,]+?)TAIL`,
      anchored at i. */
  function ActionAt(s: String, i: nat): (r: Option<Groups>)
    ensures r.Some? ==> ValidGroups(s, r.value) && r.value.g1.lo == i && AllWordChars(Slice(s, r.value.g1))
  {
    match WordThenSpaces(s, i)
    case None => None
    case Some(ws) =>
      match YouTitle(s, ws.1)
      case None => None
      case Some(t) => Some(Groups(Span(i, ws.0), t.title, t.time))
  }

  /** The second pattern, `(\w+)\s+(?:needs\s+to|should|must|will)\s+([^,]+?)TAIL`,
      anchored at i. */
  function ModalAt(s: String, i: nat): (r: Option<Groups>)
    ensures r.Some? ==> ValidGroups(s, r.value) && r.value.g1.lo == i && AllWordChars(Slice(s, r.value.g1))
  {
    match WordThenSpaces(s, i)
    case None => None
    case Some(ws) =>
      match ModalTitle(s, ws.1)
      case None => None
      case Some(t) => Some(Groups(Span(i, ws.0), t.title, t.time))
  }

  /** A title, the name after it and the time capture. */
  datatype AssignTail = AssignTail(title: Span, name: Span, time: Option<Span>)

  predicate ValidAssignTail(s: String, a: AssignTail) {
    a.title.lo < a.title.hi < a.name.lo < a.name.hi <= |s|
    && AllWordChars(s[a.name.lo..a.name.hi])
    && (a.time.Some? ==> a.time.value.lo < a.time.value.hi <= |s|)
  }

  /** `\s+to\s+(\w+)` and the tail at p. Both `\s+` keep every space (a
      letter follows each), and the name is the whole word, since neither
      `\s`, a dot nor the end can follow a shorter one. */
  function ToNameAt(s: String, p: nat): (r: Option<(Span, Option<Span>)>)
    ensures r.Some? ==> p < r.value.0.lo < r.value.0.hi <= |s| && AllWordChars(s[r.value.0.lo..r.value.0.hi])
    ensures r.Some? && r.value.1.Some? ==> r.value.1.value.lo < r.value.1.value.hi <= |s|
  {
    match Spaces1(s, p)
    case None => None
    case Some(q) =>
      if !LiteralAtCI(s, q, "to") then None
      else
        match Spaces1(s, q + 2)
        case None => None
        case Some(n) =>
          var w := RunEnd(s, n, IsWordChar);
          if w == n then None
          else
            match TailAt(s, w)
            case None => None
            case Some(t) => Some((Span(n, w), t))
  }

  /** The lazy title of the third pattern, begun at q and now ending at p. */
  function LazyAssignTitle(s: String, q: nat, p: nat): (r: Option<AssignTail>)
    requires q < p <= |s|
    ensures r.Some? ==> r.value.title.lo == q && ValidAssignTail(s, r.value)
    decreases |s| - p
  {
    if s[p - 1] == ',' then None
    else
      match ToNameAt(s, p)
      case Some(nt) => Some(AssignTail(Span(q, p), nt.0, nt.1))
      case None => if p == |s| then None else LazyAssignTitle(s, q, p + 1)
  }

  function AssignTitleAt(s: String, q: nat): (r: Option<AssignTail>)
    ensures r.Some? ==> r.value.title.lo == q && ValidAssignTail(s, r.value)
  {
    if q < |s| then LazyAssignTitle(s, q, q + 1) else None
  }

  /** After `assign` or `give`: `\s+`, which may give spaces back to the
      title, then the title, the name and the tail. */
  function AssignAfter(s: String, v: nat): (r: Option<AssignTail>)
    ensures r.Some? ==> ValidAssignTail(s, r.value)
  {
    match Spaces1(s, v)
    case None => None
    case Some(e) =>
      match FindBackFrom(s, v, e, AssignTitleAt)
      case None => None
      case Some(found) => Some(found.1)
  }

  /** The third pattern, `(?:assign|give)\s+([^,]+?)\s+to\s+(\w+)TAIL`,
      anchored at i; it asks for no word boundary. Group 1 is the title
      and group 2 the name. */
  function AssignAt(s: String, i: nat): (r: Option<Groups>)
    ensures r.Some? ==> ValidGroups(s, r.value) && AllWordChars(Slice(s, r.value.g2))
  {
    var viaAssign := if LiteralAtCI(s, i, "assign") then AssignAfter(s, i + 6) else None;
    var viaGive := if LiteralAtCI(s, i, "give") then AssignAfter(s, i + 4) else None;
    match Options.OrElse(viaAssign, viaGive)
    case None => None
    case Some(a) => Some(Groups(a.title, a.name, a.time))
  }

  datatype TaskPattern = ActionPattern | ModalPattern | AssignPattern

  const TaskPatterns: seq<TaskPattern> := [ActionPattern, ModalPattern, AssignPattern]

  function TaskPatternAt(p: TaskPattern, s: String, i: nat): (r: Option<Groups>)
    ensures r.Some? ==> ValidGroups(s, r.value)
  {
    match p
    case ActionPattern => ActionAt(s, i)
    case ModalPattern => ModalAt(s, i)
    case AssignPattern => AssignAt(s, i)
  }

  /** `cleanSentence.match(pattern)`: the leftmost match's groups. */
  function MatchTask(p: TaskPattern, s: String): (r: Option<Groups>)
    ensures r.Some? ==> ValidGroups(s, r.value)
  {
    match FindFrom(s, 0, (t: String, i: nat) => TaskPatternAt(p, t, i))
    case None => None
    case Some(found) => Some(found.1)
  }

  /** The assignee's and the title's groups: the third pattern has them the
      other way round. */
  function AssigneeGroup(p: TaskPattern, g: Groups): Span {
    if p == AssignPattern then g.g2 else g.g1
  }

  function TitleGroup(p: TaskPattern, g: Groups): Span {
    if p == AssignPattern then g.g1 else g.g2
  }

  /** The assignee group is a word in every pattern. */
  lemma AssigneeIsWord(p: TaskPattern, s: String)
    requires MatchTask(p, s).Some?
    ensures var g := MatchTask(p, s).value;
      Slice(s, AssigneeGroup(p, g)) != [] && AllWordChars(Slice(s, AssigneeGroup(p, g)))
  {
    var found := FindFrom(s, 0, (t: String, i: nat) => TaskPatternAt(p, t, i)).value;
    assert TaskPatternAt(p, s, found.0) == Some(found.1);
  }

  // ---------------------------------------------------------------------
  // Title cleanup

  /** The alternatives of `replace(/^(the\s+|a\s+|an\s+)/i, '')`. */
  const Articles: seq<String> := ["the", "a", "an"]

  /** Article w, in any case, starts t and whitespace follows it. */
  predicate ArticleThenSpace(t: String, w: String) {
    LiteralAtCI(t, 0, w) && |w| < |t| && IsSpace(t[|w|])
  }

  /** Where the leading article and the whitespace after it end: 0 when t
      does not start with one; otherwise past an article, ignoring case,
      and all of the whitespace run after it. */
  function ArticleEnd(t: String): (n: nat)
    ensures n <= |t|
    ensures n == 0 <==> forall w :: w in Articles ==> !ArticleThenSpace(t, w)
    ensures n > 0 ==>
      (n == |t| || !IsSpace(t[n]))
      && exists w :: w in Articles && LiteralAtCI(t, 0, w) && |w| < n
                     && forall k :: |w| <= k < n ==> IsSpace(t[k])
  {
    if LiteralAtCI(t, 0, "the") && Spaces1(t, 3).Some? then
      assert Articles[0] == "the" && ArticleThenSpace(t, Articles[0]);
      Spaces1(t, 3).value
    else if LiteralAtCI(t, 0, "a") && Spaces1(t, 1).Some? then
      assert Articles[1] == "a" && ArticleThenSpace(t, Articles[1]);
      Spaces1(t, 1).value
    else if LiteralAtCI(t, 0, "an") && Spaces1(t, 2).Some? then
      assert Articles[2] == "an" && ArticleThenSpace(t, Articles[2]);
      Spaces1(t, 2).value
    else 0
  }

  /** The article dropped, whitespace runs collapsed, trimmed. */
  function CleanTaskTitle(t: String): (r: String)
    ensures IsTrimmed(r) && NoSpaceRuns(r)
    ensures forall i :: 0 <= i < |r| && IsSpace(r[i]) ==> r[i] == ' '
    ensures NonSpace(r) == NonSpace(t[ArticleEnd(t)..])
  {
    Tidy(t[ArticleEnd(t)..])
  }

  /** The titles `/^(it|this|that|you|me|us)$/i` refuses. */
  const TrivialTitles: seq<String> := ["it", "this", "that", "you", "me", "us"]

  /** A title the loop keeps: three characters or more, and not only a
      pronoun. */
  predicate Usable(title: String) {
    |title| >= 3 && ToLower(title) !in TrivialTitles
  }

  // ---------------------------------------------------------------------
  // extractPriority: /\b(P[1-4]|priority\s+[1-4]|urgent|high\s+priority|critical)\b/i

  /** Which alternative of the priority regex matched. */
  datatype PriorityWord =
    | LevelWord(digit: char)
    | NumberedWord(digit: char)
    | UrgentWord
    | HighPriorityWord
    | CriticalWord

  /** The text [i, e) is a token of kind w. */
  predicate WordShape(s: String, i: nat, e: nat, w: PriorityWord) {
    i < e <= |s| &&
    match w
    case LevelWord(d) => e == i + 2 && LowerChar(s[i]) == 'p' && s[i + 1] == d && IsLevelDigit(d)
    case NumberedWord(d) =>
      i + 8 < e - 1 && LiteralAtCI(s, i, "priority") && s[e - 1] == d && IsLevelDigit(d)
      && forall k :: i + 8 <= k < e - 1 ==> IsSpace(s[k])
    case UrgentWord => e == i + 6 && LiteralAtCI(s, i, "urgent")
    case HighPriorityWord =>
      i + 4 < e - 8 && LiteralAtCI(s, i, "high") && LiteralAtCI(s, e - 8, "priority")
      && forall k :: i + 4 <= k < e - 8 ==> IsSpace(s[k])
    case CriticalWord => e == i + 8 && LiteralAtCI(s, i, "critical")
  }

  function LevelWordAt(s: String, i: nat): (r: Option<(nat, PriorityWord)>)
    ensures r.Some? ==> WordShape(s, i, r.value.0, r.value.1)
  {
    if i + 2 <= |s| && LowerChar(s[i]) == 'p' && IsLevelDigit(s[i + 1]) && IsBoundary(s, i + 2)
    then Some((i + 2, LevelWord(s[i + 1]))) else None
  }

  function NumberedWordAt(s: String, i: nat): (r: Option<(nat, PriorityWord)>)
    ensures r.Some? ==> WordShape(s, i, r.value.0, r.value.1)
  {
    if !LiteralAtCI(s, i, "priority") then None
    else
      match Spaces1(s, i + 8)
      case None => None
      case Some(q) =>
        if q < |s| && IsLevelDigit(s[q]) && IsBoundary(s, q + 1)
        then Some((q + 1, NumberedWord(s[q]))) else None
  }

  function HighPriorityAt(s: String, i: nat): (r: Option<(nat, PriorityWord)>)
    ensures r.Some? ==> WordShape(s, i, r.value.0, r.value.1)
  {
    if !LiteralAtCI(s, i, "high") then None
    else
      match Spaces1(s, i + 4)
      case None => None
      case Some(q) =>
        if LiteralAtCI(s, q, "priority") && IsBoundary(s, q + 8)
        then Some((q + 8, HighPriorityWord)) else None
  }

  /** A single word token, `urgent` or `critical`, ending at a boundary. */
  function BareWordAt(s: String, i: nat, word: String, w: PriorityWord): (r: Option<(nat, PriorityWord)>)
    requires (w.UrgentWord? && word == "urgent") || (w.CriticalWord? && word == "critical")
    ensures r.Some? ==> WordShape(s, i, r.value.0, r.value.1)
  {
    if LiteralAtCI(s, i, word) && IsBoundary(s, i + |word|) then Some((i + |word|, w)) else None
  }

  /** The priority token at i, alternatives in the order written. `\s+`
      keeps every space, since a digit or a letter must follow. */
  function PriorityWordAt(s: String, i: nat): (r: Option<(nat, PriorityWord)>)
    ensures r.Some? ==> WordShape(s, i, r.value.0, r.value.1)
  {
    if !IsBoundary(s, i) then None
    else
      Options.OrElse(LevelWordAt(s, i),
      Options.OrElse(NumberedWordAt(s, i),
      Options.OrElse(BareWordAt(s, i, "urgent", UrgentWord),
      Options.OrElse(HighPriorityAt(s, i), BareWordAt(s, i, "critical", CriticalWord)))))
  }

  /** The `includes` tests on the lowered token, in the order written. */
  function LevelOfWord(tok: String): Priority {
    if Contains(tok, "p1") || Contains(tok, "urgent") || Contains(tok, "critical") then P1
    else if Contains(tok, "p2") || Contains(tok, "high") then P2
    else if Contains(tok, "p4") then P4
    else P3
  }

  /** `extractPriority(text)`. */
  function ExtractPriority(text: String): Priority {
    match FindFrom(text, 0, PriorityWordAt)
    case None => P3
    case Some(found) => LevelOfWord(ToLower(text[found.0..found.1.0]))
  }

  /** The level each kind of token reads as. */
  function WordLevel(w: PriorityWord): Priority
    requires w.LevelWord? ==> IsLevelDigit(w.digit)
  {
    match w
    case LevelWord(d) => LevelOfDigit(d)
    case NumberedWord(_) => P3
    case UrgentWord => P1
    case HighPriorityWord => P2
    case CriticalWord => P1
  }

  lemma LevelWordLevel(s: String, i: nat, d: char)
    requires WordShape(s, i, i + 2, LevelWord(d))
    ensures LevelOfWord(ToLower(s[i..i + 2])) == LevelOfDigit(d)
  {
    var tok := ToLower(s[i..i + 2]);
    assert tok == ['p', d];
    ContainsSameLength(tok, "p1");
    ContainsSameLength(tok, "p2");
    ContainsSameLength(tok, "p4");
    ContainsLonger(tok, "urgent");
    ContainsLonger(tok, "critical");
    ContainsLonger(tok, "high");
  }

  /** Lower-casing keeps a literal that matched ignoring case. */
  lemma LoweredToken(s: String, i: nat, e: nat, k: nat, lit: String)
    requires i <= k && k + |lit| <= e <= |s| && LiteralAtCI(s, k, lit)
    ensures ToLower(s[i..e])[k - i..k - i + |lit|] == lit
  {
    var tok := ToLower(s[i..e]);
    forall n | 0 <= n < |lit| ensures tok[k - i + n] == lit[n] {
      assert tok[k - i + n] == LowerChar(s[k + n]);
      assert ToLower(s[k..k + |lit|])[n] == LowerChar(s[k + n]);
    }
  }

  /** Lower-casing keeps a run of spaces. */
  lemma LoweredSpaces(s: String, i: nat, e: nat, a: nat, b: nat)
    requires i <= a <= b <= e <= |s| && forall k :: a <= k < b ==> IsSpace(s[k])
    ensures forall k :: a - i <= k < b - i ==> IsSpace(ToLower(s[i..e])[k])
  {
    forall k | a - i <= k < b - i ensures IsSpace(ToLower(s[i..e])[k]) {
      assert ToLower(s[i..e])[k] == LowerChar(s[i + k]);
    }
  }

  /** A pattern is not contained where one of its characters is missing. */
  lemma MissingChar(s: String, pat: String, k: nat)
    requires k < |pat| && pat[k] !in s
    ensures !Contains(s, pat)
  {
    ContainedCharsOccur(s, pat);
  }

  /** A pair is not contained where its characters are never adjacent. */
  lemma MissingPair(s: String, a: char, b: char)
    requires forall k :: 0 <= k < |s| - 1 && s[k] == a ==> s[k + 1] != b
    ensures !Contains(s, [a, b])
  {
    ContainsPair(s, a, b);
  }

  /** A string made of `priority`, spaces and a digit: the token
      `priority N`. */
  lemma NumberedToken(tok: String, d: char)
    requires |tok| > 9 && tok[..8] == "priority" && IsDigit(tok[|tok| - 1]) && tok[|tok| - 1] == d
    requires forall k :: 8 <= k < |tok| - 1 ==> IsSpace(tok[k])
    ensures LevelOfWord(tok) == P3
  {
    assert forall k :: 0 <= k < |tok| ==> tok[k] != 'u' && tok[k] != 'c' && tok[k] != 'h' by {
      forall k | 0 <= k < |tok| ensures tok[k] != 'u' && tok[k] != 'c' && tok[k] != 'h' {
        if k < 8 { assert tok[k] == tok[..8][k]; }
      }
    }
    assert forall k :: 1 <= k < |tok| ==> tok[k] != 'p' by {
      forall k | 1 <= k < |tok| ensures tok[k] != 'p' {
        if k < 8 { assert tok[k] == tok[..8][k]; }
      }
    }
    assert tok[1] == tok[..8][1];
    MissingChar(tok, "urgent", 0);
    MissingChar(tok, "critical", 0);
    MissingChar(tok, "high", 0);
    MissingPair(tok, 'p', '1');
    MissingPair(tok, 'p', '2');
    MissingPair(tok, 'p', '4');
    assert "p1" == ['p', '1'] && "p2" == ['p', '2'] && "p4" == ['p', '4'];
  }

  lemma NumberedWordLevel(s: String, i: nat, e: nat, d: char)
    requires WordShape(s, i, e, NumberedWord(d))
    ensures LevelOfWord(ToLower(s[i..e])) == P3
  {
    var tok := ToLower(s[i..e]);
    LoweredToken(s, i, e, i, "priority");
    LoweredSpaces(s, i, e, i + 8, e - 1);
    assert tok[|tok| - 1] == LowerChar(s[e - 1]);
    NumberedToken(tok, d);
  }

  /** A string made of `high`, spaces and `priority`. */
  lemma HighPriorityToken(tok: String)
    requires |tok| > 12 && tok[..4] == "high" && tok[|tok| - 8..] == "priority"
    requires forall k :: 4 <= k < |tok| - 8 ==> IsSpace(tok[k])
    ensures LevelOfWord(tok) == P2
  {
    assert forall k :: 0 <= k < |tok| ==> tok[k] != '1' && tok[k] != 'u' && tok[k] != 'c' by {
      forall k | 0 <= k < |tok| ensures tok[k] != '1' && tok[k] != 'u' && tok[k] != 'c' {
        if k < 4 { assert tok[k] == tok[..4][k]; }
        else if k >= |tok| - 8 { assert tok[k] == tok[|tok| - 8..][k - (|tok| - 8)]; }
      }
    }
    MissingChar(tok, "p1", 1);
    MissingChar(tok, "urgent", 0);
    MissingChar(tok, "critical", 0);
    ContainsAt(tok, 0, "high");
  }

  lemma HighPriorityWordLevel(s: String, i: nat, e: nat)
    requires WordShape(s, i, e, HighPriorityWord)
    ensures LevelOfWord(ToLower(s[i..e])) == P2
  {
    var tok := ToLower(s[i..e]);
    LoweredToken(s, i, e, i, "high");
    LoweredToken(s, i, e, e - 8, "priority");
    LoweredSpaces(s, i, e, i + 4, e - 8);
    HighPriorityToken(tok);
  }

  /** The tested level is the one the token's kind names: `P1`..`P4` by
      their digit, `urgent` and `critical` P1, `high priority` P2, and
      `priority N` P3 whatever N is, since none of the tests looks for a
      bare digit. */
  lemma {:induction false} WordLevelOfShape(s: String, i: nat, e: nat, w: PriorityWord)
    requires WordShape(s, i, e, w)
    ensures LevelOfWord(ToLower(s[i..e])) == WordLevel(w)
  {
    match w
    case LevelWord(d) => LevelWordLevel(s, i, d);
    case NumberedWord(d) => NumberedWordLevel(s, i, e, d);
    case UrgentWord =>
      LoweredToken(s, i, e, i, "urgent");
      ContainsAt(ToLower(s[i..e]), 0, "urgent");
    case HighPriorityWord => HighPriorityWordLevel(s, i, e);
    case CriticalWord =>
      LoweredToken(s, i, e, i, "critical");
      ContainsAt(ToLower(s[i..e]), 0, "critical");
  }

  /** The priority is P3 without a token, and otherwise the level its kind
      names. */
  lemma {:induction false} ExtractPriorityByWord(text: String)
    ensures match FindFrom(text, 0, PriorityWordAt)
      case None => ExtractPriority(text) == P3
      case Some(found) => ExtractPriority(text) == WordLevel(found.1.1)
  {
    match FindFrom(text, 0, PriorityWordAt)
    case None =>
    case Some(found) =>
      assert PriorityWordAt(text, found.0) == Some(found.1);
      WordLevelOfShape(text, found.0, found.1.0, found.1.1);
  }

  // ---------------------------------------------------------------------
  // parseMeetingMinutes

  /** The task a match with groups g of pattern p gives for the trimmed
      sentence s: none when the cleaned title is not usable. The due date
      is read from the `by` phrase when there is one. */
  function TaskFromGroups(p: TaskPattern, s: String, g: Groups, now: Clock): (r: Option<ParsedTask>)
    requires ValidClock(now) && ValidGroups(s, g)
  {
    var title := CleanTaskTitle(Slice(s, TitleGroup(p, g)));
    if !Usable(title) then None
    else
      var dueDate := if g.g3.Some? && Slice(s, g.g3.value) != [] then DateFromText(Trim(Slice(s, g.g3.value)), now) else None;
      Some(ParsedTask(title, Slice(s, AssigneeGroup(p, g)), dueDate, ExtractPriority(s)))
  }

  /** The task pattern p gives for the trimmed sentence s, if any. */
  function PatternTask(p: TaskPattern, s: String, now: Clock): (r: Option<ParsedTask>)
    requires ValidClock(now)
  {
    var g := MatchTask(p, s);
    if g.Some? then TaskFromGroups(p, s, g.value, now) else None
  }

  /** What each pattern, in order, gives for the trimmed sentence s. */
  function Candidates(s: String, now: Clock): (r: seq<Option<ParsedTask>>)
    requires ValidClock(now)
    ensures |r| == |TaskPatterns|
  {
    seq(|TaskPatterns|, j requires 0 <= j < |TaskPatterns| => PatternTask(TaskPatterns[j], s, now))
  }

  /** The task a sentence gives, if any: the patterns see it trimmed. */
  function SentenceTask(sentence: String, now: Clock): Option<ParsedTask>
    requires ValidClock(now)
  {
    var cands := Candidates(Trim(sentence), now);
    var k := FirstSome(cands, 0);
    if k.Some? then cands[k.value] else None
  }

  /** The tasks of the sentences, in their order, one for each sentence
      that gives one. */
  function TasksOf(sentences: seq<String>, now: Clock): (r: seq<ParsedTask>)
    requires ValidClock(now)
    ensures |r| <= |sentences|
  {
    if sentences == [] then []
    else
      var last := SentenceTask(sentences[|sentences| - 1], now);
      TasksOf(sentences[..|sentences| - 1], now) + (if last.Some? then [last.value] else [])
  }

  /** `parseMeetingMinutes(transcript)` with the clock reading `now`. */
  function MeetingTasks(transcript: String, now: Clock): seq<ParsedTask>
    requires ValidClock(now)
  {
    TasksOf(Sentences(transcript), now)
  }

  lemma TasksOfPrefix(sentences: seq<String>, n: nat, now: Clock)
    requires ValidClock(now) && n < |sentences|
    ensures var t := SentenceTask(sentences[n], now);
      TasksOf(sentences[..n + 1], now) == TasksOf(sentences[..n], now) + (if t.Some? then [t.value] else [])
  {
    assert sentences[..n + 1][..n] == sentences[..n];
  }

  /** The sentence-to-task function for the clock reading `now`. */
  function SentenceTaskFn(now: Clock): String -> Option<ParsedTask>
    requires ValidClock(now)
  {
    s => SentenceTask(s, now)
  }

  /** The tasks are what the sentence-to-task function collects. */
  lemma {:induction false} TasksOfCollects(sentences: seq<String>, now: Clock)
    requires ValidClock(now)
    ensures TasksOf(sentences, now) == Collect(sentences, SentenceTaskFn(now))
    decreases |sentences|
  {
    if sentences != [] {
      TasksOfCollects(sentences[..|sentences| - 1], now);
    }
  }

  /** The loop of `parseMeetingMinutes` over the non-blank sentences,
      each adding the task its pattern loop found, if any. */
  method ParseMeetingMinutes(transcript: String, now: Clock) returns (tasks: seq<ParsedTask>)
    requires ValidClock(now)
    ensures tasks == MeetingTasks(transcript, now)
  {
    tasks := [];
    var sentences := Sentences(transcript);
    for n := 0 to |sentences|
      invariant tasks == TasksOf(sentences[..n], now)
    {
      TasksOfPrefix(sentences, n, now);
      var task := ReadSentence(sentences[n], now);
      if task.Some? {
        tasks := tasks + [task.value];
      }
    }
    assert sentences[..|sentences|] == sentences;
  }

  /** The pattern loop for one sentence: the patterns in order, a match
      whose title is not usable skipped, the first task kept. */
  method ReadSentence(sentence: String, now: Clock) returns (task: Option<ParsedTask>)
    requires ValidClock(now)
    ensures task == SentenceTask(sentence, now)
  {
    var cleanSentence := Trim(sentence);
    ghost var cands := Candidates(cleanSentence, now);
    for k := 0 to |TaskPatterns|
      invariant FirstSome(cands, k) == FirstSome(cands, 0)
    {
      var m := MatchTask(TaskPatterns[k], cleanSentence);
      if m.Some? {
        task := SentenceTaskFrom(TaskPatterns[k], cleanSentence, m.value, now);
        assert task == cands[k];
        if task.None? {
          continue;
        }
        assert FirstSome(cands, 0) == Some(k);
        return;
      }
    }
    return None;
  }

  /** The body of the pattern loop once pattern p matched with groups g:
      the swap for the third pattern, the title cleanup, the usability
      test, the due date and the priority. */
  method SentenceTaskFrom(p: TaskPattern, s: String, g: Groups, now: Clock) returns (task: Option<ParsedTask>)
    requires ValidClock(now) && ValidGroups(s, g)
    ensures task == TaskFromGroups(p, s, g, now)
  {
    var assignee := Slice(s, g.g1);
    var taskTitle := Slice(s, g.g2);
    var timeStr := g.g3;
    if p == AssignPattern {
      assignee := Slice(s, g.g2);
      taskTitle := Slice(s, g.g1);
    }
    taskTitle := CleanTaskTitle(taskTitle);
    if |taskTitle| < 3 || ToLower(taskTitle) in TrivialTitles {
      return None;
    }
    var dueDate := None;
    if timeStr.Some? && Slice(s, timeStr.value) != [] {
      dueDate := ParseDateFromText(Trim(Slice(s, timeStr.value)), now);
    }
    var priority := ExtractPriority(s);
    return Some(ParsedTask(taskTitle, assignee, dueDate, priority));
  }

  // ---------------------------------------------------------------------
  // Properties of the meeting parse

  /** Every sentence the loop visits is free of sentence punctuation and
      not blank. */
  lemma SentencesShape(transcript: String)
    ensures forall k :: 0 <= k < |Sentences(transcript)| ==>
              NoSentenceEnd(Sentences(transcript)[k]) && Trim(Sentences(transcript)[k]) != []
  {
    var ps := SplitSentences(transcript);
    forall k | 0 <= k < |Sentences(transcript)|
      ensures NoSentenceEnd(Sentences(transcript)[k])
    {
      var j :| 0 <= j < |ps| && ps[j] == Sentences(transcript)[k];
    }
  }

  /** The meeting's tasks are those its sentences give, at most one each. */
  lemma MeetingTasksFromSentences(transcript: String, now: Clock, t: ParsedTask)
    requires ValidClock(now)
    ensures |MeetingTasks(transcript, now)| <= |Sentences(transcript)|
    ensures t in MeetingTasks(transcript, now) <==>
              exists j :: 0 <= j < |Sentences(transcript)| && SentenceTask(Sentences(transcript)[j], now) == Some(t)
  {
    TasksOfCollects(Sentences(transcript), now);
    CollectMembers(Sentences(transcript), SentenceTaskFn(now), t);
  }

  /** A sentence gives the first pattern's task that there is, in the
      order the patterns are written: none exactly when none gives one. */
  lemma SentenceTaskInOrder(sentence: String, now: Clock)
    requires ValidClock(now)
    ensures var s := Trim(sentence);
      SentenceTask(sentence, now)
        == OrElse(PatternTask(ActionPattern, s, now),
                  OrElse(PatternTask(ModalPattern, s, now), PatternTask(AssignPattern, s, now)))
  {
    var s := Trim(sentence);
    var cands := Candidates(s, now);
    FirstOfThree(cands);
    assert cands[0] == PatternTask(ActionPattern, s, now);
    assert cands[1] == PatternTask(ModalPattern, s, now);
    assert cands[2] == PatternTask(AssignPattern, s, now);
  }

  /** The first present one of three options, by index and by value. */
  lemma FirstOfThree<T>(xs: seq<Option<T>>)
    requires |xs| == 3
    ensures (var k := FirstSome(xs, 0); if k.Some? then xs[k.value] else None)
              == OrElse(xs[0], OrElse(xs[1], xs[2]))
  {
  }

  /** What a pattern's task looks like: a usable, trimmed title with
      single spaces, a one-word assignee taken from the sentence, the
      sentence's priority, and a due date only where a `by` phrase was
      captured. */
  lemma PatternTaskShape(p: TaskPattern, s: String, now: Clock)
    requires ValidClock(now)
    ensures var r := PatternTask(p, s, now);
      r.Some? ==>
        Usable(r.value.title) && IsTrimmed(r.value.title) && NoSpaceRuns(r.value.title)
        && r.value.assignee != [] && AllWordChars(r.value.assignee)
        && r.value.priority == ExtractPriority(s)
        && (r.value.dueDate.Some? ==> MatchTask(p, s).value.g3.Some?)
  {
    if MatchTask(p, s).Some? {
      AssigneeIsWord(p, s);
    }
  }

  /** Every task of a sentence has that shape, with the priority read from
      the whole trimmed sentence. */
  lemma SentenceTaskShape(sentence: String, now: Clock)
    requires ValidClock(now)
    ensures var r := SentenceTask(sentence, now);
      r.Some? ==>
        Usable(r.value.title) && IsTrimmed(r.value.title) && NoSpaceRuns(r.value.title)
        && r.value.assignee != [] && AllWordChars(r.value.assignee)
        && r.value.priority == ExtractPriority(Trim(sentence))
  {
    var s := Trim(sentence);
    var cands := Candidates(s, now);
    var f := FirstSome(cands, 0);
    if f.Some? {
      assert cands[f.value] == PatternTask(TaskPatterns[f.value], s, now);
      PatternTaskShape(TaskPatterns[f.value], s, now);
    }
  }

  /** The assign/give pattern takes its assignee from the name after `to`
      and its title from the words before it; the other two patterns take
      the name first and the title second. */
  lemma PatternTaskGroups(p: TaskPattern, s: String, now: Clock)
    requires ValidClock(now) && PatternTask(p, s, now).Some?
    ensures var g := MatchTask(p, s).value;
      var r := PatternTask(p, s, now).value;
      (p == AssignPattern ==> r.assignee == Slice(s, g.g2) && r.title == CleanTaskTitle(Slice(s, g.g1)))
      && (p != AssignPattern ==> r.assignee == Slice(s, g.g1) && r.title == CleanTaskTitle(Slice(s, g.g2)))
  {
  }
}
