/** Strings as sequences of characters, and the handful of JavaScript string
    and regular-expression primitives the parsers are built from: character
    classes (`\s`, `\d`, `\w`, `\b`), `toLowerCase`, `trim`, `indexOf`,
    `replace` of a literal, and whitespace collapsing (`replace(/\s+/g, ' ')`). */
module Text {
  import opened Options

  type String = seq<char>

  /** A half-open range [lo, hi) of positions in a string; a regex capture. */
  datatype Span = Span(lo: nat, hi: nat)

  predicate SpanIn(sp: Span, s: String) { sp.lo <= sp.hi <= |s| }

  function Slice(s: String, sp: Span): String
    requires SpanIn(sp, s)
  {
    s[sp.lo..sp.hi]
  }

  // ---------------------------------------------------------------------
  // Character classes

  /** JavaScript's `\s`: WhiteSpace and LineTerminator code points. `trim`
      removes exactly the same set. */
  predicate IsSpace(c: char) {
    var n := c as int;
    (0x09 <= n <= 0x0D) || n == 0x20 || n == 0xA0 || n == 0x1680
    || (0x2000 <= n <= 0x200A) || n == 0x2028 || n == 0x2029
    || n == 0x202F || n == 0x205F || n == 0x3000 || n == 0xFEFF
  }

  /** The characters `.` does not match in a regex without the `s` flag. */
  predicate IsLineTerminator(c: char) {
    var n := c as int;
    n == 0x0A || n == 0x0D || n == 0x2028 || n == 0x2029
  }

  predicate IsDigit(c: char) { '0' <= c <= '9' }

  predicate IsLetter(c: char) { ('a' <= c <= 'z') || ('A' <= c <= 'Z') }

  /** JavaScript's `\w`. */
  predicate IsWordChar(c: char) { IsLetter(c) || IsDigit(c) || c == '_' }

  predicate IsSentenceEnd(c: char) { c == '.' || c == '!' || c == '?' }

  /** `\b` at position i: exactly one of the characters around i is a word character. */
  predicate IsBoundary(s: String, i: nat) {
    i <= |s| && ((i > 0 && IsWordChar(s[i - 1])) != (i < |s| && IsWordChar(s[i])))
  }

  // ---------------------------------------------------------------------
  // Case

  /** ASCII lower-casing of one character. */
  function LowerChar(c: char): (r: char)
    ensures IsLetter(c) <==> IsLetter(r)
    ensures !IsLetter(c) ==> r == c
    ensures 'A' <= c <= 'Z' ==> r as int == c as int + 32
    ensures !('A' <= r <= 'Z')
  {
    if 'A' <= c <= 'Z' then (c as int + 32) as char else c
  }

  function ToLower(s: String): (r: String)
    ensures |r| == |s|
    ensures forall i :: 0 <= i < |s| ==> r[i] == LowerChar(s[i])
  {
    seq(|s|, i requires 0 <= i < |s| => LowerChar(s[i]))
  }

  /** A literal (given in lower case) occurs at position i of s. */
  predicate LiteralAt(s: String, i: nat, lit: String) {
    i + |lit| <= |s| && s[i..i + |lit|] == lit
  }

  /** The same, ignoring the case of ASCII letters: the `/i` flag. */
  predicate LiteralAtCI(s: String, i: nat, lit: String) {
    i + |lit| <= |s| && ToLower(s[i..i + |lit|]) == lit
  }

  /** A literal at i, compared exactly or, with ci, ignoring ASCII case. */
  predicate LitAt(s: String, i: nat, lit: String, ci: bool) {
    if ci then LiteralAtCI(s, i, lit) else LiteralAt(s, i, lit)
  }

  /** A regex alternation of literals `(a|b|...)` at i followed by a check
      `after` on the position where the literal ends: the index of the first
      alternative, in the order written, for which both succeed. */
  function AltFrom(s: String, i: nat, lits: seq<String>, k: nat, ci: bool,
                   after: (String, nat) -> bool): (r: Option<nat>)
    requires k <= |lits|
    ensures r.Some? ==> k <= r.value < |lits| && LitAt(s, i, lits[r.value], ci)
                        && after(s, i + |lits[r.value]|)
    ensures forall j :: k <= j < |lits| && (r.None? || j < r.value) ==>
              !(LitAt(s, i, lits[j], ci) && after(s, i + |lits[j]|))
    decreases |lits| - k
  {
    if k == |lits| then None
    else if LitAt(s, i, lits[k], ci) && after(s, i + |lits[k]|) then Some(k)
    else AltFrom(s, i, lits, k + 1, ci, after)
  }

  /** The check that accepts any position: an alternation nothing follows. */
  predicate AnyPos(s: String, j: nat) { true }

  // ---------------------------------------------------------------------
  // Runs

  /** The end of the run of characters satisfying p that starts at i: what a
      greedy `p*` consumes. */
  function RunEnd(s: String, i: nat, p: char -> bool): (j: nat)
    requires i <= |s|
    ensures i <= j <= |s|
    ensures forall k :: i <= k < j ==> p(s[k])
    ensures j == |s| || !p(s[j])
    decreases |s| - i
  {
    if i < |s| && p(s[i]) then RunEnd(s, i + 1, p) else i
  }

  /** A run is determined by where it stops: the first position from i on
      whose character fails p. */
  lemma {:induction false} RunEndUnique(s: String, i: nat, p: char -> bool, j: nat)
    requires i <= j <= |s|
    requires forall k :: i <= k < j ==> p(s[k])
    requires j == |s| || !p(s[j])
    ensures RunEnd(s, i, p) == j
    decreases j - i
  {
    if i < j {
      RunEndUnique(s, i + 1, p, j);
    }
  }

  /** What a greedy `\s+` at i consumes, if anything. */
  function Spaces1(s: String, i: nat): (r: Option<nat>)
    ensures r.Some? ==> i < r.value <= |s| && r.value == RunEnd(s, i, IsSpace)
    ensures r.None? <==> !(i < |s| && IsSpace(s[i]))
  {
    if i < |s| && IsSpace(s[i]) then Some(RunEnd(s, i, IsSpace)) else None
  }

  // ---------------------------------------------------------------------
  // trim

  function TrimStartIndex(s: String): (a: nat)
    ensures a <= |s|
    ensures forall k :: 0 <= k < a ==> IsSpace(s[k])
    ensures a == |s| || !IsSpace(s[a])
  {
    RunEnd(s, 0, IsSpace)
  }

  /** The end of s once trailing whitespace at or after a is dropped. */
  function TrimEndIndex(s: String, a: nat): (b: nat)
    requires a <= |s|
    ensures a <= b <= |s|
    ensures forall k :: b <= k < |s| ==> IsSpace(s[k])
    ensures b == a || !IsSpace(s[b - 1])
    decreases |s|
  {
    if |s| > a && IsSpace(s[|s| - 1]) then TrimEndIndex(s[..|s| - 1], a) else |s|
  }

  predicate IsTrimmed(s: String) {
    |s| == 0 || (!IsSpace(s[0]) && !IsSpace(s[|s| - 1]))
  }

  /** `String.prototype.trim`. */
  function Trim(s: String): (r: String)
    ensures IsTrimmed(r)
    ensures r == s[TrimStartIndex(s)..TrimEndIndex(s, TrimStartIndex(s))]
    ensures |r| <= |s|
    ensures (r == []) <==> (forall k :: 0 <= k < |s| ==> IsSpace(s[k]))
  {
    var a := TrimStartIndex(s);
    var b := TrimEndIndex(s, a);
    assert (forall k :: 0 <= k < |s| ==> IsSpace(s[k])) ==> a == |s|;
    s[a..b]
  }

  lemma TrimOfTrimmed(s: String)
    requires IsTrimmed(s)
    ensures Trim(s) == s
  {
    if |s| > 0 {
      assert TrimStartIndex(s) == 0;
      assert TrimEndIndex(s, 0) == |s|;
    }
  }

  // ---------------------------------------------------------------------
  // replace(/\s+/g, ' ')

  /** No two adjacent whitespace characters. */
  predicate NoSpaceRuns(s: String) {
    forall i :: 0 <= i < |s| - 1 ==> !(IsSpace(s[i]) && IsSpace(s[i + 1]))
  }

  /** Every maximal run of whitespace replaced by one space. */
  function CollapseSpaces(s: String): (r: String)
    ensures NoSpaceRuns(r)
    ensures |r| <= |s|
    ensures (r == []) <==> (s == [])
    ensures r != [] ==> (IsSpace(r[0]) <==> IsSpace(s[0]))
    ensures r != [] ==> (IsSpace(r[|r| - 1]) <==> IsSpace(s[|s| - 1]))
    ensures forall i :: 0 <= i < |r| && IsSpace(r[i]) ==> r[i] == ' '
    decreases |s|
  {
    if s == [] then []
    else if IsSpace(s[0]) then
      var j := RunEnd(s, 0, IsSpace);
      var rest := CollapseSpaces(s[j..]);
      assert rest != [] ==> !IsSpace(rest[0]);
      [' '] + rest
    else
      [s[0]] + CollapseSpaces(s[1..])
  }

  lemma NoSpaceRunsSlice(s: String, a: nat, b: nat)
    requires a <= b <= |s|
    requires NoSpaceRuns(s)
    ensures NoSpaceRuns(s[a..b])
  {
    forall i | 0 <= i < b - a - 1
      ensures !(IsSpace(s[a..b][i]) && IsSpace(s[a..b][i + 1]))
    {
      assert s[a..b][i] == s[a + i] && s[a..b][i + 1] == s[a + i + 1];
    }
  }

  /** The characters of s that are not whitespace, in their order. */
  function NonSpace(s: String): (r: String)
    ensures |r| <= |s|
    ensures forall k :: 0 <= k < |r| ==> !IsSpace(r[k])
    decreases |s|
  {
    if s == [] then []
    else (if IsSpace(s[0]) then [] else [s[0]]) + NonSpace(s[1..])
  }

  lemma NonSpaceCons(c: char, x: String)
    ensures NonSpace([c] + x) == (if IsSpace(c) then [] else [c]) + NonSpace(x)
  {
    assert ([c] + x)[1..] == x;
  }

  lemma {:induction false} NonSpaceConcat(a: String, b: String)
    ensures NonSpace(a + b) == NonSpace(a) + NonSpace(b)
    decreases |a|
  {
    if a != [] {
      var h := if IsSpace(a[0]) then [] else [a[0]];
      assert a + b == [a[0]] + (a[1..] + b);
      assert a == [a[0]] + a[1..];
      NonSpaceCons(a[0], a[1..] + b);
      NonSpaceCons(a[0], a[1..]);
      NonSpaceConcat(a[1..], b);
      assert NonSpace(a + b) == h + NonSpace(a[1..] + b);
      assert NonSpace(a) == h + NonSpace(a[1..]);
      assert h + (NonSpace(a[1..]) + NonSpace(b)) == (h + NonSpace(a[1..])) + NonSpace(b);
    } else {
      assert a + b == b;
    }
  }

  lemma {:induction false} NonSpaceOfSpaces(s: String)
    requires forall k :: 0 <= k < |s| ==> IsSpace(s[k])
    ensures NonSpace(s) == []
    decreases |s|
  {
    if s != [] {
      NonSpaceOfSpaces(s[1..]);
    }
  }

  /** Collapsing whitespace keeps every other character, in order. */
  lemma {:induction false} CollapseKeepsNonSpace(s: String)
    ensures NonSpace(CollapseSpaces(s)) == NonSpace(s)
    decreases |s|
  {
    if s != [] {
      if IsSpace(s[0]) {
        var j := RunEnd(s, 0, IsSpace);
        var rest := CollapseSpaces(s[j..]);
        assert CollapseSpaces(s) == [' '] + rest;
        CollapseKeepsNonSpace(s[j..]);
        SpaceRunStep(s, j, rest);
      } else {
        var rest := CollapseSpaces(s[1..]);
        assert CollapseSpaces(s) == [s[0]] + rest;
        CollapseKeepsNonSpace(s[1..]);
        CharStep(s, rest);
      }
    }
  }

  lemma SpaceRunStep(s: String, j: nat, rest: String)
    requires 0 < j <= |s| && forall k :: 0 <= k < j ==> IsSpace(s[k])
    requires NonSpace(rest) == NonSpace(s[j..])
    ensures NonSpace([' '] + rest) == NonSpace(s)
  {
    NonSpaceOfSpaces(s[..j]);
    assert s == s[..j] + s[j..];
    NonSpaceConcat(s[..j], s[j..]);
    NonSpaceCons(' ', rest);
  }

  lemma CharStep(s: String, rest: String)
    requires s != [] && NonSpace(rest) == NonSpace(s[1..])
    ensures NonSpace([s[0]] + rest) == NonSpace(s)
  {
    NonSpaceCons(s[0], rest);
    assert s == [s[0]] + s[1..];
    NonSpaceCons(s[0], s[1..]);
  }

  /** Trimming drops whitespace only. */
  lemma TrimKeepsNonSpace(s: String)
    ensures NonSpace(Trim(s)) == NonSpace(s)
  {
    var a := TrimStartIndex(s);
    var b := TrimEndIndex(s, a);
    assert s == s[..a] + s[a..b] + s[b..];
    NonSpaceOfSpaces(s[..a]);
    NonSpaceOfSpaces(s[b..]);
    NonSpaceConcat(s[..a] + s[a..b], s[b..]);
    NonSpaceConcat(s[..a], s[a..b]);
  }

  /** `replace(/\s+/g, ' ').trim()` leaves a trimmed string with single
      spaces and the same non-whitespace characters in the same order. */
  function Tidy(s: String): (r: String)
    ensures IsTrimmed(r) && NoSpaceRuns(r)
    ensures forall i :: 0 <= i < |r| && IsSpace(r[i]) ==> r[i] == ' '
    ensures NonSpace(r) == NonSpace(s)
  {
    var c := CollapseSpaces(s);
    TrimKeepsShape(c);
    CollapseKeepsNonSpace(s);
    TrimKeepsNonSpace(c);
    Trim(c)
  }

  /** A text `replace(/\s+/g, ' ')` leaves alone: no whitespace runs, and
      every whitespace character is already a space. */
  lemma {:induction false} CollapseOfSingleSpaced(s: String)
    requires NoSpaceRuns(s) && forall i :: 0 <= i < |s| && IsSpace(s[i]) ==> s[i] == ' '
    ensures CollapseSpaces(s) == s
    decreases |s|
  {
    if s != [] {
      NoSpaceRunsSlice(s, 1, |s|);
      assert forall i :: 0 <= i < |s| - 1 ==> s[1..][i] == s[i + 1];
      CollapseOfSingleSpaced(s[1..]);
      if IsSpace(s[0]) {
        assert |s| == 1 || !IsSpace(s[1]);
        assert RunEnd(s, 0, IsSpace) == 1 by {
          assert RunEnd(s, 1, IsSpace) == 1;
        }
      }
      assert s == [s[0]] + s[1..];
    }
  }

  /** Tidying is idempotent: a trimmed text with single spaces is its own
      tidy form. */
  lemma TidyOfTidy(s: String)
    requires IsTrimmed(s) && NoSpaceRuns(s)
    requires forall i :: 0 <= i < |s| && IsSpace(s[i]) ==> s[i] == ' '
    ensures Tidy(s) == s
  {
    CollapseOfSingleSpaced(s);
    TrimOfTrimmed(s);
  }

  /** Trimming a text with single spaces leaves single spaces. */
  lemma TrimKeepsShape(c: String)
    requires NoSpaceRuns(c) && forall i :: 0 <= i < |c| && IsSpace(c[i]) ==> c[i] == ' '
    ensures NoSpaceRuns(Trim(c)) && forall i :: 0 <= i < |Trim(c)| && IsSpace(Trim(c)[i]) ==> Trim(c)[i] == ' '
  {
    var a := TrimStartIndex(c);
    var b := TrimEndIndex(c, a);
    NoSpaceRunsSlice(c, a, b);
    assert forall i :: 0 <= i < b - a ==> c[a..b][i] == c[a + i];
  }

  // ---------------------------------------------------------------------
  // indexOf / includes / replace(literal, '')

  function IndexOfFrom(s: String, pat: String, i: nat): (r: Option<nat>)
    ensures r.Some? ==> i <= r.value && LiteralAt(s, r.value, pat)
    ensures r.Some? ==> forall j :: i <= j < r.value ==> !LiteralAt(s, j, pat)
    ensures r.None? ==> forall j :: i <= j ==> !LiteralAt(s, j, pat)
    decreases |s| - i
  {
    if i + |pat| > |s| then None
    else if s[i..i + |pat|] == pat then Some(i)
    else IndexOfFrom(s, pat, i + 1)
  }

  /** `s.indexOf(pat)`, with -1 as None. */
  function IndexOf(s: String, pat: String): Option<nat> {
    IndexOfFrom(s, pat, 0)
  }

  /** `s.includes(pat)`. */
  predicate Contains(s: String, pat: String) {
    IndexOf(s, pat).Some?
  }

  lemma ContainsChar(s: String, c: char)
    ensures Contains(s, [c]) <==> c in s
  {
    if c in s {
      var k :| 0 <= k < |s| && s[k] == c;
      assert LiteralAt(s, k, [c]);
    }
    if Contains(s, [c]) {
      var k := IndexOf(s, [c]).value;
      assert s[k..k + 1][0] == s[k];
    }
  }

  lemma ContainsLastChar(s: String, pat: String)
    requires |pat| > 0 && Contains(s, pat)
    ensures pat[|pat| - 1] in s
  {
    var k := IndexOf(s, pat).value;
    assert s[k..k + |pat|][|pat| - 1] == s[k + |pat| - 1];
  }

  /** An occurrence anywhere makes `includes` true. */
  lemma ContainsAt(s: String, k: nat, pat: String)
    requires LiteralAt(s, k, pat)
    ensures Contains(s, pat)
  {
  }

  /** Every character of a contained pattern occurs in s. */
  lemma ContainedCharsOccur(s: String, pat: String)
    ensures Contains(s, pat) ==> forall k :: 0 <= k < |pat| ==> pat[k] in s
  {
    if Contains(s, pat) {
      var i := IndexOf(s, pat).value;
      forall k | 0 <= k < |pat| ensures pat[k] in s {
        assert s[i..i + |pat|][k] == s[i + k];
      }
    }
  }

  /** A two-character pattern occurs only where its characters are adjacent. */
  lemma ContainsPair(s: String, a: char, b: char)
    ensures Contains(s, [a, b]) ==> exists k :: 0 <= k < |s| - 1 && s[k] == a && s[k + 1] == b
  {
    if Contains(s, [a, b]) {
      var i := IndexOf(s, [a, b]).value;
      assert s[i..i + 2][0] == s[i] && s[i..i + 2][1] == s[i + 1];
    }
  }

  /** Between strings of one length, `includes` is equality. */
  lemma ContainsSameLength(s: String, pat: String)
    requires |s| == |pat|
    ensures Contains(s, pat) <==> s == pat
  {
    assert s[0..|pat|] == s;
  }

  /** A pattern longer than s is not contained in it. */
  lemma ContainsLonger(s: String, pat: String)
    requires |pat| > |s|
    ensures !Contains(s, pat)
  {
  }

  /** `s.replace(pat, '')` with a string pattern: the first occurrence goes. */
  function RemoveFirst(s: String, pat: String): (r: String)
    ensures IndexOf(s, pat).None? ==> r == s
    ensures IndexOf(s, pat).Some? ==>
      var k := IndexOf(s, pat).value; r == s[..k] + s[k + |pat|..]
    ensures IndexOf(s, pat).Some? ==> |r| == |s| - |pat|
  {
    match IndexOf(s, pat)
    case None => s
    case Some(k) => s[..k] + s[k + |pat|..]
  }

  // ---------------------------------------------------------------------
  // parseInt on a run of ASCII digits

  predicate AllDigits(s: String) { forall i :: 0 <= i < |s| ==> IsDigit(s[i]) }

  function DigitValue(c: char): nat
    requires IsDigit(c)
  {
    c as int - '0' as int
  }

  /** `parseInt` of a non-empty run of decimal digits. */
  function ParseDigits(s: String): (n: nat)
    requires AllDigits(s)
    ensures |s| == 1 ==> n == DigitValue(s[0])
    ensures |s| == 1 ==> n < 10
    ensures |s| == 2 ==> n == 10 * DigitValue(s[0]) + DigitValue(s[1])
    ensures |s| == 2 ==> n < 100
    ensures |s| <= 4 ==> n < 10000
    decreases |s|
  {
    if s == [] then 0
    else ParseDigits(s[..|s| - 1]) * 10 + DigitValue(s[|s| - 1])
  }

  // ---------------------------------------------------------------------
  // Leftmost search

  /** The first position from c down to lo + 1 where `at` succeeds: how a
      greedy `\s+` that began at lo gives characters back one at a time. */
  function FindBackFrom<T>(s: String, lo: nat, c: nat, at: (String, nat) -> Option<T>): (r: Option<(nat, T)>)
    ensures r.Some? ==> lo < r.value.0 <= c && at(s, r.value.0) == Some(r.value.1)
    ensures r.Some? ==> forall j :: r.value.0 < j <= c ==> at(s, j).None?
    ensures r.None? ==> forall j :: lo < j <= c ==> at(s, j).None?
    decreases c
  {
    if c <= lo then None
    else match at(s, c)
      case Some(m) => Some((c, m))
      case None => FindBackFrom(s, lo, c - 1, at)
  }

  /** The leftmost position at or after i where the anchored matcher `at`
      succeeds, with its result: what `String.prototype.match` returns for a
      regex without the `g` flag. */
  function FindFrom<T>(s: String, i: nat, at: (String, nat) -> Option<T>): (r: Option<(nat, T)>)
    ensures r.Some? ==> i <= r.value.0 <= |s| && at(s, r.value.0) == Some(r.value.1)
    ensures r.Some? ==> forall j :: i <= j < r.value.0 ==> at(s, j).None?
    ensures r.None? ==> forall j :: i <= j <= |s| ==> at(s, j).None?
    decreases |s| + 1 - i
  {
    if i > |s| then None
    else match at(s, i)
      case Some(m) => Some((i, m))
      case None => FindFrom(s, i + 1, at)
  }
}
