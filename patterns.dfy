/**
 * Hand-written matchers for the four text patterns the agent uses:
 *   - `re.search(r"vote (?:for )?(\w+)", text)` (the vote rule),
 *   - `re.search(r"(\w+) has been eliminated", text)` (the elimination tracker),
 *   - `re.findall(r"\[From - .*?\|.*?\]:.*", text)` (the transcript-header check),
 *   - `text.split("CLEANED_CONTENT:")[1]` (the analyser-reply parser).
 * `\w` is ASCII letters, digits and `_` (Python's is Unicode); `.` matches
 * every character except a newline, as in Python without `re.DOTALL`.
 */
module Patterns {
  import opened Wrappers
  import opened Text

  // ---------------------------------------------------------------------
  // `re.search`: try a matcher at every start position, leftmost first
  // ---------------------------------------------------------------------

  /** The match of `at` at the leftmost position of `s` where it matches; `at(t)` is the
      anchored match at the start of `t` and yields its capture group. */
  function Search(s: string, at: string -> Option<string>): (r: Option<string>)
    ensures r.Some? ==> exists k :: 0 <= k <= |s| && at(s[k..]) == r && forall j :: 0 <= j < k ==> at(s[j..]).None?
    ensures r.None? ==> forall k :: 0 <= k <= |s| ==> at(s[k..]).None?
    decreases |s|
  {
    if at(s).Some? then
      assert s[0..] == s;
      at(s)
    else if s == [] then None
    else
      var r := Search(s[1..], at);
      assert forall k :: 1 <= k <= |s| ==> s[k..] == s[1..][k - 1..];
      r
  }

  // ---------------------------------------------------------------------
  // vote (?:for )?(\w+)
  // ---------------------------------------------------------------------

  const VoteWord := "vote "
  const ForWord := "for "

  /** The anchored match of `vote (?:for )?(\w+)` at the start of `s`. The optional group is
      greedy, so `for ` is skipped when a word follows it; otherwise the engine backtracks and
      `\w+` takes whatever word stands right after `vote ` (possibly `for` itself). */
  function VoteAt(s: string): (r: Option<string>)
    ensures r.None? <==> !StartsWith(s, VoteWord) || WordLength(s[|VoteWord|..]) == 0
    ensures r.Some? ==> |r.value| > 0 && AllWordChars(r.value)
    ensures r.Some? ==> StartsWith(s, VoteWord + r.value) || StartsWith(s, VoteWord + ForWord + r.value)
  {
    if !StartsWith(s, VoteWord) then None
    else
      var t := s[|VoteWord|..];
      assert s == VoteWord + t;
      if StartsWith(t, ForWord) && WordLength(t[|ForWord|..]) > 0 then
        var u := t[|ForWord|..];
        assert s == VoteWord + ForWord + u;
        assert u[..WordLength(u)] == u[..WordLength(u)];
        Some(u[..WordLength(u)])
      else if WordLength(t) > 0 then Some(t[..WordLength(t)])
      else None
  }

  /** The vote target the vote rule extracts from (lower-cased) text. */
  function VoteTarget(text: string): Option<string> {
    Search(text, VoteAt)
  }

  /** The captured target is a non-empty run of word characters that follows `vote ` or
      `vote for ` in the text; it is not checked against any list of players. */
  lemma VoteTargetShape(text: string, w: string)
    requires VoteTarget(text) == Some(w)
    ensures |w| > 0 && AllWordChars(w)
    ensures Contains(text, VoteWord + w) || Contains(text, VoteWord + ForWord + w)
  {
    var k :| 0 <= k <= |text| && VoteAt(text[k..]) == Some(w);
    if StartsWith(text[k..], VoteWord + w) {
      assert OccursAt(text, VoteWord + w, k);
    } else {
      assert OccursAt(text, VoteWord + ForWord + w, k);
    }
  }

  /** `vote for <w>` is read as a vote for `w` whenever the word ends there. */
  lemma VoteForRoundTrip(w: string, rest: string)
    requires |w| > 0 && AllWordChars(w)
    requires rest == [] || !IsWordChar(rest[0])
    ensures VoteAt(VoteWord + ForWord + w + rest) == Some(w)
  {
    var s := VoteWord + ForWord + w + rest;
    var u := s[|VoteWord|..][|ForWord|..];
    assert u == w + rest;
    WordRunLength(w, rest);
  }

  /** `vote <w>` is read as a vote for `w` when the word ends there and the text after
      `vote ` is not itself `for ` followed by more. */
  lemma VoteRoundTrip(w: string, rest: string)
    requires |w| > 0 && AllWordChars(w)
    requires rest == [] || !IsWordChar(rest[0])
    requires !StartsWith(w + rest, ForWord)
    ensures VoteAt(VoteWord + w + rest) == Some(w)
  {
    var s := VoteWord + w + rest;
    assert s[|VoteWord|..] == w + rest;
    WordRunLength(w, rest);
  }

  /** A run of word characters followed by a non-word character (or the end) is exactly what
      a greedy `\w+` consumes. */
  lemma {:induction false} WordRunLength(w: string, rest: string)
    requires AllWordChars(w)
    requires rest == [] || !IsWordChar(rest[0])
    ensures WordLength(w + rest) == |w|
    ensures (w + rest)[..|w|] == w
    decreases |w|
  {
    if w == [] {
      assert w + rest == rest;
    } else {
      assert (w + rest)[1..] == w[1..] + rest;
      WordRunLength(w[1..], rest);
    }
  }

  // ---------------------------------------------------------------------
  // (\w+) has been eliminated
  // ---------------------------------------------------------------------

  const EliminatedWords := " has been eliminated"

  /** The anchored match of `(\w+) has been eliminated` at the start of `s`. Backtracking inside
      `\w+` cannot help: a shorter run is followed by a word character, never by the space. */
  function EliminatedAt(s: string): (r: Option<string>)
    ensures r.Some? ==> |r.value| > 0 && AllWordChars(r.value) && StartsWith(s, r.value + EliminatedWords)
  {
    var n := WordLength(s);
    if n > 0 && StartsWith(s[n..], EliminatedWords) then
      assert s[..n + |EliminatedWords|] == s[..n] + s[n..][..|EliminatedWords|];
      Some(s[..n])
    else None
  }

  /** The player named by the first elimination announcement in (lower-cased) text. */
  function EliminatedPlayer(text: string): Option<string> {
    Search(text, EliminatedAt)
  }

  /** `<w> has been eliminated...` names `w`, for every word `w`. */
  lemma EliminatedRoundTrip(w: string, rest: string)
    requires |w| > 0 && AllWordChars(w)
    ensures EliminatedPlayer(w + EliminatedWords + rest) == Some(w)
  {
    var s := w + EliminatedWords + rest;
    assert s == w + (EliminatedWords + rest);
    WordRunLength(w, EliminatedWords + rest);
    assert s[|w|..] == EliminatedWords + rest;
    assert EliminatedAt(s) == Some(w);
  }

  // ---------------------------------------------------------------------
  // \[From - .*?\|.*?\]:.*   with re.findall
  // ---------------------------------------------------------------------

  const HeaderOpen := "[From - "
  const HeaderClose := "]:"

  /** The lazy `.*?\]:` part: some characters other than a newline, then `]:`. */
  predicate LazyClose(s: string)
    decreases |s|
  {
    StartsWith(s, HeaderClose) || (s != [] && s[0] != '\n' && LazyClose(s[1..]))
  }

  /** The lazy `.*?\|.*?\]:` part: the engine tries `|` at each position before extending the
      lazy group by one non-newline character. */
  predicate LazyBar(s: string)
    decreases |s|
  {
    s != [] && ((s[0] == '|' && LazyClose(s[1..])) || (s[0] != '\n' && LazyBar(s[1..])))
  }

  /** A transcript header matches at the start of `s`; the trailing `.*` always matches. */
  predicate HeaderAt(s: string) {
    StartsWith(s, HeaderOpen) && LazyBar(s[|HeaderOpen|..])
  }

  /** The length of the first line of `s` (the position of the first newline, or `|s|`):
      where a greedy trailing `.*` stops. */
  function LineLength(s: string): (n: nat)
    ensures n <= |s|
    ensures forall i :: 0 <= i < n ==> s[i] != '\n'
    ensures n < |s| ==> s[n] == '\n'
    decreases |s|
  {
    if s == [] || s[0] == '\n' then 0 else 1 + LineLength(s[1..])
  }

  /** `len(re.findall(pattern, s))`: scan left to right; after a match, resume where the match
      ended (the end of its line), otherwise move on by one character. */
  function HeaderMatchCount(s: string): nat
    decreases |s|
  {
    if s == [] then 0
    else if HeaderAt(s) then
      assert s[0] == '[';
      1 + HeaderMatchCount(s[LineLength(s)..])
    else HeaderMatchCount(s[1..])
  }

  /** `s.split("\n")`. */
  function Lines(s: string): (r: seq<string>)
    ensures |r| > 0
    decreases |s|
  {
    var n := LineLength(s);
    if n == |s| then [s] else [s[..n]] + Lines(s[n + 1..])
  }

  /** Some position of the line `l` starts a transcript header. */
  predicate HasHeader(l: string)
    decreases |l|
  {
    l != [] && (HeaderAt(l) || HasHeader(l[1..]))
  }

  /** How many of the given lines hold a transcript header. */
  function CountHeaderLines(ls: seq<string>): (n: nat)
    ensures n <= |ls|
  {
    if ls == [] then 0 else (if HasHeader(ls[0]) then 1 else 0) + CountHeaderLines(ls[1..])
  }

  predicate NoNewline(s: string) { forall i :: 0 <= i < |s| ==> s[i] != '\n' }

  /** What follows a line: nothing, or the newline that ends it. */
  predicate LineBreak(t: string) { t == [] || t[0] == '\n' }

  lemma {:induction false} LazyCloseLocal(l: string, t: string)
    requires NoNewline(l) && LineBreak(t)
    ensures LazyClose(l + t) == LazyClose(l)
    decreases |l|
  {
    if l == [] {
      assert l + t == t;
    } else {
      assert (l + t)[1..] == l[1..] + t;
      assert (l + t)[..1] == l[..1];
      if |l| >= 2 { assert (l + t)[..2] == l[..2]; }
      LazyCloseLocal(l[1..], t);
    }
  }

  lemma {:induction false} LazyBarLocal(l: string, t: string)
    requires NoNewline(l) && LineBreak(t)
    ensures LazyBar(l + t) == LazyBar(l)
    decreases |l|
  {
    if l == [] {
      assert l + t == t;
    } else {
      assert (l + t)[1..] == l[1..] + t;
      LazyCloseLocal(l[1..], t);
      LazyBarLocal(l[1..], t);
    }
  }

  /** Whether a header starts at the beginning of `l + t` depends on the line `l` only. */
  lemma HeaderAtLocal(l: string, t: string)
    requires NoNewline(l) && LineBreak(t)
    ensures HeaderAt(l + t) == HeaderAt(l)
  {
    var n := |HeaderOpen|;
    if |l| >= n {
      assert (l + t)[..n] == l[..n];
      assert (l + t)[n..] == l[n..] + t;
      LazyBarLocal(l[n..], t);
    } else if t == [] {
      assert l + t == l;
    } else {
      assert NoNewline(HeaderOpen);
      if |l + t| >= n {
        assert (l + t)[..n][|l|] == t[0];
      }
    }
  }

  /** Scanning a line followed by a line break counts one match for the line if it holds a
      header, then goes on with the break. */
  lemma {:induction false} CountFirstLine(l: string, t: string)
    requires NoNewline(l) && LineBreak(t)
    ensures HeaderMatchCount(l + t) == (if HasHeader(l) then 1 else 0) + HeaderMatchCount(t)
    decreases |l|
  {
    if l == [] {
      assert l + t == t;
    } else {
      var s := l + t;
      HeaderAtLocal(l, t);
      if HeaderAt(s) {
        LineOfLength(l, t);
        assert s[LineLength(s)..] == t;
      } else {
        assert s[1..] == l[1..] + t;
        CountFirstLine(l[1..], t);
      }
    }
  }

  lemma {:induction false} LineOfLength(l: string, t: string)
    requires NoNewline(l) && LineBreak(t)
    ensures LineLength(l + t) == |l|
    decreases |l|
  {
    if l == [] {
      assert l + t == t;
    } else {
      assert (l + t)[1..] == l[1..] + t;
      LineOfLength(l[1..], t);
    }
  }

  /** Since the trailing `.*` runs to the end of the line, `re.findall` finds at most one header
      per line: the number of matches is the number of lines that hold a header. */
  lemma {:induction false} HeaderMatchesAreHeaderLines(s: string)
    ensures HeaderMatchCount(s) == CountHeaderLines(Lines(s))
    decreases |s|
  {
    var n := LineLength(s);
    var l := s[..n];
    if n == |s| {
      assert s == l + [] && l == s;
      CountFirstLine(l, []);
      assert Lines(s) == [s] && [s][1..] == [];
    } else {
      var r := s[n + 1..];
      assert s == l + ("\n" + r);
      CountFirstLine(l, "\n" + r);
      assert !HeaderAt("\n" + r);
      assert ("\n" + r)[1..] == r;
      HeaderMatchesAreHeaderLines(r);
      assert Lines(s) == [l] + Lines(r);
    }
  }

  /** Every `[From - <a>|<b>]:<x>` line is a header, whatever `a`, `b` and `x` are. */
  lemma HeaderRecognized(a: string, b: string, x: string)
    requires NoNewline(a) && NoNewline(b)
    ensures HeaderAt(HeaderOpen + a + "|" + b + HeaderClose + x)
  {
    var s := HeaderOpen + a + "|" + b + HeaderClose + x;
    var rest := b + HeaderClose + x;
    assert s == HeaderOpen + (a + ("|" + rest));
    assert s[..|HeaderOpen|] == HeaderOpen;
    assert s[|HeaderOpen|..] == a + ("|" + rest);
    LazyBarReaches(a, rest, b, x);
  }

  lemma {:induction false} LazyCloseReaches(b: string, x: string)
    requires NoNewline(b)
    ensures LazyClose(b + HeaderClose + x)
    decreases |b|
  {
    if b == [] {
      assert b + HeaderClose + x == HeaderClose + x;
      assert (HeaderClose + x)[..|HeaderClose|] == HeaderClose;
    } else {
      assert (b + HeaderClose + x)[1..] == b[1..] + HeaderClose + x;
      LazyCloseReaches(b[1..], x);
    }
  }

  lemma {:induction false} LazyBarReaches(a: string, rest: string, b: string, x: string)
    requires NoNewline(a) && NoNewline(b) && rest == b + HeaderClose + x
    ensures LazyBar(a + ("|" + rest))
    decreases |a|
  {
    var s := a + ("|" + rest);
    if a == [] {
      assert s == "|" + rest && s[1..] == rest;
      LazyCloseReaches(b, x);
    } else {
      assert s[1..] == a[1..] + ("|" + rest);
      LazyBarReaches(a[1..], rest, b, x);
    }
  }

  /** A text that starts with a line and a newline splits into that line and the lines after it. */
  lemma LinesAfterFirst(l: string, r: string)
    requires NoNewline(l)
    ensures Lines(l + "\n" + r) == [l] + Lines(r)
  {
    var s := l + "\n" + r;
    assert s == l + ("\n" + r);
    LineOfLength(l, "\n" + r);
    assert s[..|l|] == l && s[|l| + 1..] == r;
  }

  /** A text without newlines is a single line. */
  lemma SingleLine(l: string)
    requires NoNewline(l)
    ensures Lines(l) == [l]
  {
    assert l + [] == l;
    LineOfLength(l, []);
  }

  /** Two headers on one line are one match. */
  lemma OneLineOneMatch(l: string)
    requires NoNewline(l)
    ensures HeaderMatchCount(l) <= 1
  {
    assert l + [] == l;
    CountFirstLine(l, []);
  }

  // ---------------------------------------------------------------------
  // s.split(sep)[1]
  // ---------------------------------------------------------------------

  /** `s.split(sep)[1]`, which exists when `sep` occurs in `s`: the text between the first and the
      second occurrence of `sep`, or up to the end when there is no second one. */
  function SecondField(s: string, sep: string): (r: string)
    requires Contains(s, sep)
    ensures var rest := s[Find(s, sep).value + |sep|..];
            StartsWith(rest, r) && (r == rest || OccursAt(rest, sep, |r|))
    ensures |sep| > 0 ==> !Contains(r, sep)
  {
    var i := Find(s, sep).value;
    var rest := s[i + |sep|..];
    match Find(rest, sep)
    case None =>
      assert StartsWith(rest, rest);
      rest
    case Some(j) =>
      SliceFind(rest, sep, 0, j);
      assert rest[0..j] == rest[..j];
      rest[..j]
  }
}
