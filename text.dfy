/**
 * The string operations of Python that the agent relies on, restricted to
 * ASCII: `str.lower`, `in` (substring test), `str.startswith`, `str.strip`,
 * `str.title`, `str.join`, and the `\w` character class of `re`.
 * Python's versions work on all of Unicode; this model only knows ASCII.
 */
module Text {
  import opened Wrappers

  // ---------------------------------------------------------------------
  // Characters
  // ---------------------------------------------------------------------

  predicate IsUpper(c: char) { 'A' <= c <= 'Z' }

  predicate IsLowerLetter(c: char) { 'a' <= c <= 'z' }

  /** A cased letter in the sense of `str.title` (ASCII only). */
  predicate IsLetter(c: char) { IsUpper(c) || IsLowerLetter(c) }

  predicate IsDigit(c: char) { '0' <= c <= '9' }

  /** The `\w` class of `re`, restricted to ASCII: letters, digits and `_`. */
  predicate IsWordChar(c: char) { IsLetter(c) || IsDigit(c) || c == '_' }

  /** The characters `str.strip()` removes, restricted to ASCII. */
  predicate IsSpace(c: char) {
    c == ' ' || c == '\t' || c == '\n' || c == '\r' || c == '\U{B}' || c == '\U{C}'
    || ('\U{1C}' <= c <= '\U{1F}')
  }

  function ToLower(c: char): (r: char)
    ensures !IsUpper(r)
    ensures IsUpper(c) ==> IsLowerLetter(r)
    ensures !IsUpper(c) ==> r == c
  {
    if IsUpper(c) then (c as int + 32) as char else c
  }

  function ToUpper(c: char): (r: char)
    ensures !IsLowerLetter(r)
    ensures IsLowerLetter(c) ==> IsUpper(r)
    ensures !IsLowerLetter(c) ==> r == c
  {
    if IsLowerLetter(c) then (c as int - 32) as char else c
  }

  // ---------------------------------------------------------------------
  // Lower-casing: `s.lower()`
  // ---------------------------------------------------------------------

  function Lower(s: string): (r: string)
    ensures |r| == |s|
    ensures forall i :: 0 <= i < |s| ==> r[i] == ToLower(s[i])
  {
    seq(|s|, i requires 0 <= i < |s| => ToLower(s[i]))
  }

  /** Text that has been lower-cased holds no upper-case letter. */
  predicate NoUpper(s: string) { forall i :: 0 <= i < |s| ==> !IsUpper(s[i]) }

  lemma LowerHasNoUpper(s: string)
    ensures NoUpper(Lower(s))
  {
  }

  /** Lower-casing twice is lower-casing once, so `x.lower()` of already lowered text changes nothing. */
  lemma LowerIdempotent(s: string)
    ensures Lower(Lower(s)) == Lower(s)
  {
  }

  // ---------------------------------------------------------------------
  // Prefixes and substring search: `s.startswith(p)`, `p in s`, `s.find(p)`
  // ---------------------------------------------------------------------

  predicate StartsWith(s: string, p: string) {
    |p| <= |s| && s[..|p|] == p
  }

  /** There is an occurrence of `p` in `s` at position `i`. */
  predicate OccursAt(s: string, p: string, i: nat) {
    i <= |s| && StartsWith(s[i..], p)
  }

  /** The position of the leftmost occurrence of `p` in `s`, as `str.find` computes it. */
  function Find(s: string, p: string): (r: Option<nat>)
    ensures r.Some? ==> OccursAt(s, p, r.value) && forall j :: 0 <= j < r.value ==> !OccursAt(s, p, j)
    ensures r.None? ==> forall j :: 0 <= j <= |s| ==> !OccursAt(s, p, j)
    decreases |s|
  {
    if StartsWith(s, p) then Some(0)
    else if s == [] then None
    else
      var r := Find(s[1..], p);
      assert forall j :: 1 <= j <= |s| ==> (OccursAt(s, p, j) <==> OccursAt(s[1..], p, j - 1)) by {
        forall j | 1 <= j <= |s| ensures s[j..] == s[1..][j - 1..] { }
      }
      if r.Some? then Some(r.value + 1) else None
  }

  /** Python's `p in s`. */
  predicate Contains(s: string, p: string) {
    Find(s, p).Some?
  }

  /** Only a text at most as long as `s` can be contained in it. */
  lemma ContainsShorter(s: string, p: string)
    ensures Contains(s, p) ==> |p| <= |s|
  {
  }

  /** Every character of a found text occurs in the text it was found in. */
  lemma ContainsChar(s: string, p: string, k: nat)
    requires Contains(s, p) && k < |p|
    ensures exists i :: 0 <= i < |s| && s[i] == p[k]
  {
    var i := Find(s, p).value;
    assert s[i..][..|p|] == p;
    assert s[i + k] == p[k];
  }

  /** Text that lacks one of the characters of `p` does not contain `p`. */
  lemma MissingCharNoMatch(s: string, p: string, k: nat)
    requires k < |p| && forall i :: 0 <= i < |s| ==> s[i] != p[k]
    ensures !Contains(s, p)
  {
    if Contains(s, p) {
      ContainsChar(s, p, k);
    }
  }

  /** Text with no upper-case letter never contains a needle that has one: this is why
      a mixed-case literal searched for in lower-cased text is never found. */
  lemma NoUpperNoMatch(s: string, p: string, k: nat)
    requires NoUpper(s) && k < |p| && IsUpper(p[k])
    ensures !Contains(s, p)
  {
    if Contains(s, p) {
      ContainsChar(s, p, k);
    }
  }

  /** A text that contains `p + q` contains `p`. */
  lemma ContainsNeedlePrefix(s: string, p: string, q: string)
    requires Contains(s, p + q)
    ensures Contains(s, p)
  {
    var i := Find(s, p + q).value;
    assert s[i..][..|p|] == (p + q)[..|p|];
    assert OccursAt(s, p, i);
  }

  /** A text that is contained in a prefix of `s` is contained in `s`. */
  lemma ContainsInLonger(s: string, t: string, p: string)
    requires Contains(s, p)
    ensures Contains(s + t, p)
  {
    var i := Find(s, p).value;
    assert (s + t)[i..][..|p|] == s[i..][..|p|];
    assert OccursAt(s + t, p, i);
  }

  // ---------------------------------------------------------------------
  // `\w+` prefixes
  // ---------------------------------------------------------------------

  predicate AllWordChars(s: string) { forall i :: 0 <= i < |s| ==> IsWordChar(s[i]) }

  /** The length of the longest prefix of `s` made of word characters (what a greedy `\w+` consumes). */
  function WordLength(s: string): (n: nat)
    ensures n <= |s|
    ensures AllWordChars(s[..n])
    ensures n < |s| ==> !IsWordChar(s[n])
    decreases |s|
  {
    if s != [] && IsWordChar(s[0]) then
      var m := WordLength(s[1..]);
      assert s[..m + 1] == [s[0]] + s[1..][..m];
      m + 1
    else 0
  }

  // ---------------------------------------------------------------------
  // Whitespace stripping: `s.strip()`
  // ---------------------------------------------------------------------

  /** The first position at or after `i` that does not hold whitespace, `|s|` when there is none. */
  function SkipSpace(s: string, i: nat): (n: nat)
    requires i <= |s|
    ensures i <= n <= |s|
    ensures forall k :: i <= k < n ==> IsSpace(s[k])
    ensures n < |s| ==> !IsSpace(s[n])
    decreases |s| - i
  {
    if i < |s| && IsSpace(s[i]) then SkipSpace(s, i + 1) else i
  }

  /** Where `s[lo..hi]` ends once its trailing whitespace is cut away. */
  function TrimEnd(s: string, lo: nat, hi: nat): (n: nat)
    requires lo <= hi <= |s|
    ensures lo <= n <= hi
    ensures forall k :: n <= k < hi ==> IsSpace(s[k])
    ensures lo < n ==> !IsSpace(s[n - 1])
    decreases hi
  {
    if lo < hi && IsSpace(s[hi - 1]) then TrimEnd(s, lo, hi - 1) else hi
  }

  predicate AllSpace(s: string) { forall i :: 0 <= i < |s| ==> IsSpace(s[i]) }

  /** `s.strip()`: the text between the leading and the trailing whitespace; it neither starts
      nor ends with whitespace. */
  function Strip(s: string): (r: string)
    ensures |r| <= |s|
    ensures r != [] ==> !IsSpace(r[0]) && !IsSpace(r[|r| - 1])
  {
    var lo := SkipSpace(s, 0);
    s[lo..TrimEnd(s, lo, |s|)]
  }

  /** Only whitespace surrounds the stripped text. */
  lemma StripSurrounds(s: string)
    ensures exists a, b :: AllSpace(a) && AllSpace(b) && s == a + Strip(s) + b
  {
    var lo := SkipSpace(s, 0);
    var hi := TrimEnd(s, lo, |s|);
    var a, m, b := s[..lo], s[lo..hi], s[hi..];
    assert AllSpace(a) && AllSpace(b);
    assert s[..hi] == a + m;
    assert s == s[..hi] + b;
  }

  /** Stripping leaves nothing exactly when the text is all whitespace. */
  lemma StripEmptyIffBlank(s: string)
    ensures Strip(s) == [] <==> AllSpace(s)
  {
    var lo := SkipSpace(s, 0);
    var hi := TrimEnd(s, lo, |s|);
    if Strip(s) == [] {
      assert hi == lo;
      assert lo == |s|;
    }
  }

  /** The first occurrence of `p` in a slice of `s` is an occurrence in `s`, shifted by the
      start of the slice, that ends inside the slice. */
  lemma SliceFind(s: string, p: string, lo: nat, hi: nat)
    requires lo <= hi <= |s|
    ensures Contains(s[lo..hi], p) ==>
              var m := Find(s[lo..hi], p).value;
              OccursAt(s, p, lo + m) && lo + m + |p| <= hi
  {
    var t := s[lo..hi];
    if Contains(t, p) {
      var m := Find(t, p).value;
      assert t[m..][..|p|] == p;
      assert forall k :: 0 <= k < |p| ==> s[lo + m..][k] == p[k] by {
        forall k | 0 <= k < |p| ensures s[lo + m..][k] == p[k] {
          assert t[m..][..|p|][k] == p[k];
          assert t[m + k] == p[k];
        }
      }
      assert s[lo + m..][..|p|] == p;
    }
  }

  /** Stripping text that does not contain `p` leaves text that does not contain `p`. */
  lemma StripLacks(s: string, p: string)
    requires !Contains(s, p)
    ensures !Contains(Strip(s), p)
  {
    var lo := SkipSpace(s, 0);
    SliceFind(s, p, lo, TrimEnd(s, lo, |s|));
  }

  /** Stripping twice is stripping once. */
  lemma StripIdempotent(s: string)
    ensures Strip(Strip(s)) == Strip(s)
  {
    var r := Strip(s);
    if r != [] {
      assert SkipSpace(r, 0) == 0;
      assert TrimEnd(r, 0, |r|) == |r|;
      assert r[0..|r|] == r;
    }
  }

  // ---------------------------------------------------------------------
  // `sep.join(parts)`
  // ---------------------------------------------------------------------

  function Join(parts: seq<string>, sep: string): (r: string)
    ensures parts == [] ==> r == []
    ensures |parts| == 1 ==> r == parts[0]
    ensures |parts| > 0 ==> StartsWith(r, parts[0])
    decreases |parts|
  {
    if parts == [] then []
    else if |parts| == 1 then parts[0]
    else parts[0] + sep + Join(parts[1..], sep)
  }

  /** Joining two or more parts puts the separator right after the first part. */
  lemma JoinSeparates(parts: seq<string>, sep: string)
    requires |parts| >= 2
    ensures OccursAt(Join(parts, sep), sep, |parts[0]|)
  {
    var r := Join(parts, sep);
    assert r == parts[0] + sep + Join(parts[1..], sep);
    assert r[|parts[0]|..] == sep + Join(parts[1..], sep);
  }

  // ---------------------------------------------------------------------
  // `s.title()`
  // ---------------------------------------------------------------------

  /** `str.title` from a position whose preceding character was (`afterLetter`) or was not a
      cased letter: the first letter of every run of letters is upper-cased, the others lowered. */
  function TitleFrom(s: string, afterLetter: bool): (r: string)
    ensures |r| == |s|
    ensures forall i :: 0 <= i < |s| ==> (IsLetter(r[i]) <==> IsLetter(s[i]))
    ensures forall i :: 0 <= i < |s| && !IsLetter(s[i]) ==> r[i] == s[i]
    decreases |s|
  {
    if s == [] then []
    else
      var c := s[0];
      var d := if !IsLetter(c) then c else if afterLetter then ToLower(c) else ToUpper(c);
      [d] + TitleFrom(s[1..], IsLetter(c))
  }

  function Title(s: string): (r: string)
    ensures |r| == |s|
    ensures forall i :: 0 <= i < |s| && !IsLetter(s[i]) ==> r[i] == s[i]
  {
    TitleFrom(s, false)
  }

  /** Title-casing text that is already title-cased changes nothing. */
  lemma {:induction false} TitleFromIdempotent(s: string, afterLetter: bool)
    ensures TitleFrom(TitleFrom(s, afterLetter), afterLetter) == TitleFrom(s, afterLetter)
    decreases |s|
  {
    if s != [] {
      var t := TitleFrom(s, afterLetter);
      assert t[1..] == TitleFrom(s[1..], IsLetter(s[0]));
      assert IsLetter(t[0]) == IsLetter(s[0]);
      TitleFromIdempotent(s[1..], IsLetter(s[0]));
    }
  }

  lemma TitleIdempotent(s: string)
    ensures Title(Title(s)) == Title(s)
  {
    TitleFromIdempotent(s, false);
  }
}
