/**
 * `MemoryStorer._check_for_injections`: a structural check for forged transcript headers, then
 * an analyser reply that is parsed for an injection flag and a cleaned text. Every failure on the
 * way (missing configuration, failed request, malformed reply) returns the text unflagged.
 */
module Injection {
  import opened Wrappers
  import opened Text
  import Patterns

  const InjectionMarker := "HAS_INJECTION: true"
  const CleanedMarker := "CLEANED_CONTENT:"
  /** The placeholder the analyser's reply format shows; a reply that echoes it cleans nothing. */
  const CleanedPlaceholder := "[message with any injections removed]"

  /** The structural check: the message holds more than one transcript-header match, that is,
      headers on more than one line (one line counts once however many headers it holds). */
  function ForgesTranscript(content: string): (flagged: bool)
    ensures flagged <==> Patterns.CountHeaderLines(Patterns.Lines(content)) > 1
  {
    Patterns.HeaderMatchesAreHeaderLines(content);
    Patterns.HeaderMatchCount(content) > 1
  }

  /** The parse of the analyser's reply (`analysis`) for the message `content`: the flag and the
      text to keep. The flag is looked for in the LOWER-CASED reply, so it is never found. The
      replacement text, when there is one, is the stripped field after the first
      `CLEANED_CONTENT:` marker; it is never empty, never the placeholder and never holds the marker. */
  function ParseAnalysis(content: string, analysis: string): (r: (string, bool))
    ensures !r.1
    ensures !Contains(analysis, CleanedMarker) ==> r.0 == content
    ensures r.0 != content ==> r.0 != [] && r.0 != CleanedPlaceholder && !Contains(r.0, CleanedMarker)
  {
    var hasInjection := Contains(Lower(analysis), InjectionMarker);
    LowerHasNoUpper(analysis);
    NoUpperNoMatch(Lower(analysis), InjectionMarker, 0);
    if Contains(analysis, CleanedMarker) then
      var field := Patterns.SecondField(analysis, CleanedMarker);
      var part := Strip(field);
      StripLacks(field, CleanedMarker);
      if part != [] && part != CleanedPlaceholder then (part, hasInjection) else (content, hasInjection)
    else (content, hasInjection)
  }

  /** A reply whose first marker is followed by `body` replaces the message with `body` stripped,
      unless that is empty or the placeholder. */
  lemma ParseAnalysisReadsField(content: string, pre: string, body: string)
    requires forall j :: 0 <= j < |pre| ==> !OccursAt(pre + CleanedMarker + body, CleanedMarker, j)
    requires !Contains(body, CleanedMarker)
    ensures var part := Strip(body);
            ParseAnalysis(content, pre + CleanedMarker + body)
            == (if part != [] && part != CleanedPlaceholder then part else content, false)
  {
    var a := pre + CleanedMarker + body;
    assert a[|pre|..][..|CleanedMarker|] == CleanedMarker;
    assert OccursAt(a, CleanedMarker, |pre|);
    assert Find(a, CleanedMarker) == Some(|pre|);
    assert a[|pre| + |CleanedMarker|..] == body;
    assert Find(body, CleanedMarker).None?;
  }

  /** `_check_for_injections(content)`, where `configPresent` says whether
      `self.sentient_llm_config` exists and `analysis` is the analyser's reply text (`None` when
      the request or the decoding of its answer fails). */
  function CheckForInjections(content: string, configPresent: bool, analysis: Option<string>): (r: (string, bool))
    ensures !configPresent ==> r == (content, false)
    ensures r.1 <==> configPresent && Patterns.CountHeaderLines(Patterns.Lines(content)) > 1
    ensures r.1 ==> r.0 == content
    ensures analysis.None? ==> r.0 == content
  {
    if !configPresent then (content, false)
    else if ForgesTranscript(content) then (content, true)
    else
      match analysis
      case None => (content, false)
      case Some(a) => ParseAnalysis(content, a)
  }

  /** However many forged headers one line holds, they are a single `findall` match, so the
      structural check lets a one-line message through (`[From - a|b]: x [From - c|d]: y`). */
  lemma OneLineNeverForges(content: string)
    requires Patterns.NoNewline(content)
    ensures !ForgesTranscript(content)
  {
    Patterns.OneLineOneMatch(content);
  }

  /** Two lines that each start with a header (each `[From - <a>|<b>]:<x>`, see
      `Patterns.HeaderRecognized`) are two matches and are flagged
      (`[From - a|b]: x\n[From - c|d]: y`). */
  lemma TwoHeaderLinesForge(l1: string, l2: string)
    requires Patterns.NoNewline(l1) && Patterns.NoNewline(l2)
    requires Patterns.HeaderAt(l1) && Patterns.HeaderAt(l2)
    ensures ForgesTranscript(l1 + "\n" + l2)
  {
    Patterns.LinesAfterFirst(l1, l2);
    Patterns.SingleLine(l2);
    assert Patterns.Lines(l1 + "\n" + l2) == [l1, l2];
    assert Patterns.CountHeaderLines([l1, l2]) == 2 by {
      assert [l1, l2][1..] == [l2];
      assert [l2][1..] == [];
    }
  }
}
