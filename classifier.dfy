/**
 * The reply classifier of the `/diagnose` endpoint (app.py:152-195): it turns the
 * generative model's free-text reply into a severity label and an advice text.
 *
 * A reply that carries both literal markers `Severity:` and `Advice:` is read
 * structurally, with Python's first-occurrence `find`, slicing and `strip`; any
 * other reply is classified by a case-insensitive keyword scan and returned
 * verbatim as the advice.
 */
module Classifier {
  import opened Strings

  const SeverityMarker := "Severity:"
  const AdviceMarker := "Advice:"

  /** The values `diagnose` starts from before it parses a reply. */
  const UnknownSeverity := "Unknown"
  const UnparsedAdvice := "Could not parse AI advice. Please consult a medical professional."

  datatype Classification = Classification(severity: string, advice: string)

  /** The reply follows the requested output format closely enough to be read structurally. */
  predicate Structured(reply: string) {
    Contains(reply, SeverityMarker) && Contains(reply, AdviceMarker)
  }

  /**
   * The severity of a structured reply: the text after the first `Severity:` up to
   * the next newline, stripped.  Without a newline Python's `find` gives -1, and the
   * slice then ends one character before the end of the reply.
   */
  function SeverityField(reply: string): string {
    var start := FindFrom(reply, SeverityMarker, 0);
    if start != -1 then
      var lineEnd := FindFrom(reply, "\n", start);
      Strip(Slice(reply, start + |SeverityMarker|, lineEnd))
    else UnknownSeverity
  }

  /**
   * The advice of a structured reply: the stripped text after the first `Advice:`,
   * cut before its first `Severity:` (and stripped again) if it has one.
   */
  function AdviceField(reply: string): string {
    var start := FindFrom(reply, AdviceMarker, 0);
    if start != -1 then
      var advice := Strip(Slice(reply, start + |AdviceMarker|, |reply|));
      if Contains(advice, SeverityMarker) then Strip(SplitOn(advice, SeverityMarker)[0])
      else advice
    else UnparsedAdvice
  }

  /** The keyword scan, in its order of precedence, over the lower-cased reply. */
  function KeywordSeverity(reply: string): string {
    var lowered := Lower(reply);
    if Contains(lowered, "severe") || Contains(lowered, "emergency") then "Severe"
    else if Contains(lowered, "doctor") || Contains(lowered, "medical professional") then "Moderate"
    else "Basic"
  }

  /** The severity and advice `diagnose` reports for a reply the model generated. */
  function Classify(reply: string): Classification {
    if Structured(reply) then Classification(SeverityField(reply), AdviceField(reply))
    else Classification(KeywordSeverity(reply), reply)
  }

  /** `word` appears in `s` when letter case is ignored. */
  ghost predicate Mentions(s: string, word: string) {
    exists j :: MentionsAt(s, word, j)
  }

  /** `word` appears in `s` at index `j` when letter case is ignored. */
  predicate MentionsAt(s: string, word: string, j: int) {
    0 <= j && j + |word| <= |s| && Lower(s[j..j + |word|]) == word
  }

  /** Searching the lower-cased text is searching the text with case ignored. */
  lemma {:induction false} ContainsLowerIsMentions(s: string, word: string)
    ensures Contains(Lower(s), word) <==> Mentions(s, word)
  {
    var low := Lower(s);
    if Contains(low, word) {
      var j := FindFrom(low, word, 0);
      assert MentionsAt(s, word, j) by {
        assert OccursAt(low, word, j);
        LowerSlice(s, j, j + |word|);
      }
    }
    if Mentions(s, word) {
      var j :| MentionsAt(s, word, j);
      assert OccursAt(low, word, j) by {
        LowerSlice(s, j, j + |word|);
      }
      ContainsAt(low, word, j);
    }
  }

  /**
   * Structured path, severity: the stripped text from just after the first
   * `Severity:` up to the next newline.
   */
  lemma {:induction false} SeverityUpToNewline(reply: string, start: nat, lineEnd: nat)
    requires Contains(reply, AdviceMarker)
    requires IsFirstFrom(reply, SeverityMarker, 0, start)
    requires IsFirstFrom(reply, "\n", start, lineEnd)
    ensures start + |SeverityMarker| <= lineEnd
    ensures Classify(reply).severity == Strip(reply[start + |SeverityMarker|..lineEnd])
  {
    FindFromIsFirst(reply, SeverityMarker, 0, start);
    FindFromIsFirst(reply, "\n", start, lineEnd);
    assert reply[lineEnd] == reply[lineEnd..lineEnd + 1][0] == '\n';
    forall k | start <= k < start + |SeverityMarker| ensures reply[k] != '\n' {
      assert reply[k] == reply[start..start + |SeverityMarker|][k - start];
    }
  }

  /**
   * Structured path, severity, when no newline follows `Severity:`: the slice ends
   * at index -1, so the reply's last character is dropped.
   */
  lemma {:induction false} SeverityWithoutNewline(reply: string, start: nat)
    requires Contains(reply, AdviceMarker)
    requires IsFirstFrom(reply, SeverityMarker, 0, start)
    requires forall j :: start <= j < |reply| ==> reply[j] != '\n'
    ensures Classify(reply).severity ==
              if start + |SeverityMarker| < |reply| - 1
              then Strip(reply[start + |SeverityMarker|..|reply| - 1])
              else ""
  {
    var from := start + |SeverityMarker|;
    assert FindFrom(reply, SeverityMarker, 0) == start && from <= |reply| by {
      FindFromIsFirst(reply, SeverityMarker, 0, start);
    }
    assert FindFrom(reply, "\n", start) == -1 by {
      NoLineBreakFound(reply, start);
    }
    assert Classify(reply).severity == Strip(Slice(reply, from, -1));
  }

  /** `find` reports -1 for a newline when none follows `start`. */
  lemma {:induction false} NoLineBreakFound(reply: string, start: nat)
    requires forall j :: start <= j < |reply| ==> reply[j] != '\n'
    ensures FindFrom(reply, "\n", start) == -1
  {
    forall j | start <= j ensures !OccursAt(reply, "\n", j) {
      if j < |reply| {
        assert reply[j..j + 1] == [reply[j]];
      }
    }
  }

  /**
   * Structured path, advice without a repeated label: the stripped text after the
   * first `Advice:`.
   */
  lemma {:induction false} AdviceAfterMarker(reply: string, start: nat)
    requires Contains(reply, SeverityMarker)
    requires IsFirstFrom(reply, AdviceMarker, 0, start)
    requires !Contains(Strip(reply[start + |AdviceMarker|..]), SeverityMarker)
    ensures Classify(reply).advice == Strip(reply[start + |AdviceMarker|..])
  {
    AdviceFieldAt(reply, start);
  }

  /**
   * Structured path, advice with a repeated label: the advice is cut before the
   * first `Severity:` inside it and stripped again.
   */
  lemma {:induction false} AdviceCutAtRepeatedLabel(reply: string, start: nat, cut: nat)
    requires Contains(reply, SeverityMarker)
    requires IsFirstFrom(reply, AdviceMarker, 0, start)
    requires IsFirstFrom(Strip(reply[start + |AdviceMarker|..]), SeverityMarker, 0, cut)
    ensures Classify(reply).advice == Strip(Strip(reply[start + |AdviceMarker|..])[..cut])
  {
    AdviceFieldAt(reply, start);
    FirstPiece(Strip(reply[start + |AdviceMarker|..]), SeverityMarker, cut);
  }

  /** With the first `Advice:` at `start`, the advice is read from just after it. */
  lemma {:induction false} AdviceFieldAt(reply: string, start: nat)
    requires Contains(reply, SeverityMarker)
    requires IsFirstFrom(reply, AdviceMarker, 0, start)
    ensures Structured(reply)
    ensures var advice := Strip(reply[start + |AdviceMarker|..]);
            Classify(reply).advice ==
              if Contains(advice, SeverityMarker) then Strip(SplitOn(advice, SeverityMarker)[0]) else advice
  {
    FindFromIsFirst(reply, AdviceMarker, 0, start);
    assert Slice(reply, start + |AdviceMarker|, |reply|) == reply[start + |AdviceMarker|..];
  }

  /** Structured path: the advice returned never contains `Severity:`. */
  lemma {:induction false} StructuredAdviceHasNoSeverityLabel(reply: string)
    requires Structured(reply)
    ensures !Contains(Classify(reply).advice, SeverityMarker)
  {
    var start := FindFrom(reply, AdviceMarker, 0);
    var advice := Strip(Slice(reply, start + |AdviceMarker|, |reply|));
    if Contains(advice, SeverityMarker) {
      NotContainsStrip(SplitOn(advice, SeverityMarker)[0], SeverityMarker);
    }
  }

  /**
   * Unstructured path: the advice is the reply verbatim, and the severity follows
   * the keyword precedence with letter case ignored.
   */
  lemma {:induction false} UnstructuredReply(reply: string)
    requires !Structured(reply)
    ensures Classify(reply).advice == reply
    ensures Classify(reply).severity == "Severe" <==>
              Mentions(reply, "severe") || Mentions(reply, "emergency")
    ensures Classify(reply).severity == "Moderate" <==>
              !Mentions(reply, "severe") && !Mentions(reply, "emergency") &&
              (Mentions(reply, "doctor") || Mentions(reply, "medical professional"))
    ensures Classify(reply).severity == "Basic" <==>
              !Mentions(reply, "severe") && !Mentions(reply, "emergency") &&
              !Mentions(reply, "doctor") && !Mentions(reply, "medical professional")
  {
    ContainsLowerIsMentions(reply, "severe");
    ContainsLowerIsMentions(reply, "emergency");
    ContainsLowerIsMentions(reply, "doctor");
    ContainsLowerIsMentions(reply, "medical professional");
  }

  /** An empty reply has no markers and no keywords: it is classified "Basic" with empty advice. */
  lemma {:induction false} EmptyReplyIsBasic()
    ensures Classify("") == Classification("Basic", "")
  {
  }
}
