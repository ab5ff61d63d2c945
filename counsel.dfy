/**
 * Turning the language model's answer into the reply and the session
 * summary: the text is cut at the marker "Summary:", and a missing model
 * or a failed call falls back to fixed texts.
 */
module Counsel {
  import opened Wrappers
  import opened Text

  const Marker: string := "Summary:"
  const FallbackReply: string := "I'm here to listen and support you."
  const FallbackSummary: string := "Session completed."

  /** The reply shown to the user and the summary written to the journal. */
  datatype ReplyAndSummary = ReplyAndSummary(reply: string, summary: string)

  /** The part of `rest` up to the next marker, or all of it. */
  function UpToMarker(rest: string): (section: string)
    ensures !Contains(section, Marker)
    ensures |section| <= |rest| && section == rest[..|section|]
    ensures section == rest || OccursAt(rest, Marker, |section|)
  {
    match IndexOf(rest, Marker)
    case None => rest
    case Some(j) =>
      NoMarkerBeforeFirst(rest, j);
      rest[..j]
  }

  /**
   * `aiText.split('Summary:')`: the reply is the trimmed text before the
   * first marker, the summary the trimmed text between the first and the
   * second marker (or the end); an empty summary becomes the fallback.
   */
  function SplitSummary(text: string): (c: ReplyAndSummary)
    ensures c.summary != []
    ensures !Contains(c.reply, Marker) && !Contains(c.summary, Marker)
    ensures !Contains(text, Marker) ==> c == ReplyAndSummary(Trim(text), FallbackSummary)
  {
    FallbackSummaryHasNoMarker();
    match IndexOf(text, Marker)
    case None =>
      TrimKeepsNoMarker(text);
      ReplyAndSummary(Trim(text), FallbackSummary)
    case Some(i) =>
      var before := text[..i];
      var section := UpToMarker(text[i + |Marker|..]);
      var summary := Trim(section);
      NoMarkerBeforeFirst(text, i);
      TrimKeepsNoMarker(before);
      TrimKeepsNoMarker(section);
      ReplyAndSummary(Trim(before), if summary == [] then FallbackSummary else summary)
  }

  /** The fallback reply holds no marker: it has no capital S. */
  lemma FallbackReplyHasNoMarker()
    ensures !Contains(FallbackReply, Marker)
  {
    assert 'S' !in FallbackReply;
    MissingCharExcludes(FallbackReply, Marker, 0);
  }

  /** The fallback summary holds no marker: it has no letter u. */
  lemma FallbackSummaryHasNoMarker()
    ensures !Contains(FallbackSummary, Marker)
  {
    assert 'u' !in FallbackSummary;
    MissingCharExcludes(FallbackSummary, Marker, 1);
  }

  /** The text before the first marker holds no marker. */
  lemma NoMarkerBeforeFirst(text: string, i: nat)
    requires IndexOf(text, Marker) == Some(i)
    ensures i <= |text| && !Contains(text[..i], Marker)
  {
    if Contains(text[..i], Marker) {
      var k :| OccursAt(text[..i], Marker, k);
      OccursInInfix(text, Marker, 0, i, k);
    }
  }

  /** Trimming cannot create a marker. */
  lemma TrimKeepsNoMarker(s: string)
    requires !Contains(s, Marker)
    ensures !Contains(Trim(s), Marker)
  {
    NotContainsInfix(s, Marker, LeadingSpace(s), LeadingSpace(s) + |Trim(s)|);
  }

  /** No marker can straddle the end of `reply` and a marker that follows it. */
  lemma FirstMarkerAfter(reply: string, rest: string)
    requires !Contains(reply, Marker)
    ensures IndexOf(reply + Marker + rest, Marker) == Some(|reply|)
  {
    var text := reply + Marker + rest;
    assert text[|reply|..|reply| + |Marker|] == Marker;
    assert OccursAt(text, Marker, |reply|);
    forall k | 0 <= k < |reply| ensures !OccursAt(text, Marker, k) {
      if k + |Marker| <= |reply| {
        assert text[k..k + |Marker|] == reply[k..k + |Marker|];
        assert !OccursAt(reply, Marker, k);
      } else {
        // the marker's first letter 'S' would have to sit inside its own tail
        var d := |reply| - k;
        assert 0 < d < |Marker|;
        assert text[k + d] == 'S';
        assert Marker[d] != 'S';
      }
    }
    var r := IndexOf(text, Marker);
    assert r.Some? && r.value <= |reply|;
  }

  /**
   * An answer with two or more markers: the reply is the trimmed text before
   * the first, the summary the trimmed text between the first and the
   * second, or the fallback when that is empty; everything after the second
   * marker is dropped.
   */
  lemma SplitAtTwoMarkers(reply: string, summary: string, tail: string)
    requires !Contains(reply, Marker) && !Contains(summary, Marker)
    ensures SplitSummary(reply + Marker + summary + Marker + tail)
         == ReplyAndSummary(Trim(reply), if Trim(summary) == [] then FallbackSummary else Trim(summary))
  {
    var rest := summary + Marker + tail;
    var text := reply + Marker + rest;
    assert text == reply + Marker + summary + Marker + tail;
    FirstMarkerAfter(reply, rest);
    assert text[..|reply|] == reply;
    assert text[|reply| + |Marker|..] == rest;
    FirstMarkerAfter(summary, tail);
    assert rest[..|summary|] == summary;
  }

  /**
   * An answer with exactly one marker: the reply is the trimmed text before
   * it, the summary the trimmed text after it, or the fallback when that is
   * empty.
   */
  lemma SplitAtSingleMarker(reply: string, summary: string)
    requires !Contains(reply, Marker) && !Contains(summary, Marker)
    ensures SplitSummary(reply + Marker + summary)
         == ReplyAndSummary(Trim(reply), if Trim(summary) == [] then FallbackSummary else Trim(summary))
  {
    var text := reply + Marker + summary;
    FirstMarkerAfter(reply, summary);
    assert text[..|reply|] == reply;
    assert text[|reply| + |Marker|..] == summary;
  }

  /** The model's answer, or the fixed fallback when there is no model or the call failed. */
  function CounselFor(answer: Option<string>): (c: ReplyAndSummary)
    ensures c.summary != []
    ensures !Contains(c.reply, Marker) && !Contains(c.summary, Marker)
    ensures answer.None? ==> c == ReplyAndSummary(FallbackReply, FallbackSummary)
    ensures answer.Some? ==> c == SplitSummary(answer.value)
  {
    match answer
    case None =>
      FallbackReplyHasNoMarker();
      FallbackSummaryHasNoMarker();
      ReplyAndSummary(FallbackReply, FallbackSummary)
    case Some(text) => SplitSummary(text)
  }
}
