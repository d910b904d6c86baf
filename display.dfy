/** The text `showQueueProgress` writes into the progress element. Creating,
    styling and inserting the element itself is not part of this model. */
module Display {
  import opened Text
  import opened Duration
  import opened Queue

  /** The formatted elapsed time, a slash between two spaces, and the
      formatted total time. */
  function ProgressText(p: Progress): (s: string) {
    SecondsToString(p.elapsedTime) + " / " + SecondsToString(p.totalTime)
  }

  lemma DigitsAroundColon(a: string, b: string)
    requires |a| >= 1 && AllDigits(a) && |b| >= 1 && AllDigits(b)
    ensures '/' !in a + ":" + b
    ensures !IsWhiteSpace((a + ":" + b)[0]) && !IsWhiteSpace((a + ":" + b)[|a| + |b|])
  {
    var s := a + ":" + b;
    forall i | 0 <= i < |s| ensures s[i] != '/' {
      if i < |a| {
        assert s[i] == a[i];
      } else if i > |a| {
        assert s[i] == b[i - |a| - 1];
      }
    }
  }

  /** A formatted time holds no '/' and neither starts nor ends with white space. */
  lemma FormattedShape(n: nat)
    ensures '/' !in SecondsToString(n)
    ensures !IsWhiteSpace(SecondsToString(n)[0])
    ensures !IsWhiteSpace(SecondsToString(n)[|SecondsToString(n)| - 1])
  {
    Pad2TwoDigits(n % 60);
    DigitsAroundColon(NatToString(n / 60), Pad2(n % 60));
  }

  /** Split at '/', the displayed text has exactly two parts: the formatted
      elapsed time and the formatted total, each with its space. */
  lemma SplitProgressText(p: Progress)
    ensures Split(ProgressText(p), '/') ==
      [SecondsToString(p.elapsedTime) + " ", " " + SecondsToString(p.totalTime)]
  {
    var e, t := SecondsToString(p.elapsedTime), SecondsToString(p.totalTime);
    FormattedShape(p.elapsedTime);
    FormattedShape(p.totalTime);
    var parts := [e + " ", " " + t];
    assert '/' !in e + " " && '/' !in " " + t;
    assert Join(parts, '/') == ProgressText(p);
    SplitJoin(parts, '/');
  }

  lemma TrimFormatted(n: nat)
    ensures Trim(SecondsToString(n) + " ") == SecondsToString(n)
    ensures Trim(" " + SecondsToString(n)) == SecondsToString(n)
  {
    var f := SecondsToString(n);
    FormattedShape(n);
    TrimPadded([], f, " ");
    assert [] + f + " " == f + " ";
    TrimPadded(" ", f, []);
    assert " " + f + [] == " " + f;
  }

  /** The displayed text reads back: split at '/' its two parts trim to the two
      formatted times and parse, as "M:SS", to the elapsed and the total time.
      The display has the shape of the player's own time-info text, and
      getCurrentTime would read the elapsed time from it. */
  lemma ProgressTextReadsBack(p: Progress)
    ensures |Split(ProgressText(p), '/')| == 2
    ensures ClockSeconds(Trim(Split(ProgressText(p), '/')[0])) == Some(p.elapsedTime)
    ensures ClockSeconds(Trim(Split(ProgressText(p), '/')[1])) == Some(p.totalTime)
    ensures CurrentTime(Some(ProgressText(p))) == Some(p.elapsedTime)
  {
    SplitProgressText(p);
    TrimFormatted(p.elapsedTime);
    TrimFormatted(p.totalTime);
    FormatRoundTrip(p.elapsedTime);
    FormatRoundTrip(p.totalTime);
  }
}
