/** The duration text codec of scripts/content.js: `parseDuration`, the
    `minutes * 60 + seconds` recombination shared by `parseQueue` and
    `getCurrentTime`, the text parsing of `getCurrentTime`, and
    `secondsToString`. */
module Duration {
  import opened Text

  /** The number conversion applied to each group, in order. */
  function NumberGroups(groups: seq<string>): (r: seq<Option<nat>>)
    ensures |r| == |groups|
    ensures forall i :: 0 <= i < |groups| ==> r[i] == Number(groups[i])
  {
    if groups == [] then [] else [Number(groups[0])] + NumberGroups(groups[1..])
  }

  /** parseDuration: one number (or NaN) per colon-separated group, in order. */
  function ParseDuration(duration: string): (r: seq<Option<nat>>)
    ensures |r| == |Split(duration, ':')| >= 1
    ensures forall i :: 0 <= i < |r| ==> r[i] == Number(Split(duration, ':')[i])
  {
    NumberGroups(Split(duration, ':'))
  }

  /** The first two groups of parseDuration, read as minutes and seconds and
      combined into seconds: None (NaN) when either of them is NaN or when the
      text has no second group, since a missing group makes the sum NaN. */
  function ClockSeconds(text: string): (r: Option<nat>) {
    var groups := ParseDuration(text);
    if |groups| >= 2 && groups[0].Some? && groups[1].Some? then
      Some(groups[0].value * 60 + groups[1].value)
    else
      None
  }

  lemma DigitsHaveNoColon(s: string)
    requires AllDigits(s)
    ensures ':' !in s
  {
  }

  lemma DivMod60(minutes: nat, seconds: nat)
    requires seconds < 60
    ensures (minutes * 60 + seconds) / 60 == minutes
    ensures (minutes * 60 + seconds) % 60 == seconds
  {
  }

  /** The first two pieces of "minutes:seconds" followed by nothing or by
      further colon-separated groups. */
  lemma FirstTwoGroups(minutes: string, seconds: string, tail: string)
    requires ':' !in minutes && ':' !in seconds
    requires tail == [] || tail[0] == ':'
    ensures var groups := Split(minutes + ":" + seconds + tail, ':');
      |groups| >= 2 && groups[0] == minutes && groups[1] == seconds
  {
    assert minutes + ":" + seconds + tail == minutes + [':'] + (seconds + tail);
    SplitFirst(minutes, seconds + tail, ':');
    if tail == [] {
      assert seconds + tail == seconds;
      SplitWhole(seconds, ':');
    } else {
      assert seconds + tail == seconds + [':'] + tail[1..];
      SplitFirst(seconds, tail[1..], ':');
    }
  }

  /** The value of a text is read from its first two pieces. */
  lemma ClockSecondsOfPieces(text: string, minutes: string, seconds: string)
    requires AllDigits(minutes) && AllDigits(seconds)
    requires |Split(text, ':')| >= 2 && Split(text, ':')[0] == minutes && Split(text, ':')[1] == seconds
    ensures ClockSeconds(text) == Some(ParseNat(minutes) * 60 + ParseNat(seconds))
  {
  }

  /** Only the first two groups count: a text that starts with two digit
      groups has the value `minutes * 60 + seconds` whatever groups follow. */
  lemma ClockSecondsOfGroups(text: string, minutes: string, seconds: string, tail: string)
    requires text == minutes + ":" + seconds + tail
    requires AllDigits(minutes) && AllDigits(seconds)
    requires tail == [] || tail[0] == ':'
    ensures ClockSeconds(text) == Some(ParseNat(minutes) * 60 + ParseNat(seconds))
  {
    DigitsHaveNoColon(minutes);
    DigitsHaveNoColon(seconds);
    FirstTwoGroups(minutes, seconds, tail);
    ClockSecondsOfPieces(text, minutes, seconds);
  }

  /** Digit groups joined with ':' parse back to their values, one per group,
      in order. */
  lemma ParseDurationOfGroups(groups: seq<string>)
    requires |groups| >= 1
    requires forall k :: 0 <= k < |groups| ==> AllDigits(groups[k])
    ensures |ParseDuration(Join(groups, ':'))| == |groups|
    ensures forall k :: 0 <= k < |groups| ==> ParseDuration(Join(groups, ':'))[k] == Some(ParseNat(groups[k]))
  {
    forall k | 0 <= k < |groups| ensures ':' !in groups[k] {
      DigitsHaveNoColon(groups[k]);
    }
    SplitJoin(groups, ':');
  }

  /** A text without a colon has no seconds group, so its value is NaN. */
  lemma SingleGroupIsNaN(text: string)
    requires ':' !in text
    ensures ClockSeconds(text) == None
  {
    SplitWhole(text, ':');
  }

  /** getCurrentTime, given the text of the time-info element (None when the
      element is absent): 0 without the element, otherwise the trimmed text
      before the first '/', read as "M:SS". A result of None stands for NaN. */
  function CurrentTime(timeInfo: Option<string>): (r: Option<nat>) {
    match timeInfo
    case None => Some(0)
    case Some(text) => ClockSeconds(Trim(Split(text, '/')[0]))
  }

  /** getCurrentTime is 0 without a time-info element, and otherwise depends
      only on the trimmed text before the first '/'. */
  lemma CurrentTimeReadsBeforeSlash(before: string, after: string)
    requires '/' !in before
    ensures CurrentTime(None) == Some(0)
    ensures CurrentTime(Some(before)) == ClockSeconds(Trim(before))
    ensures CurrentTime(Some(before + "/" + after)) == ClockSeconds(Trim(before))
  {
    SplitWhole(before, '/');
    assert before + "/" + after == before + ['/'] + after;
    SplitFirst(before, after, '/');
  }

  /** The decimal numeral of `k` padded with a leading zero to at least two
      digits, in ASCII digits and without grouping separators. */
  function Pad2(k: nat): (s: string) {
    if k < 10 then "0" + NatToString(k) else NatToString(k)
  }

  /** secondsToString: the whole minutes, unpadded, a colon, and the
      remaining seconds padded to two digits. */
  function SecondsToString(seconds: nat): (s: string) {
    NatToString(seconds / 60) + ":" + Pad2(seconds % 60)
  }

  lemma Pad2TwoDigits(k: nat)
    requires k < 100
    ensures |Pad2(k)| == 2 && AllDigits(Pad2(k)) && ParseNat(Pad2(k)) == k
  {
    ParseNatToString(k);
    if k < 10 {
      var s := Pad2(k);
      assert s[..1] == "0";
    }
  }

  /** Two digits below 60 are what Pad2 prints for their value. */
  lemma Pad2OfTwoDigits(seconds: string)
    requires |seconds| == 2 && AllDigits(seconds)
    ensures Pad2(ParseNat(seconds)) == seconds
  {
    var v := ParseNat(seconds);
    var first := seconds[..1];
    assert first[..0] == [] && first[0] == seconds[0];
    assert ParseNat(first) == DigitValue(seconds[0]);
    assert v == ParseNat(first) * 10 + DigitValue(seconds[1]);
    if seconds[0] == '0' {
      assert v == DigitValue(seconds[1]);
      assert Pad2(v) == "0" + [DigitChar(v)];
    } else {
      assert Canonical(seconds);
      NatToStringParse(seconds);
    }
  }

  /** The layout of the formatted text: the whole minutes unpadded, a colon,
      then the remaining seconds as exactly two digits. */
  lemma FormatLayout(n: nat)
    ensures var s := SecondsToString(n);
      && |s| >= 4 && s[|s| - 3] == ':'
      && Canonical(s[..|s| - 3]) && ParseNat(s[..|s| - 3]) == n / 60
      && AllDigits(s[|s| - 2..]) && ParseNat(s[|s| - 2..]) == n % 60
  {
    var s := SecondsToString(n);
    Pad2TwoDigits(n % 60);
    ParseNatToString(n / 60);
    assert s[..|s| - 3] == NatToString(n / 60);
    assert s[|s| - 2..] == Pad2(n % 60);
  }

  /** Formatting and reading back: the text secondsToString produces parses,
      as `minutes * 60 + seconds`, to the seconds it was made from. */
  lemma FormatRoundTrip(n: nat)
    ensures ClockSeconds(SecondsToString(n)) == Some(n)
  {
    Pad2TwoDigits(n % 60);
    ParseNatToString(n / 60);
    assert SecondsToString(n) == NatToString(n / 60) + ":" + Pad2(n % 60) + [];
    ClockSecondsOfGroups(SecondsToString(n), NatToString(n / 60), Pad2(n % 60), []);
  }

  lemma FormatOfParts(minutes: string, seconds: string, m: nat, s: nat)
    requires NatToString(m) == minutes && Pad2(s) == seconds && s < 60
    ensures SecondsToString(m * 60 + s) == minutes + ":" + seconds
  {
    DivMod60(m, s);
  }

  /** Reading and formatting back: for canonical minutes and two digits of
      seconds below 60, secondsToString of `minutes * 60 + seconds` reproduces
      "minutes:seconds". ClockSecondsOfGroups (with an empty tail) reads that
      text as `minutes * 60 + seconds`, so such a text survives being read and
      reprinted unchanged. */
  lemma FormatOfCanonical(minutes: string, seconds: string, m: nat, s: nat)
    requires Canonical(minutes) && m == ParseNat(minutes)
    requires |seconds| == 2 && AllDigits(seconds) && s == ParseNat(seconds) && s < 60
    ensures SecondsToString(m * 60 + s) == minutes + ":" + seconds
  {
    NatToStringParse(minutes);
    Pad2OfTwoDigits(seconds);
    FormatOfParts(minutes, seconds, m, s);
  }

  lemma FormatExamples()
    ensures SecondsToString(125) == "2:05"
    ensures SecondsToString(59) == "0:59"
  {
  }
}
