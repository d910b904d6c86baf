/** The handful of JavaScript string built-ins the content script relies on:
    `String.prototype.split` with a one-character separator,
    `String.prototype.trim`, `Number(...)` applied to a group of ASCII digits,
    and the decimal rendering of a whole number in a template literal. */
module Text {

  datatype Option<T> = None | Some(value: T)

  // ---------------------------------------------------------------------------
  // Decimal digits
  // ---------------------------------------------------------------------------

  predicate IsDigit(c: char) {
    '0' <= c <= '9'
  }

  predicate AllDigits(s: string) {
    forall i :: 0 <= i < |s| ==> IsDigit(s[i])
  }

  function DigitValue(c: char): (d: nat)
    requires IsDigit(c)
  {
    c as int - '0' as int
  }

  function DigitChar(d: nat): (c: char)
    requires d < 10
    ensures IsDigit(c) && DigitValue(c) == d
  {
    ('0' as int + d) as char
  }

  /** A decimal numeral in the form a template literal prints a whole number:
      at least one digit, and no leading zero unless the numeral is "0". */
  predicate Canonical(s: string) {
    |s| >= 1 && AllDigits(s) && (s[0] == '0' ==> |s| == 1)
  }

  /** The value of a string of decimal digits, most significant digit first.
      The empty string has value 0, as `Number("")` does. */
  function ParseNat(s: string): (n: nat)
    requires AllDigits(s)
  {
    if s == [] then 0 else ParseNat(s[..|s| - 1]) * 10 + DigitValue(s[|s| - 1])
  }

  /** The decimal numeral of `n`, as a template literal prints it. */
  function NatToString(n: nat): (s: string)
    ensures Canonical(s)
    ensures n < 10 <==> |s| == 1
  {
    if n < 10 then [DigitChar(n)] else NatToString(n / 10) + [DigitChar(n % 10)]
  }

  /** Printing a number and reading it back gives the number. */
  lemma {:induction false} ParseNatToString(n: nat)
    ensures ParseNat(NatToString(n)) == n
  {
    var s := NatToString(n);
    if n >= 10 {
      ParseNatToString(n / 10);
      assert s[..|s| - 1] == NatToString(n / 10);
    }
  }

  /** A numeral that starts with a non-zero digit has a non-zero value. */
  lemma {:induction false} ParseNatPositive(s: string)
    requires |s| >= 1 && AllDigits(s) && s[0] != '0'
    ensures ParseNat(s) >= 1
  {
    if |s| > 1 {
      ParseNatPositive(s[..|s| - 1]);
    }
  }

  /** Reading a canonical numeral and printing its value gives the numeral:
      with `ParseNatToString`, NatToString is a bijection onto canonical numerals. */
  lemma {:induction false} NatToStringParse(s: string)
    requires Canonical(s)
    ensures NatToString(ParseNat(s)) == s
  {
    if |s| > 1 {
      var p := s[..|s| - 1];
      assert Canonical(p);
      ParseNatPositive(p);
      NatToStringParse(p);
      var n := ParseNat(s);
      assert n / 10 == ParseNat(p) && n % 10 == DigitValue(s[|s| - 1]);
    }
  }

  /** The number conversion applied to a colon-separated group: a string of
      ASCII digits (possibly empty) has its decimal value, anything else is NaN
      (None). */
  function Number(group: string): (r: Option<nat>)
    ensures r.Some? <==> AllDigits(group)
  {
    if AllDigits(group) then Some(ParseNat(group)) else None
  }

  // ---------------------------------------------------------------------------
  // split with a one-character separator
  // ---------------------------------------------------------------------------

  /** The position of the first `sep` in `s`, or |s| when there is none. */
  function IndexOf(s: string, sep: char): (i: nat)
    ensures i <= |s|
    ensures forall j :: 0 <= j < i ==> s[j] != sep
    ensures i < |s| ==> s[i] == sep
  {
    if s == [] then 0 else if s[0] == sep then 0 else 1 + IndexOf(s[1..], sep)
  }

  /** `split` with separator `sep`: the maximal pieces of `s` between occurrences of `sep`.
      There is always at least one piece; the empty string splits into [""]. */
  function Split(s: string, sep: char): (parts: seq<string>)
    ensures |parts| >= 1
    decreases |s|
  {
    var i := IndexOf(s, sep);
    if i == |s| then [s] else [s[..i]] + Split(s[i + 1..], sep)
  }

  /** The pieces with `sep` between each two of them; the inverse of Split. */
  function Join(parts: seq<string>, sep: char): (s: string)
    requires |parts| >= 1
  {
    if |parts| == 1 then parts[0] else parts[0] + [sep] + Join(parts[1..], sep)
  }

  /** Joining the pieces gives back the string. */
  lemma {:induction false} JoinSplit(s: string, sep: char)
    ensures Join(Split(s, sep), sep) == s
    decreases |s|
  {
    var i := IndexOf(s, sep);
    if i < |s| {
      SplitStep(s, sep);
      JoinSplit(s[i + 1..], sep);
      JoinCons(s[..i], Split(s[i + 1..], sep), sep);
      Reassemble(s, i);
    }
  }

  lemma SplitStep(s: string, sep: char)
    requires IndexOf(s, sep) < |s|
    ensures Split(s, sep) == [s[..IndexOf(s, sep)]] + Split(s[IndexOf(s, sep) + 1..], sep)
  {
  }

  lemma Reassemble(s: string, i: nat)
    requires i < |s|
    ensures s == s[..i] + [s[i]] + s[i + 1..]
  {
  }

  lemma JoinCons(first: string, parts: seq<string>, sep: char)
    requires |parts| >= 1
    ensures Join([first] + parts, sep) == first + [sep] + Join(parts, sep)
  {
    assert ([first] + parts)[1..] == parts;
  }

  /** No piece holds a separator. */
  lemma {:induction false} SplitPiecesFree(s: string, sep: char)
    ensures forall k :: 0 <= k < |Split(s, sep)| ==> sep !in Split(s, sep)[k]
    decreases |s|
  {
    var i := IndexOf(s, sep);
    assert sep !in s[..i];
    if i < |s| {
      SplitStep(s, sep);
      SplitPiecesFree(s[i + 1..], sep);
    }
  }

  lemma IndexOfAt(s: string, sep: char, k: nat)
    requires k <= |s|
    requires forall j :: 0 <= j < k ==> s[j] != sep
    requires k < |s| ==> s[k] == sep
    ensures IndexOf(s, sep) == k
  {
  }

  /** A string without the separator is a single piece. */
  lemma SplitWhole(a: string, sep: char)
    requires sep !in a
    ensures Split(a, sep) == [a]
  {
    IndexOfAt(a, sep, |a|);
  }

  /** A separator-free prefix followed by the separator is the first piece. */
  lemma SplitFirst(a: string, b: string, sep: char)
    requires sep !in a
    ensures Split(a + [sep] + b, sep) == [a] + Split(b, sep)
  {
    var s := a + [sep] + b;
    assert forall j :: 0 <= j < |a| ==> s[j] == a[j];
    assert s[|a|] == sep;
    IndexOfAt(s, sep, |a|);
    assert s[..|a|] == a && s[|a| + 1..] == b;
  }

  /** Splitting a join of separator-free pieces gives back the pieces. */
  lemma {:induction false} SplitJoin(parts: seq<string>, sep: char)
    requires |parts| >= 1
    requires forall k :: 0 <= k < |parts| ==> sep !in parts[k]
    ensures Split(Join(parts, sep), sep) == parts
  {
    if |parts| == 1 {
      SplitWhole(parts[0], sep);
    } else {
      SplitJoin(parts[1..], sep);
      SplitFirst(parts[0], Join(parts[1..], sep), sep);
      assert [parts[0]] + parts[1..] == parts;
    }
  }

  // ---------------------------------------------------------------------------
  // trim
  // ---------------------------------------------------------------------------

  /** The characters `String.prototype.trim` removes: ECMAScript's WhiteSpace
      (tab, vertical tab, form feed, zero-width no-break space and the Unicode
      space separators) and LineTerminator code points. */
  predicate IsWhiteSpace(c: char) {
    || c == '\t' || c == '\n' || c == '\U{B}' || c == '\U{C}' || c == '\r'
    || c == ' ' || c == '\U{A0}' || c == '\U{1680}'
    || ('\U{2000}' <= c <= '\U{200A}')
    || c == '\U{2028}' || c == '\U{2029}' || c == '\U{202F}' || c == '\U{205F}'
    || c == '\U{3000}' || c == '\U{FEFF}'
  }

  predicate AllWhiteSpace(s: string) {
    forall i :: 0 <= i < |s| ==> IsWhiteSpace(s[i])
  }

  /** `s` with its leading white space removed. */
  function TrimStart(s: string): (r: string)
    ensures |r| <= |s| && r == s[|s| - |r|..]
    ensures forall i :: 0 <= i < |s| - |r| ==> IsWhiteSpace(s[i])
    ensures r == [] || !IsWhiteSpace(r[0])
  {
    if s != [] && IsWhiteSpace(s[0]) then TrimStart(s[1..]) else s
  }

  /** `s` with its trailing white space removed. */
  function TrimEnd(s: string): (r: string)
    ensures |r| <= |s| && r == s[..|r|]
    ensures forall i :: |r| <= i < |s| ==> IsWhiteSpace(s[i])
    ensures r == [] || !IsWhiteSpace(r[|r| - 1])
  {
    if s != [] && IsWhiteSpace(s[|s| - 1]) then TrimEnd(s[..|s| - 1]) else s
  }

  /** `s` with its leading and trailing white space removed, as `trim` does. */
  function Trim(s: string): (r: string)
    ensures r == [] || (!IsWhiteSpace(r[0]) && !IsWhiteSpace(r[|r| - 1]))
  {
    TrimEnd(TrimStart(s))
  }

  lemma {:induction false} TrimStartSkipsWhiteSpace(lead: string, rest: string)
    requires AllWhiteSpace(lead)
    ensures TrimStart(lead + rest) == TrimStart(rest)
  {
    if lead != [] {
      assert (lead + rest)[1..] == lead[1..] + rest;
      TrimStartSkipsWhiteSpace(lead[1..], rest);
    } else {
      assert lead + rest == rest;
    }
  }

  lemma {:induction false} TrimEndSkipsWhiteSpace(rest: string, trail: string)
    requires AllWhiteSpace(trail)
    ensures TrimEnd(rest + trail) == TrimEnd(rest)
  {
    if trail != [] {
      var t := trail[..|trail| - 1];
      assert (rest + trail)[..|rest + trail| - 1] == rest + t;
      TrimEndSkipsWhiteSpace(rest, t);
    } else {
      assert rest + trail == rest;
    }
  }

  lemma TrimStartKeeps(s: string)
    requires s == [] || !IsWhiteSpace(s[0])
    ensures TrimStart(s) == s
  {
  }

  lemma TrimEndKeeps(s: string)
    requires s == [] || !IsWhiteSpace(s[|s| - 1])
    ensures TrimEnd(s) == s
  {
  }

  /** Trim is characterised by what it keeps: whatever white space surrounds a
      core that neither starts nor ends with white space, Trim returns the core. */
  lemma TrimPadded(lead: string, core: string, trail: string)
    requires AllWhiteSpace(lead) && AllWhiteSpace(trail)
    requires core == [] || (!IsWhiteSpace(core[0]) && !IsWhiteSpace(core[|core| - 1]))
    ensures Trim(lead + core + trail) == core
  {
    if core == [] {
      assert lead + core + trail == lead + trail;
      TrimStartSkipsWhiteSpace(lead, trail);
      TrimStartSkipsWhiteSpace(trail, []);
      assert trail + [] == trail;
      TrimStartKeeps([]);
    } else {
      assert lead + core + trail == lead + (core + trail);
      TrimStartSkipsWhiteSpace(lead, core + trail);
      assert (core + trail)[0] == core[0];
      TrimStartKeeps(core + trail);
      TrimEndSkipsWhiteSpace(core, trail);
      TrimEndKeeps(core);
    }
  }
}
