/**
 * The pieces of Python's string and integer behaviour that the bot's handlers rely on:
 * `str.isspace`/`str.strip`, `str.split` on one character, `str(int)`, zero-padded
 * `strftime` fields and `int(str)`. Only ASCII digits are modelled.
 */
module Text {
  import opened Wrappers

  /** `c.isspace()`: the characters Python's argument-less `str.strip()` removes. */
  predicate IsSpace(c: char) {
    ('\t' <= c <= '\r') || ('\U{1c}' <= c <= '\U{1f}') || c == ' ' || c == '\U{85}'
    || c == '\U{a0}' || c == '\U{1680}' || ('\U{2000}' <= c <= '\U{200a}') || c == '\U{2028}'
    || c == '\U{2029}' || c == '\U{202f}' || c == '\U{205f}' || c == '\U{3000}'
  }

  predicate NoSpace(s: string) {
    forall i :: 0 <= i < |s| ==> !IsSpace(s[i])
  }

  /** The index of the first character at or after `i` that is not white space, or `|s|`. */
  function SkipSpaces(s: string, i: nat): (a: nat)
    requires i <= |s|
    ensures i <= a <= |s|
    ensures forall j :: i <= j < a ==> IsSpace(s[j])
    ensures a == |s| || !IsSpace(s[a])
    decreases |s| - i
  {
    if i < |s| && IsSpace(s[i]) then SkipSpaces(s, i + 1) else i
  }

  /** Where `s[..b]` ends once its trailing white space is cut off. */
  function SkipSpacesBack(s: string, b: nat): (e: nat)
    requires b <= |s|
    ensures e <= b
    ensures forall j :: e <= j < b ==> IsSpace(s[j])
    ensures e == 0 || !IsSpace(s[e - 1])
  {
    if b > 0 && IsSpace(s[b - 1]) then SkipSpacesBack(s, b - 1) else b
  }

  /** `s.lstrip()`. */
  function TrimStart(s: string): (r: string)
    ensures |r| <= |s| && r == s[|s| - |r|..]
    ensures forall i :: 0 <= i < |s| - |r| ==> IsSpace(s[i])
    ensures r == [] || !IsSpace(r[0])
  {
    s[SkipSpaces(s, 0)..]
  }

  /** `s.strip()`: the text between the leading and the trailing white space. */
  function Strip(s: string): (r: string)
    ensures |r| <= |s|
    ensures r == [] || (!IsSpace(r[0]) && !IsSpace(r[|r| - 1]))
    ensures NoSpace(s) ==> r == s
    ensures r == [] <==> forall i :: 0 <= i < |s| ==> IsSpace(s[i])
  {
    var a := SkipSpaces(s, 0);
    if a == |s| then [] else s[a..SkipSpacesBack(s, |s|)]
  }

  /** Where the stripped text sits inside the text: after the `k` leading spaces, and followed by spaces only. */
  lemma StripShape(text: string)
    ensures var k := SkipSpaces(text, 0); var r := Strip(text);
      && k + |r| <= |text|
      && (forall j :: k <= j < k + |r| ==> text[j] == r[j - k])
      && (forall i :: 0 <= i < k ==> IsSpace(text[i]))
      && (forall i :: k + |r| <= i < |text| ==> IsSpace(text[i]))
  {
    var k := SkipSpaces(text, 0);
    if k < |text| {
      var e := SkipSpacesBack(text, |text|);
      assert Strip(text) == text[k..e];
    }
  }

  // ---------------------------------------------------------------- digits

  predicate IsDigit(c: char) {
    '0' <= c <= '9'
  }

  predicate AllDigits(s: string) {
    forall i :: 0 <= i < |s| ==> IsDigit(s[i])
  }

  function DigitValue(c: char): (n: nat)
    requires IsDigit(c)
    ensures n < 10
  {
    c as int - '0' as int
  }

  function DigitChar(n: nat): (c: char)
    requires n < 10
    ensures IsDigit(c) && DigitValue(c) == n
  {
    ('0' as int + n) as char
  }

  /** The number a string of decimal digits denotes, most significant digit first. */
  function DigitsValue(s: string): nat
    requires AllDigits(s)
  {
    if s == [] then 0 else DigitsValue(s[..|s| - 1]) * 10 + DigitValue(s[|s| - 1])
  }

  /** `str(n)` for a non-negative `int`: decimal digits without leading zeros. */
  function NatToString(n: nat): (r: string)
    ensures |r| >= 1 && AllDigits(r)
    ensures DigitsValue(r) == n
    ensures r[0] == '0' ==> r == "0"
  {
    if n < 10 then [DigitChar(n)]
    else
      var r := NatToString(n / 10) + [DigitChar(n % 10)];
      assert r[..|r| - 1] == NatToString(n / 10);
      r
  }

  /** `str(i)` for any `int`. */
  function IntToString(i: int): (r: string)
  {
    if i < 0 then "-" + NatToString(-i) else NatToString(i)
  }

  /** An f-string field holding a `str` or `None`. */
  function OptionText(o: Option<string>): (r: string)
    ensures o.Some? ==> r == o.value
    ensures o.None? ==> r == "None"
  {
    match o
    case Some(s) => s
    case None => "None"
  }

  function Pow10(w: nat): (p: nat)
    ensures p >= 1
  {
    if w == 0 then 1 else 10 * Pow10(w - 1)
  }

  /** `n` written with exactly `w` decimal digits, zero-padded: strftime's `%02d`/`%04d` fields. */
  function ZeroPad(n: nat, w: nat): (r: string)
    requires n < Pow10(w)
    ensures |r| == w && AllDigits(r)
    ensures DigitsValue(r) == n
  {
    if w == 0 then ""
    else
      var r := ZeroPad(n / 10, w - 1) + [DigitChar(n % 10)];
      assert r[..|r| - 1] == ZeroPad(n / 10, w - 1);
      r
  }

  // ---------------------------------------------------------------- int()

  /** Python's `digitpart`: digits, where single underscores may separate two digits. */
  predicate IsDigitPart(s: string) {
    && |s| > 0 && IsDigit(s[0]) && IsDigit(s[|s| - 1])
    && (forall i :: 0 <= i < |s| ==> IsDigit(s[i]) || s[i] == '_')
    && (forall i :: 0 <= i < |s| - 1 ==> !DoubleUnderscoreAt(s, i))
  }

  predicate DoubleUnderscoreAt(s: string, i: nat)
    requires i + 1 < |s|
  {
    s[i] == '_' && s[i + 1] == '_'
  }

  function DropUnderscores(s: string): (r: string)
    requires forall i :: 0 <= i < |s| ==> IsDigit(s[i]) || s[i] == '_'
    ensures AllDigits(r)
    ensures AllDigits(s) ==> r == s
  {
    if s == [] then []
    else
      var init := DropUnderscores(s[..|s| - 1]);
      if s[|s| - 1] == '_' then init else init + [s[|s| - 1]]
  }

  function DigitPartValue(s: string): nat
    requires IsDigitPart(s)
  {
    DigitsValue(DropUnderscores(s))
  }

  /**
   * `int(s)` on a `str` in base 10: surrounding whitespace, an optional sign and a digit part.
   * None stands for the ValueError Python raises.
   */
  function ParseInt(s: string): (r: Option<int>)
  {
    ParseSigned(Strip(s))
  }

  /** An optional sign followed by a digit part, with nothing around it. */
  function ParseSigned(t: string): (r: Option<int>)
  {
    if |t| > 0 && (t[0] == '+' || t[0] == '-') then
      if IsDigitPart(t[1..]) then
        var v: int := DigitPartValue(t[1..]);
        Some(if t[0] == '-' then -v else v)
      else None
    else if IsDigitPart(t) then Some(DigitPartValue(t))
    else None
  }

  lemma DigitsHaveNoSpace(d: string)
    requires AllDigits(d)
    ensures NoSpace(d)
  {
    forall k | 0 <= k < |d| ensures !IsSpace(d[k]) {
      assert IsDigit(d[k]);
    }
  }

  lemma DigitsAreDigitPart(d: string)
    requires AllDigits(d) && d != []
    ensures IsDigitPart(d) && DigitPartValue(d) == DigitsValue(d)
  {
    forall i | 0 <= i < |d| - 1 ensures !DoubleUnderscoreAt(d, i) {
      assert IsDigit(d[i]);
    }
  }

  /** `int(str(i)) == i`. */
  lemma ParseIntRoundTrip(i: int)
    ensures ParseInt(IntToString(i)) == Some(i)
  {
    if i < 0 {
      ParseNegative(NatToString(-i));
    } else {
      ParseDigits(NatToString(i));
    }
  }

  /** `int(d)` for a plain string of digits (leading zeros allowed). */
  lemma ParseDigits(d: string)
    requires AllDigits(d) && d != []
    ensures ParseInt(d) == Some(DigitsValue(d))
  {
    assert IsDigit(d[0]) && IsDigit(d[|d| - 1]);
    StripKeeps(d);
    SignedDigits(d);
  }

  lemma SignedDigits(d: string)
    requires AllDigits(d) && d != []
    ensures ParseSigned(d) == Some(DigitsValue(d))
  {
    assert IsDigit(d[0]);
    DigitsAreDigitPart(d);
  }

  lemma ParseNegative(d: string)
    requires AllDigits(d) && d != []
    ensures ParseInt("-" + d) == Some(-(DigitsValue(d) as int))
  {
    NegativeStrips(d);
    SignedNegative(d);
  }

  lemma SignedNegative(d: string)
    requires AllDigits(d) && d != []
    ensures ParseSigned("-" + d) == Some(-(DigitsValue(d) as int))
  {
    var s := "-" + d;
    assert s[1..] == d;
    DigitsAreDigitPart(d);
  }

  lemma NegativeStrips(d: string)
    requires AllDigits(d) && d != []
    ensures Strip("-" + d) == "-" + d
  {
    var s := "-" + d;
    assert s[|s| - 1] == d[|d| - 1];
    StripKeeps(s);
  }

  /** A string that neither starts nor ends with whitespace is its own `strip()`. */
  lemma StripKeeps(s: string)
    requires s != [] && !IsSpace(s[0]) && !IsSpace(s[|s| - 1])
    ensures Strip(s) == s
  {
    assert SkipSpaces(s, 0) == 0;
    assert SkipSpacesBack(s, |s|) == |s|;
  }

  lemma TrimStartKeeps(s: string)
    requires s != [] && !IsSpace(s[0])
    ensures TrimStart(s) == s
  {
    assert SkipSpaces(s, 0) == 0;
  }

  // ---------------------------------------------------------------- split / join

  /** `sep.join(parts)` for a one-character separator. */
  function Join(parts: seq<string>, sep: char): string
    requires |parts| >= 1
  {
    if |parts| == 1 then parts[0] else parts[0] + [sep] + Join(parts[1..], sep)
  }

  /** `s.split(sep)` for a one-character separator: the pieces between separators. */
  function Split(s: string, sep: char): (parts: seq<string>)
    ensures |parts| >= 1
    ensures forall i :: 0 <= i < |parts| ==> sep !in parts[i]
    ensures Join(parts, sep) == s
    decreases |s|
  {
    if s == [] then [[]]
    else
      var rest := Split(s[1..], sep);
      if s[0] == sep then
        var parts := [[]] + rest;
        assert parts[1..] == rest;
        parts
      else
        var parts := [[s[0]] + rest[0]] + rest[1..];
        assert |rest| > 1 ==> Join(rest, sep) == rest[0] + [sep] + Join(rest[1..], sep);
        assert |rest| > 1 ==> parts[1..] == rest[1..];
        assert [s[0]] + s[1..] == s;
        parts
  }

  /** Splitting a string that starts with a separator-free piece and a separator. */
  lemma {:induction false} SplitAfterPiece(a: string, sep: char, t: string)
    requires sep !in a
    ensures Split(a + [sep] + t, sep) == [a] + Split(t, sep)
    decreases |a|
  {
    if a == [] {
      assert [] + [sep] + t == [sep] + t;
      assert ([sep] + t)[1..] == t;
    } else {
      var s := a + [sep] + t;
      assert s[0] == a[0] != sep;
      assert s[1..] == a[1..] + [sep] + t;
      SplitAfterPiece(a[1..], sep, t);
      var rest := Split(s[1..], sep);
      assert rest[0] == a[1..] && rest[1..] == Split(t, sep);
      assert Split(s, sep) == [[a[0]] + rest[0]] + rest[1..];
      assert [a[0]] + a[1..] == a;
    }
  }

  lemma {:induction false} SplitNoSeparator(a: string, sep: char)
    requires sep !in a
    ensures Split(a, sep) == [a]
    decreases |a|
  {
    if a != [] {
      SplitNoSeparator(a[1..], sep);
      assert [a[0]] + a[1..] == a;
    }
  }

  /** `sep.join(parts).split(sep) == parts` when no part holds the separator. */
  lemma {:induction false} SplitJoin(parts: seq<string>, sep: char)
    requires |parts| >= 1
    requires forall i :: 0 <= i < |parts| ==> sep !in parts[i]
    ensures Split(Join(parts, sep), sep) == parts
    decreases |parts|
  {
    if |parts| == 1 {
      SplitNoSeparator(parts[0], sep);
    } else {
      SplitJoin(parts[1..], sep);
      SplitAfterPiece(parts[0], sep, Join(parts[1..], sep));
    }
  }
}
