/** String operations the components rely on: JavaScript's `trim`, Python's
    `strip`, upper-casing, splitting on and joining with a separator, and the
    decimal rendering of integers used by template literals and f-strings. */
module Text {

  type String = seq<char>

  /** Characters removed by JavaScript's `String.prototype.trim`: the
      WhiteSpace and LineTerminator productions of ECMA-262. */
  predicate IsJsSpace(c: char) {
    || c == '\t' || c == '\n' || c == '\U{000B}' || c == '\U{000C}' || c == '\r'
    || c == ' ' || c == '\U{00A0}' || c == '\U{1680}'
    || ('\U{2000}' <= c <= '\U{200A}')
    || c == '\U{2028}' || c == '\U{2029}' || c == '\U{202F}' || c == '\U{205F}'
    || c == '\U{3000}' || c == '\U{FEFF}'
  }

  /** Characters for which Python's `str.isspace` holds, and so the ones
      removed by `str.strip()` with no argument. */
  predicate IsPySpace(c: char) {
    || ('\t' <= c <= '\r')
    || ('\U{001C}' <= c <= '\U{001F}')
    || c == ' ' || c == '\U{0085}' || c == '\U{00A0}' || c == '\U{1680}'
    || ('\U{2000}' <= c <= '\U{200A}')
    || c == '\U{2028}' || c == '\U{2029}' || c == '\U{202F}' || c == '\U{205F}'
    || c == '\U{3000}'
  }

  /** Number of characters at the start of `s` that satisfy `isSpace`. */
  function LeadingRun(s: String, isSpace: char -> bool): (n: nat)
    ensures n <= |s|
    ensures forall k :: 0 <= k < n ==> isSpace(s[k])
    ensures n < |s| ==> !isSpace(s[n])
    decreases |s|
  {
    if s == [] || !isSpace(s[0]) then 0 else 1 + LeadingRun(s[1..], isSpace)
  }

  /** Number of characters at the end of `s` that satisfy `isSpace`. */
  function TrailingRun(s: String, isSpace: char -> bool): (n: nat)
    ensures n <= |s|
    ensures forall k :: |s| - n <= k < |s| ==> isSpace(s[k])
    ensures n < |s| ==> !isSpace(s[|s| - 1 - n])
    decreases |s|
  {
    if s == [] || !isSpace(s[|s| - 1]) then 0 else 1 + TrailingRun(s[..|s| - 1], isSpace)
  }

  /** `s` without its leading and trailing `isSpace` characters: the result
      is the slice of `s` that starts and ends with a non-space character and
      leaves only spaces outside it; it is empty exactly when all of `s` is
      space. */
  function Strip(s: String, isSpace: char -> bool): (r: String)
    ensures |r| <= |s|
    ensures r != [] ==> !isSpace(r[0]) && !isSpace(r[|r| - 1])
    ensures r == [] <==> forall k :: 0 <= k < |s| ==> isSpace(s[k])
    ensures LeadingRun(s, isSpace) + |r| <= |s|
    ensures r == s[LeadingRun(s, isSpace)..LeadingRun(s, isSpace) + |r|]
    ensures forall k :: LeadingRun(s, isSpace) + |r| <= k < |s| ==> isSpace(s[k])
  {
    var i := LeadingRun(s, isSpace);
    var rest := s[i..];
    var t := TrailingRun(rest, isSpace);
    var r := rest[..|rest| - t];
    assert r == s[i..i + |r|];
    assert forall k :: i + |r| <= k < |s| ==> s[k] == rest[k - i];
    r
  }

  /** Stripping leaves a string that starts and ends with a non-space
      character as it is. */
  lemma StripUnchanged(s: String, isSpace: char -> bool)
    requires s != [] && !isSpace(s[0]) && !isSpace(s[|s| - 1])
    ensures Strip(s, isSpace) == s
  {
  }

  /** JavaScript `s.trim()`. */
  function JsTrim(s: String): String {
    Strip(s, IsJsSpace)
  }

  /** Python `s.strip()`. */
  function PyStrip(s: String): String {
    Strip(s, IsPySpace)
  }

  /** Upper-cases the ASCII letters `a`..`z` and leaves every other character. */
  function UpperChar(c: char): char {
    if 'a' <= c <= 'z' then (c as int - 32) as char else c
  }

  /** `s.toUpperCase()` in JavaScript and `s.upper()` in Python, over ASCII. */
  function Upper(s: String): String {
    seq(|s|, i requires 0 <= i < |s| => UpperChar(s[i]))
  }

  predicate StartsWith(s: String, prefix: String) {
    |prefix| <= |s| && s[..|prefix|] == prefix
  }

  /** Python `s.endswith(suffix)`: case-sensitive. */
  predicate EndsWith(s: String, suffix: String) {
    |suffix| <= |s| && s[|s| - |suffix|..] == suffix
  }

  /** The parts joined with `sep` between consecutive parts (`parts.join(sep)`
      in JavaScript, `sep.join(parts)` in Python), for a one-character `sep`. */
  function Join(parts: seq<String>, sep: char): String
    decreases |parts|
  {
    if |parts| == 0 then []
    else if |parts| == 1 then parts[0]
    else parts[0] + [sep] + Join(parts[1..], sep)
  }

  /** Index of the first `sep` in `s`. */
  function FirstIndex(s: String, sep: char): (i: nat)
    requires sep in s
    ensures i < |s| && s[i] == sep
    ensures sep !in s[..i]
  {
    if s[0] == sep then 0 else 1 + FirstIndex(s[1..], sep)
  }

  /** Python `s.split(sep)` for a one-character `sep`: the maximal pieces of
      `s` free of `sep`, so that there is always at least one piece (the empty
      string splits into one empty piece). */
  function Split(s: String, sep: char): (parts: seq<String>)
    ensures |parts| >= 1
    ensures forall k :: 0 <= k < |parts| ==> sep !in parts[k]
    decreases |s|
  {
    if sep !in s then [s]
    else
      var i := FirstIndex(s, sep);
      [s[..i]] + Split(s[i + 1..], sep)
  }

  /** Joining the pieces of a split with the same separator gives back the
      string. */
  lemma {:induction false} JoinSplit(s: String, sep: char)
    ensures Join(Split(s, sep), sep) == s
    decreases |s|
  {
    if sep in s {
      var i := FirstIndex(s, sep);
      var tail := Split(s[i + 1..], sep);
      JoinSplit(s[i + 1..], sep);
      assert Split(s, sep) == [s[..i]] + tail;
      assert s == s[..i] + [sep] + s[i + 1..];
    }
  }

  /** The first separator of `a + [sep] + rest` is the one after `a` when `a`
      holds none. */
  lemma FirstIndexAfter(a: String, sep: char, rest: String)
    requires sep !in a
    ensures FirstIndex(a + [sep] + rest, sep) == |a|
    decreases |a|
  {
    var s := a + [sep] + rest;
    if a != [] {
      assert s[1..] == a[1..] + [sep] + rest;
      FirstIndexAfter(a[1..], sep, rest);
    }
  }

  lemma SplitCons(a: String, sep: char, rest: String)
    requires sep !in a
    ensures Split(a + [sep] + rest, sep) == [a] + Split(rest, sep)
  {
    var s := a + [sep] + rest;
    assert s[|a|] == sep;
    FirstIndexAfter(a, sep, rest);
    assert s[..|a|] == a;
    assert s[|a| + 1..] == rest;
  }

  /** A join of non-empty parts starts with the first character of the
      first part and ends with the last character of the last part. */
  lemma {:induction false} JoinEnds(parts: seq<String>, sep: char)
    requires |parts| >= 1
    requires forall k :: 0 <= k < |parts| ==> parts[k] != []
    ensures var j := Join(parts, sep);
            && |j| >= 1
            && j[0] == parts[0][0]
            && j[|j| - 1] == parts[|parts| - 1][|parts[|parts| - 1]| - 1]
    decreases |parts|
  {
    if |parts| > 1 {
      JoinEnds(parts[1..], sep);
    }
  }

  /** Splitting a join of separator-free parts gives back the parts. */
  lemma {:induction false} SplitJoin(parts: seq<String>, sep: char)
    requires |parts| >= 1
    requires forall k :: 0 <= k < |parts| ==> sep !in parts[k]
    ensures Split(Join(parts, sep), sep) == parts
    decreases |parts|
  {
    if |parts| > 1 {
      SplitJoin(parts[1..], sep);
      SplitCons(parts[0], sep, Join(parts[1..], sep));
      assert parts == [parts[0]] + parts[1..];
    }
  }

  predicate IsDigit(c: char) {
    '0' <= c <= '9'
  }

  function DigitChar(d: nat): (c: char)
    requires d < 10
    ensures IsDigit(c)
  {
    ('0' as int + d) as char
  }

  function DigitValue(c: char): (d: nat)
    requires IsDigit(c)
    ensures d < 10
    ensures DigitChar(d) == c
  {
    c as int - '0' as int
  }

  /** The value of a string of decimal digits. */
  function DecimalValue(s: String): nat
    requires forall k :: 0 <= k < |s| ==> IsDigit(s[k])
  {
    if s == [] then 0 else 10 * DecimalValue(s[..|s| - 1]) + DigitValue(s[|s| - 1])
  }

  /** The decimal numeral of `n` (`String(n)` in JavaScript, `str(n)` in
      Python): digits only, no leading zero, and reading it back gives `n`. */
  function NatToString(n: nat): (r: String)
    ensures |r| >= 1
    ensures forall k :: 0 <= k < |r| ==> IsDigit(r[k])
    ensures |r| > 1 ==> r[0] != '0'
    ensures DecimalValue(r) == n
  {
    if n < 10 then [DigitChar(n)]
    else
      var r := NatToString(n / 10) + [DigitChar(n % 10)];
      assert r[..|r| - 1] == NatToString(n / 10);
      r
  }

  /** A numeral as `String(n)` writes one: at least one digit, digits only,
      and no leading zero unless it is the numeral of zero. */
  predicate Numeral(s: String) {
    && |s| >= 1
    && (forall k :: 0 <= k < |s| ==> IsDigit(s[k]))
    && (|s| > 1 ==> s[0] != '0')
  }

  /** Every number has exactly one numeral: a numeral that reads as `n` is
      the numeral of `n`. */
  lemma {:induction false} NumeralUnique(s: String, n: nat)
    requires Numeral(s) && DecimalValue(s) == n
    ensures s == NatToString(n)
    decreases |s|
  {
    var last := s[|s| - 1];
    if |s| == 1 {
      assert n == DigitValue(last);
    } else {
      var p := s[..|s| - 1];
      assert p[0] == s[0];
      assert n == 10 * DecimalValue(p) + DigitValue(last);
      NumeralUnique(p, n / 10);
      assert n >= 10;
      assert s == p + [last];
    }
  }

  /** The decimal numeral of an integer, with a leading `-` when negative. */
  function IntToString(i: int): (r: String)
    ensures |r| >= 1
    ensures i < 0 <==> r[0] == '-'
  {
    if i < 0 then "-" + NatToString(-i) else NatToString(i)
  }
}
