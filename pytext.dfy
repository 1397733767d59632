/**
 * The Python string built-ins that the game's timer display and track file
 * rely on: `str` of an integer, `int` of a string, `str.strip`,
 * `str.split` with a one-character separator and `readlines` of a file's text.
 */
module PyText {
  import opened Wrappers

  /**
   * `c.isspace()`: the characters `str.strip()` removes. `int()` skips the
   * same ones around the number except the information separators, which
   * it rejects (IsInfoSeparator).
   */
  predicate IsSpace(c: char) {
    || c == ' '
    || '\t' <= c <= '\r'
    || '\U{1c}' <= c <= '\U{1f}'
    || c == '\U{85}' || c == '\U{a0}' || c == '\U{1680}'
    || '\U{2000}' <= c <= '\U{200a}'
    || c == '\U{2028}' || c == '\U{2029}' || c == '\U{202f}' || c == '\U{205f}' || c == '\U{3000}'
  }

  predicate IsDigit(c: char) {
    '0' <= c <= '9'
  }

  predicate AllDigits(s: string) {
    forall i :: 0 <= i < |s| ==> IsDigit(s[i])
  }

  function DigitChar(d: nat): (c: char)
    requires d < 10
    ensures IsDigit(c) && c as int - '0' as int == d
  {
    ('0' as int + d) as char
  }

  /** `str(n)` for n >= 0: the decimal digits of n, most significant first. */
  function NatToString(n: nat): (s: string)
    ensures 1 <= |s| && AllDigits(s)
    ensures (|s| == 1) == (n < 10)
    ensures (s[0] == '0') == (n == 0)
    decreases n
  {
    if n < 10 then [DigitChar(n)]
    else
      var high := NatToString(n / 10);
      assert (high + [DigitChar(n % 10)])[0] == high[0];
      high + [DigitChar(n % 10)]
  }

  /** `str(n)`: a minus sign before the digits of a negative number. */
  function IntToString(n: int): (s: string)
    ensures 1 <= |s| && (s[0] == '-' || IsDigit(s[0])) && IsDigit(s[|s| - 1])
    ensures (s[0] == '-') == (n < 0)
    ensures var digits := if n < 0 then s[1..] else s;
      1 <= |digits| && AllDigits(digits) && (digits[0] == '0') == (n == 0)
  {
    if n < 0 then "-" + NatToString(-n) else NatToString(n)
  }

  /** The number a string of decimal digits denotes. */
  function DigitsValue(s: string): (v: nat)
    requires AllDigits(s)
  {
    if s == [] then 0 else DigitsValue(s[..|s| - 1]) * 10 + (s[|s| - 1] as int - '0' as int)
  }

  /**
   * `int(s)`: surrounding whitespace is ignored, then an optional sign and
   * one or more decimal digits; anything else raises ValueError (None here).
   */
  function ParseInt(s: string): (r: Option<int>)
    ensures r.Some? ==> NoInfoSeparator(s) && Numeral(Strip(s))
    ensures r.Some? && r.value < 0 ==> Strip(s)[0] == '-'
  {
    if NoInfoSeparator(s) then ParseSigned(Strip(s)) else None
  }

  /**
   * U+001C..U+001F: whitespace to `isspace()` and `strip()`, but not to the
   * ASCII table `int()` skips, so `int()` raises on any of them.
   */
  predicate IsInfoSeparator(c: char) {
    '\U{1c}' <= c <= '\U{1f}'
  }

  predicate NoInfoSeparator(s: string) {
    forall i :: 0 <= i < |s| ==> !IsInfoSeparator(s[i])
  }

  /** An optional sign, then one or more decimal digits. */
  predicate Numeral(t: string) {
    && |t| > 0
    && (IsDigit(t[0]) || ((t[0] == '-' || t[0] == '+') && |t| > 1))
    && forall i :: 0 < i < |t| ==> IsDigit(t[i])
  }

  /** `int` of text already stripped: defined exactly on numerals. */
  function ParseSigned(t: string): (r: Option<int>)
    ensures r.Some? <==> Numeral(t)
  {
    assert forall i :: 0 < i < |t| ==> t[1..][i - 1] == t[i];
    if |t| > 0 && (t[0] == '-' || t[0] == '+') then
      if |t| > 1 && AllDigits(t[1..]) then
        Some(if t[0] == '-' then -(DigitsValue(t[1..]) as int) else DigitsValue(t[1..]))
      else None
    else if |t| > 0 && AllDigits(t) then Some(DigitsValue(t))
    else None
  }

  /** r is s without a prefix that is all whitespace, and r does not start with any. */
  predicate LeftStripped(s: string, r: string) {
    && |r| <= |s| && r == s[|s| - |r|..]
    && (forall i :: 0 <= i < |s| - |r| ==> IsSpace(s[i]))
    && (|r| > 0 ==> !IsSpace(r[0]))
  }

  /** r is s without a suffix that is all whitespace, and r does not end with any. */
  predicate RightStripped(s: string, r: string) {
    && |r| <= |s| && r == s[..|r|]
    && (forall i :: |r| <= i < |s| ==> IsSpace(s[i]))
    && (|r| > 0 ==> !IsSpace(r[|r| - 1]))
  }

  /** `s.lstrip()`: the removed prefix is all whitespace and what is left does not start with any. */
  function StripLeft(s: string): (r: string)
    ensures LeftStripped(s, r)
    decreases |s|
  {
    if |s| > 0 && IsSpace(s[0]) then
      var r := StripLeft(s[1..]);
      assert s[1..][|s| - 1 - |r|..] == s[|s| - |r|..];
      assert forall i :: 1 <= i < |s| - |r| ==> s[i] == s[1..][i - 1];
      r
    else s
  }

  /** `s.rstrip()`: the removed suffix is all whitespace and what is left does not end with any. */
  function StripRight(s: string): (r: string)
    ensures RightStripped(s, r)
    decreases |s|
  {
    if |s| > 0 && IsSpace(s[|s| - 1]) then
      var r := StripRight(s[..|s| - 1]);
      assert s[..|s| - 1][..|r|] == s[..|r|];
      assert forall i :: |r| <= i < |s| - 1 ==> s[i] == s[..|s| - 1][i];
      r
    else s
  }

  /**
   * r is the piece s[k..k + |r|], everything before and after it is
   * whitespace, and it neither starts nor ends with any.
   */
  predicate Trimmed(s: string, k: int, r: string) {
    && 0 <= k && k + |r| <= |s| && r == s[k..k + |r|]
    && (forall i :: 0 <= i < k ==> IsSpace(s[i]))
    && (forall i :: k + |r| <= i < |s| ==> IsSpace(s[i]))
    && (|r| > 0 ==> !IsSpace(r[0]) && !IsSpace(r[|r| - 1]))
  }

  /** `s.strip()`: s with its leading and trailing whitespace removed. */
  function Strip(s: string): (r: string)
    ensures Trimmed(s, |s| - |StripLeft(s)|, r)
  {
    var t := StripLeft(s);
    var r := StripRight(t);
    StripBothEnds(s, t, r);
    r
  }

  /** Removing whitespace from the front and then from the back leaves a contiguous piece of s. */
  lemma StripBothEnds(s: string, t: string, r: string)
    requires LeftStripped(s, t) && RightStripped(t, r)
    ensures Trimmed(s, |s| - |t|, r)
  {
    var k := |s| - |t|;
    forall i | k + |r| <= i < |s|
      ensures IsSpace(s[i])
    {
      assert s[i] == t[i - k];
    }
    if |r| > 0 {
      assert r[0] == t[0];
    }
  }

  /** `sep.join(parts)`: the reference against which Split is stated. */
  function Join(parts: seq<string>, sep: char): (s: string)
    requires |parts| >= 1
  {
    if |parts| == 1 then parts[0] else parts[0] + [sep] + Join(parts[1..], sep)
  }

  /**
   * `s.split(sep)`: the pieces between separators, at least one (the empty
   * string splits into one empty piece), none containing the separator.
   */
  function Split(s: string, sep: char): (parts: seq<string>)
    ensures |parts| >= 1
    ensures forall i :: 0 <= i < |parts| ==> sep !in parts[i]
    decreases |s|
  {
    if |s| == 0 then [""]
    else
      var rest := Split(s[1..], sep);
      if s[0] == sep then [""] + rest
      else [[s[0]] + rest[0]] + rest[1..]
  }

  /** Concatenation of all the strings of a list. */
  function Concat(lines: seq<string>): (s: string) {
    if lines == [] then "" else lines[0] + Concat(lines[1..])
  }

  /**
   * `f.readlines()` on the text of a file: every line keeps the '\n' that
   * ends it and a last line without one is kept too, so that nothing is lost
   * (ReadLinesLossless).
   */
  function ReadLines(s: string): (lines: seq<string>)
    ensures forall i :: 0 <= i < |lines| ==> lines[i] != []
    decreases |s|
  {
    if |s| == 0 then []
    else
      var rest := ReadLines(s[1..]);
      if s[0] == '\n' || rest == [] then [[s[0]]] + rest
      else [[s[0]] + rest[0]] + rest[1..]
  }

  lemma {:induction false} NatToStringValue(n: nat)
    ensures DigitsValue(NatToString(n)) == n
    decreases n
  {
    if n >= 10 {
      NatToStringValue(n / 10);
      var s := NatToString(n);
      assert s[..|s| - 1] == NatToString(n / 10);
    }
  }

  /** A string that neither starts nor ends with whitespace is its own strip. */
  lemma StripUnpadded(s: string)
    requires |s| > 0 && !IsSpace(s[0]) && !IsSpace(s[|s| - 1])
    ensures Strip(s) == s
  {
  }

  /** `int(str(n)) == n` for every integer n. */
  lemma ParseIntToString(n: int)
    ensures ParseInt(IntToString(n)) == Some(n)
  {
    var s, d := IntToString(n), NatToString(if n < 0 then -n else n);
    NatToStringValue(if n < 0 then -n else n);
    if n < 0 {
      assert s == "-" + d;
      ParseNegative(s, d, n);
    } else {
      assert s == d;
      ParseDigits(d);
    }
  }

  /** Decimal digits parse as the number they denote. */
  lemma ParseDigits(d: string)
    requires |d| > 0 && AllDigits(d)
    ensures ParseInt(d) == Some(DigitsValue(d))
  {
    StripUnpadded(d);
    assert NoInfoSeparator(d);
    assert ParseSigned(d) == Some(DigitsValue(d));
  }

  /** A minus sign before decimal digits parses as the negated number. */
  lemma ParseNegative(s: string, d: string, n: int)
    requires |d| > 0 && AllDigits(d) && s == "-" + d && n == -(DigitsValue(d) as int)
    ensures ParseInt(s) == Some(n)
  {
    StripUnpadded(s);
    assert NoInfoSeparator(s) by {
      assert forall i :: 0 < i < |s| ==> s[i] == d[i - 1];
    }
    SignedNegative(d);
  }

  /** `strip()` removes a leading information separator, yet `int()` of the same text raises. */
  lemma InfoSeparatorRejected(s: string)
    requires s == ['\U{1c}', '5']
    ensures Strip(s) == "5" && ParseInt(s).None?
  {
    assert IsSpace(s[0]) && s[1..] == "5";
    StripUnpadded("5");
    assert IsInfoSeparator(s[0]);
  }

  /** Past the strip, a minus sign before decimal digits reads as the negated number. */
  lemma SignedNegative(d: string)
    requires |d| > 0 && AllDigits(d)
    ensures ParseSigned("-" + d) == Some(-(DigitsValue(d) as int))
  {
    assert ("-" + d)[1..] == d;
  }

  /** Splitting text that starts with a piece free of the separator puts that piece in front of the first part. */
  lemma {:induction false} SplitPrefix(a: string, t: string, sep: char)
    requires sep !in a
    ensures Split(a + t, sep) == [a + Split(t, sep)[0]] + Split(t, sep)[1..]
    decreases |a|
  {
    var parts := Split(t, sep);
    if a == [] {
      assert a + t == t;
      assert a + parts[0] == parts[0];
      assert [parts[0]] + parts[1..] == parts;
    } else {
      SplitPrefix(a[1..], t, sep);
      assert (a + t)[1..] == a[1..] + t;
      assert (a + t)[0] == a[0] != sep;
      var rest := Split(a[1..] + t, sep);
      assert rest[0] == a[1..] + parts[0];
      assert [a[0]] + rest[0] == a + parts[0];
    }
  }

  /** Joining the parts of a split with the same separator gives back the text. */
  lemma {:induction false} JoinSplit(s: string, sep: char)
    ensures Join(Split(s, sep), sep) == s
    decreases |s|
  {
    if |s| > 0 {
      var rest := Split(s[1..], sep);
      JoinSplit(s[1..], sep);
      if s[0] == sep {
        assert Split(s, sep) == [""] + rest;
      } else {
        assert Split(s, sep) == [[s[0]] + rest[0]] + rest[1..];
        if |rest| > 1 {
          assert Join(rest, sep) == rest[0] + [sep] + Join(rest[1..], sep);
        }
      }
    }
  }

  /** Split undoes Join when no part contains the separator. */
  lemma {:induction false} SplitJoin(parts: seq<string>, sep: char)
    requires |parts| >= 1
    requires forall i :: 0 <= i < |parts| ==> sep !in parts[i]
    ensures Split(Join(parts, sep), sep) == parts
    decreases |parts|
  {
    if |parts| == 1 {
      SplitPrefix(parts[0], "", sep);
      assert parts[0] + "" == parts[0];
      assert Split("", sep) == [""];
    } else {
      var rest := Join(parts[1..], sep);
      SplitJoin(parts[1..], sep);
      SplitPrefix(parts[0], [sep] + rest, sep);
      assert Join(parts, sep) == parts[0] + ([sep] + rest);
      assert ([sep] + rest)[0] == sep && ([sep] + rest)[1..] == rest;
      assert Split([sep] + rest, sep) == [""] + parts[1..];
      assert parts[0] + "" == parts[0];
      assert [parts[0]] + parts[1..] == parts;
    }
  }

  /** Reading lines loses nothing: the lines put together again are the text. */
  lemma {:induction false} ReadLinesLossless(s: string)
    ensures Concat(ReadLines(s)) == s
    decreases |s|
  {
    if |s| > 0 {
      var rest := ReadLines(s[1..]);
      ReadLinesLossless(s[1..]);
      if s[0] == '\n' || rest == [] {
        assert ReadLines(s) == [[s[0]]] + rest;
        assert ([[s[0]]] + rest)[1..] == rest;
      } else {
        var lines := [[s[0]] + rest[0]] + rest[1..];
        assert ReadLines(s) == lines;
        assert lines[1..] == rest[1..];
        assert Concat(rest) == rest[0] + Concat(rest[1..]);
      }
    }
  }

  /** Every line but the last ends with '\n', and no line holds a '\n' before its end. */
  predicate LinesEndAtNewlines(lines: seq<string>) {
    && (forall i :: 0 <= i < |lines| ==> lines[i] != [] && '\n' !in lines[i][..|lines[i]| - 1])
    && (forall i :: 0 <= i < |lines| - 1 ==> lines[i][|lines[i]| - 1] == '\n')
  }

  /** `readlines` cuts the text right after each '\n' and nowhere else. */
  lemma {:induction false} ReadLinesShape(s: string)
    ensures LinesEndAtNewlines(ReadLines(s))
    decreases |s|
  {
    if |s| > 0 {
      var rest := ReadLines(s[1..]);
      ReadLinesShape(s[1..]);
      if s[0] == '\n' || rest == [] {
        NewLineInFront(s[0], rest, ReadLines(s));
      } else {
        CharInFront(s[0], rest, ReadLines(s));
      }
    }
  }

  /** A '\n', or the last character, read as a line of its own in front of the other lines. */
  lemma NewLineInFront(c: char, rest: seq<string>, lines: seq<string>)
    requires LinesEndAtNewlines(rest) && (c == '\n' || rest == []) && lines == [[c]] + rest
    ensures LinesEndAtNewlines(lines)
  {
    assert forall i :: 1 <= i < |lines| ==> lines[i] == rest[i - 1];
  }

  /** A character other than '\n' glued to the front of the first line. */
  lemma CharInFront(c: char, rest: seq<string>, lines: seq<string>)
    requires LinesEndAtNewlines(rest) && c != '\n' && rest != [] && lines == [[c] + rest[0]] + rest[1..]
    ensures LinesEndAtNewlines(lines)
  {
    var first, first0 := lines[0], rest[0];
    assert first[..|first| - 1] == [c] + first0[..|first0| - 1];
    assert first[|first| - 1] == first0[|first0| - 1];
    assert forall i :: 1 <= i < |lines| ==> lines[i] == rest[i];
  }

  /** Text without a '\n' reads as one line: a last line needs no newline. */
  lemma {:induction false} ReadLinesOneLine(s: string)
    requires s != [] && '\n' !in s
    ensures ReadLines(s) == [s]
    decreases |s|
  {
    if |s| == 1 {
      assert s[1..] == [] && [s[0]] == s;
    } else {
      ReadLinesOneLine(s[1..]);
      assert s[0] != '\n';
      assert [s[0]] + s[1..] == s;
    }
  }

  /** Reading lines from text that starts with a line free of '\n' yields that line first. */
  lemma {:induction false} ReadLinesPrefix(a: string, t: string)
    requires '\n' !in a
    ensures ReadLines(a + "\n" + t) == [a + "\n"] + ReadLines(t)
    decreases |a|
  {
    var s := a + "\n" + t;
    if a == [] {
      assert s == "\n" + t;
      assert s[0] == '\n' && s[1..] == t;
    } else {
      ReadLinesPrefix(a[1..], t);
      assert s[1..] == a[1..] + "\n" + t;
      assert s[0] == a[0] != '\n';
      var rest := ReadLines(s[1..]);
      assert rest == [a[1..] + "\n"] + ReadLines(t);
      assert [s[0]] + rest[0] == a + "\n";
    }
  }
}
