/**
 * The lap clock display of the racing game: `format_time` turns a time in
 * milliseconds into minutes, seconds and hundredths.
 */
module Timer {
  import opened Wrappers
  import opened PyText
  import opened Arith

  /** A time in milliseconds, or Python's `float('inf')` for "no lap yet". */
  datatype Time = Finite(ms: int) | Infinity

  /** What the display shows for a time it cannot format. */
  const Placeholder: string := "--:--:--"

  /** `f"{n:02}"`: the decimal digits of n, padded with zeros to at least two. */
  function Pad2(n: nat): (s: string)
    ensures |s| >= 2 && AllDigits(s) && ParseInt(s) == Some(n)
    ensures (|s| == 2) == (n < 100)
    ensures (s[0] == '0') == (n < 10)
  {
    var d := NatToString(n);
    NatToStringValue(n);
    if |d| < 2 then
      var s := "0" + d;
      LeadingZero(d);
      ParseDigits(s);
      s
    else
      ParseDigits(d);
      d
  }

  /** A zero in front of a single digit keeps its value. */
  lemma LeadingZero(d: string)
    requires |d| == 1 && AllDigits(d)
    ensures AllDigits("0" + d) && DigitsValue("0" + d) == DigitsValue(d)
  {
    var s := "0" + d;
    assert s[..|s| - 1] == "0" && s[|s| - 1] == d[0];
    assert d[..0] == [];
  }

  /**
   * `format_time(ms)`: the placeholder exactly when the time is infinite or
   * negative, otherwise `MM:SS:hh`.
   */
  function FormatTime(t: Time): (s: string)
    ensures s == Placeholder <==> t.Infinity? || t.ms < 0
  {
    if t.Infinity? || t.ms < 0 then Placeholder
    else
      var s := Pad2(t.ms / 60000) + ":" + Pad2((t.ms / 1000) % 60) + ":" + Pad2((t.ms / 10) % 100);
      assert IsDigit(s[0]) && !IsDigit(Placeholder[0]);
      s
  }

  /** The three display fields put back together give the time, cut down to hundredths. */
  lemma ClockFields(ms: nat)
    ensures (ms / 60000) * 60000 + ((ms / 1000) % 60) * 1000 + ((ms / 10) % 100) * 10 == ms - ms % 10
  {
    var a, r := ms / 60000, ms % 60000;
    var b, c := r / 1000, r % 1000;
    var e, f := c / 10, c % 10;
    assert r == b * 1000 + c && c == e * 10 + f;
    assert b < 60 && e < 100;
    DivUnique(ms, 1000, a * 60 + b, c);
    DivUnique(a * 60 + b, 60, a, b);
    DivUnique(ms, 10, a * 6000 + b * 100 + e, f);
    DivUnique(a * 6000 + b * 100 + e, 100, a * 60 + b, e);
  }

  /**
   * A formatted time reads back: split at ':' it has three fields, each
   * parsing as an integer; seconds and hundredths are two digits and in range,
   * and minutes, seconds and hundredths together give back the time cut down
   * to hundredths.
   */
  lemma FormatTimeReadsBack(ms: nat)
    ensures var parts := Split(FormatTime(Finite(ms)), ':');
      && |parts| == 3 && |parts[0]| >= 2 && |parts[1]| == 2 && |parts[2]| == 2
      && ParseInt(parts[0]).Some? && ParseInt(parts[1]).Some? && ParseInt(parts[2]).Some?
      && var m, s, h := ParseInt(parts[0]).value, ParseInt(parts[1]).value, ParseInt(parts[2]).value;
        0 <= s < 60 && 0 <= h < 100 && m * 60000 + s * 1000 + h * 10 == ms - ms % 10
  {
    FormatTimeFields(ms);
    ClockFields(ms);
  }

  /** A formatted time splits at ':' into its three padded fields. */
  lemma FormatTimeFields(ms: nat)
    ensures Split(FormatTime(Finite(ms)), ':') == [Pad2(ms / 60000), Pad2((ms / 1000) % 60), Pad2((ms / 10) % 100)]
  {
    var fields := [Pad2(ms / 60000), Pad2((ms / 1000) % 60), Pad2((ms / 10) % 100)];
    FieldsJoin(fields[0], fields[1], fields[2]);
    SplitJoin(fields, ':');
  }

  /** Three digit strings joined with ':' split back into themselves. */
  lemma FieldsJoin(a: string, b: string, c: string)
    requires AllDigits(a) && AllDigits(b) && AllDigits(c)
    ensures Join([a, b, c], ':') == a + ":" + b + ":" + c
    ensures forall i :: 0 <= i < 3 ==> ':' !in [a, b, c][i]
  {
    var fields := [a, b, c];
    assert [b, c][1..] == [c];
    assert Join([b, c], ':') == b + [':'] + c;
    assert fields[1..] == [b, c];
  }

  /** Below a hundred minutes the display is exactly eight characters wide. */
  lemma FormatTimeWidth(ms: nat)
    requires ms < 6000000
    ensures |FormatTime(Finite(ms))| == 8
  {
  }
}
