/** `formatTime` (src/App.tsx lines 30-34): a count of seconds rendered as
    minutes, a colon, and the remaining seconds zero-padded to two digits.
    A parser for that shape is given as its inverse, so that the rendering
    can be shown to lose nothing. */
module TimeFormat {
  import opened Wrappers

  predicate IsDigit(ch: char) {
    '0' <= ch <= '9'
  }

  predicate AllDigits(str: string) {
    forall i :: 0 <= i < |str| ==> IsDigit(str[i])
  }

  function DigitValue(ch: char): (d: nat)
    requires IsDigit(ch)
    ensures d < 10
  {
    ch as int - '0' as int
  }

  function DigitChar(d: nat): (ch: char)
    requires d < 10
    ensures IsDigit(ch) && DigitValue(ch) == d
  {
    ('0' as int + d) as char
  }

  /** The value of a string of decimal digits, most significant first. */
  function DecimalValue(str: string): nat
    requires AllDigits(str)
    decreases |str|
  {
    if str == [] then 0
    else 10 * DecimalValue(str[..|str| - 1]) + DigitValue(str[|str| - 1])
  }

  /** A decimal numeral as JavaScript prints a non-negative integer: at
      least one digit, and no leading zero unless the numeral is "0". */
  predicate Canonical(str: string) {
    && 1 <= |str|
    && AllDigits(str)
    && (|str| > 1 ==> str[0] != '0')
  }

  /** The decimal rendering of a natural number, as a template literal
      renders `mins` and `secs.toString()` does. */
  function Decimal(n: nat): (r: string)
    ensures Canonical(r)
    ensures r[0] == '0' <==> n == 0
    ensures |r| == 1 <==> n < 10
    decreases n
  {
    if n < 10 then [DigitChar(n)] else Decimal(n / 10) + [DigitChar(n % 10)]
  }

  /** `n` copies of `ch`. */
  function Repeat(ch: char, n: nat): (r: string)
    ensures |r| == n
    ensures forall i :: 0 <= i < n ==> r[i] == ch
  {
    if n == 0 then [] else [ch] + Repeat(ch, n - 1)
  }

  /** `str.padStart(width, fill)` with a one-character fill: `fill` is
      prepended until the string is `width` long; a string already that
      long is returned unchanged. */
  function PadStart(str: string, width: nat, fill: char): (r: string)
    ensures |str| >= width ==> r == str
    ensures |str| < width ==> |r| == width && r[width - |str|..] == str
    ensures forall i :: 0 <= i < |r| - |str| ==> r[i] == fill
  {
    if |str| >= width then str
    else
      var r := Repeat(fill, width - |str|) + str;
      assert r[width - |str|..] == str;
      r
  }

  /** `formatTime(seconds)`: the text before the colon is the decimal
      numeral of `seconds / 60`, the text after it is exactly two digits
      whose value is `seconds % 60`. */
  function FormatTime(seconds: nat): (r: string)
    ensures 4 <= |r| && r[|r| - 3] == ':'
    ensures Canonical(r[..|r| - 3]) && DecimalValue(r[..|r| - 3]) == seconds / 60
    ensures AllDigits(r[|r| - 2..]) && DecimalValue(r[|r| - 2..]) == seconds % 60
  {
    FormatFields(seconds / 60, seconds % 60);
    Decimal(seconds / 60) + ":" + PadStart(Decimal(seconds % 60), 2, '0')
  }

  /** The two fields of a rendering, read back one at a time. */
  lemma FormatFields(mins: nat, secs: nat)
    requires secs < 60
    ensures var r := Decimal(mins) + ":" + PadStart(Decimal(secs), 2, '0');
            && 4 <= |r| && r[|r| - 3] == ':'
            && Canonical(r[..|r| - 3]) && DecimalValue(r[..|r| - 3]) == mins
            && AllDigits(r[|r| - 2..]) && DecimalValue(r[|r| - 2..]) == secs
  {
    MinutesField(mins, secs);
    SecondsField(mins, secs);
  }

  lemma MinutesField(mins: nat, secs: nat)
    requires secs < 60
    ensures var r := Decimal(mins) + ":" + PadStart(Decimal(secs), 2, '0');
            Canonical(r[..|r| - 3]) && DecimalValue(r[..|r| - 3]) == mins
  {
    DecimalRoundTrip(mins);
    PaddedSeconds(secs);
    Fields(Decimal(mins), PadStart(Decimal(secs), 2, '0'));
  }

  lemma SecondsField(mins: nat, secs: nat)
    requires secs < 60
    ensures var r := Decimal(mins) + ":" + PadStart(Decimal(secs), 2, '0');
            && 4 <= |r| && r[|r| - 3] == ':'
            && AllDigits(r[|r| - 2..]) && DecimalValue(r[|r| - 2..]) == secs
  {
    PaddedSeconds(secs);
    Fields(Decimal(mins), PadStart(Decimal(secs), 2, '0'));
  }

  /** Where the two fields sit in `m:pp`. */
  lemma Fields(m: string, p: string)
    requires |p| == 2
    ensures var r := m + ":" + p;
            && |r| == |m| + 3 && r[|r| - 3] == ':'
            && r[..|r| - 3] == m && r[|r| - 2..] == p
  {
  }

  /** Reads back a rendered time: a canonical numeral of minutes, a colon
      and two digits of seconds below 60. Anything else is rejected. */
  function ParseTime(str: string): (r: Option<nat>)
  {
    if |str| < 4 || str[|str| - 3] != ':' then None
    else
      var mins := str[..|str| - 3];
      var secs := str[|str| - 2..];
      if Canonical(mins) && AllDigits(secs) && DecimalValue(secs) < 60
      then Some(60 * DecimalValue(mins) + DecimalValue(secs))
      else None
  }

  /** Rendering then reading a numeral gives back the number. */
  lemma {:induction false} DecimalRoundTrip(n: nat)
    ensures DecimalValue(Decimal(n)) == n
    decreases n
  {
    if n >= 10 {
      DecimalRoundTrip(n / 10);
      var r := Decimal(n);
      assert r[..|r| - 1] == Decimal(n / 10);
    }
  }

  /** A numeral whose first digit is not zero has a positive value. */
  lemma {:induction false} LeadingDigitPositive(str: string)
    requires 1 <= |str| && AllDigits(str) && str[0] != '0'
    ensures DecimalValue(str) > 0
    decreases |str|
  {
    if |str| > 1 {
      LeadingDigitPositive(str[..|str| - 1]);
    }
  }

  /** Reading then rendering a canonical numeral gives back the numeral. */
  lemma {:induction false} CanonicalRoundTrip(str: string)
    requires Canonical(str)
    ensures Decimal(DecimalValue(str)) == str
    decreases |str|
  {
    var last := str[|str| - 1];
    if |str| == 1 {
      DigitRoundTrip(last);
      assert str == [last];
    } else {
      var prefix := str[..|str| - 1];
      assert Canonical(prefix) && prefix[0] != '0' by {
        assert prefix[0] == str[0];
      }
      LeadingDigitPositive(prefix);
      CanonicalRoundTrip(prefix);
      var a, d := DecimalValue(prefix), DigitValue(last);
      assert DecimalValue(str) == 10 * a + d;
      TensAndUnits(a, d);
      DigitRoundTrip(last);
      assert Decimal(10 * a + d) == Decimal(a) + [DigitChar(d)];
      assert str == prefix + [last];
    }
  }

  /** A digit character is the character of its value. */
  lemma DigitRoundTrip(ch: char)
    requires IsDigit(ch)
    ensures DigitChar(DigitValue(ch)) == ch
  {
  }

  /** The tens and the units of `10 * a + d`. */
  lemma TensAndUnits(a: nat, d: nat)
    requires d < 10
    ensures (10 * a + d) / 10 == a && (10 * a + d) % 10 == d
  {
  }

  /** A number below 100 has at most two digits. */
  lemma TwoDigitsAtMost(n: nat)
    requires n < 100
    ensures |Decimal(n)| <= 2
  {
    if n >= 10 {
      assert |Decimal(n / 10)| == 1;
    }
  }

  /** The seconds field: exactly two digits carrying the value. */
  lemma PaddedSeconds(secs: nat)
    requires secs < 60
    ensures var p := PadStart(Decimal(secs), 2, '0');
            |p| == 2 && AllDigits(p) && DecimalValue(p) == secs
  {
    var d := Decimal(secs);
    var p := PadStart(d, 2, '0');
    DecimalRoundTrip(secs);
    TwoDigitsAtMost(secs);
    if secs < 10 {
      assert p == ['0'] + d;
      assert p[..1] == "0";
    } else {
      assert p == d;
    }
  }

  /** Every two-digit field below 60 is the padded rendering of its value. */
  lemma TwoDigitsRoundTrip(secs: string)
    requires |secs| == 2 && AllDigits(secs) && DecimalValue(secs) < 60
    ensures PadStart(Decimal(DecimalValue(secs)), 2, '0') == secs
  {
    var v := DecimalValue(secs);
    if secs[0] == '0' {
      assert secs[..1] == "0";
      assert v == DigitValue(secs[1]);
      assert Decimal(v) == [secs[1]];
    } else {
      CanonicalRoundTrip(secs);
    }
  }

  /** Reading a rendered time gives back the number of seconds. */
  lemma ParseFormat(seconds: nat)
    ensures ParseTime(FormatTime(seconds)) == Some(seconds)
  {
  }

  /** Every accepted text is exactly the rendering of the value read. */
  lemma FormatParse(str: string)
    requires ParseTime(str).Some?
    ensures FormatTime(ParseTime(str).value) == str
  {
    var mins, secs := SplitTime(str);
    var m, s := DecimalValue(mins), DecimalValue(secs);
    FormatTimeFields(ParseTime(str).value, m, s);
    CanonicalRoundTrip(mins);
    TwoDigitsRoundTrip(secs);
  }

  /** The rendering of `60 * mins + secs`, field by field. */
  lemma FormatTimeFields(seconds: nat, mins: nat, secs: nat)
    requires secs < 60 && seconds == 60 * mins + secs
    ensures FormatTime(seconds) == Decimal(mins) + ":" + PadStart(Decimal(secs), 2, '0')
  {
    MinutesAndSeconds(mins, secs);
  }

  /** The two fields of a text that `ParseTime` accepts. */
  lemma SplitTime(str: string) returns (mins: string, secs: string)
    requires ParseTime(str).Some?
    ensures str == mins + ":" + secs
    ensures Canonical(mins) && |secs| == 2 && AllDigits(secs) && DecimalValue(secs) < 60
    ensures ParseTime(str) == Some(60 * DecimalValue(mins) + DecimalValue(secs))
  {
    mins, secs := str[..|str| - 3], str[|str| - 2..];
    assert str == mins + [str[|str| - 3]] + secs;
  }

  lemma MinutesAndSeconds(mins: nat, secs: nat)
    requires secs < 60
    ensures (60 * mins + secs) / 60 == mins && (60 * mins + secs) % 60 == secs
  {
  }

  /** A whole number of minutes renders with ":00" after the minutes. */
  lemma WholeMinutes(seconds: nat, mins: nat)
    requires seconds == 60 * mins
    ensures FormatTime(seconds) == Decimal(mins) + ":00"
  {
    FormatTimeFields(seconds, mins, 0);
    ZeroSeconds();
  }

  /** The seconds field of a whole number of minutes. */
  lemma ZeroSeconds()
    ensures PadStart(Decimal(0), 2, '0') == "00"
  {
    assert Decimal(0) == "0";
    assert Repeat('0', 1) == "0";
  }

  /** The renderings the component's own texts rely on. */
  lemma FormatExamples()
    ensures FormatTime(65) == "1:05"
    ensures FormatTime(5) == "0:05"
    ensures FormatTime(600) == "10:00"
  {
    assert Decimal(1) == "1";
    assert Decimal(5) == "5";
    assert Decimal(10) == "10";
    assert Decimal(0) == "0";
  }
}
