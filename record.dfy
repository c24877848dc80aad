/**
 * The one-line record kept in RGHS.txt: `"<highScore> <settingIsDecimal>"`, and the
 * string operations the program reads it back with (`readLine`, `indexOf(" ")`,
 * `substring`, `Integer.parseInt`, `equals("true")`).
 */
module Record {
  import opened Wrappers
  import opened JavaInt
  import opened Validator

  /** The ASCII digit for a value below ten. */
  function DigitChar(d: nat): (c: char)
    requires d < 10
    ensures IsDigit(c) && c as int - '0' as int == d
  {
    ('0' as int + d) as char
  }

  /** Java's decimal rendering of a non-negative int: no sign, no leading zero. */
  function DecimalString(n: nat): (r: string)
    ensures |r| >= 1 && (|r| > 1 ==> r[0] != '0')
    ensures forall i | 0 <= i < |r| :: IsDigit(r[i])
  {
    if n < 10 then [DigitChar(n)] else DecimalString(n / 10) + [DigitChar(n % 10)]
  }

  /** `"" + n` for a Java int. */
  function IntString(n: int): (r: string)
    ensures n >= 0 ==> r == DecimalString(n)
    ensures n < 0 ==> |r| > 1 && r[0] == '-' && r[1..] == DecimalString(-n)
  {
    if n < 0 then "-" + DecimalString(-n) else DecimalString(n)
  }

  /** `"" + b` for a Java boolean. */
  function BoolString(b: bool): (r: string)
    ensures r == "true" <==> b
    ensures r == "false" <==> !b
  {
    if b then "true" else "false"
  }

  /** The text `writeDataToRGHS` puts in the record. */
  function Serialize(highScore: int, isDecimal: bool): (r: string)
    ensures r == IntString(highScore) + " " + BoolString(isDecimal)
    ensures '\n' !in r && '\r' !in r
  {
    IntString(highScore) + " " + BoolString(isDecimal)
  }

  predicate IsLineEnd(c: char) {
    c == '\n' || c == '\r'
  }

  /** The length of the text before the first line terminator. */
  function LineLength(s: string): (n: nat)
    ensures n <= |s|
    ensures forall i | 0 <= i < n :: !IsLineEnd(s[i])
    ensures n < |s| ==> IsLineEnd(s[n])
  {
    if s == [] || IsLineEnd(s[0]) then 0 else 1 + LineLength(s[1..])
  }

  /** `BufferedReader.readLine` on the first line of a file: None at end of stream. */
  function ReadLine(content: string): (r: Option<string>)
    ensures r.None? <==> content == []
    ensures r.Some? ==> r.value <= content && forall i | 0 <= i < |r.value| :: !IsLineEnd(r.value[i])
    ensures r.Some? && |r.value| < |content| ==> IsLineEnd(content[|r.value|])
  {
    if content == [] then None else Some(content[..LineLength(content)])
  }

  /** The line both readers work on: the first line, or `" "` for an empty file. */
  function DataText(content: string): (r: string)
    ensures content == [] ==> r == " "
    ensures content != [] ==> r == ReadLine(content).value && r <= content
  {
    match ReadLine(content)
    case None => " "
    case Some(line) => line
  }

  /** `String.indexOf`: the first position of `c`, or -1. */
  function IndexOf(s: string, c: char): (r: int)
    ensures -1 <= r < |s|
    ensures r == -1 <==> c !in s
    ensures r >= 0 ==> s[r] == c && c !in s[..r]
  {
    if s == [] then -1
    else if s[0] == c then 0
    else
      var k := IndexOf(s[1..], c);
      assert s[1..][..if k < 0 then 0 else k] == s[1..if k < 0 then 1 else k + 1];
      if k < 0 then -1 else k + 1
  }

  /** The first occurrence is the position that holds `c` and has none before it. */
  lemma IndexOfAt(s: string, c: char, k: nat)
    requires k < |s| && s[k] == c && c !in s[..k]
    ensures IndexOf(s, c) == k
  {
  }

  /** A non-empty text with no line terminator is read back whole. */
  lemma SingleLine(t: string)
    requires t != [] && forall i | 0 <= i < |t| :: !IsLineEnd(t[i])
    ensures DataText(t) == t
  {
  }

  /** The high-score field of a one-line record whose first space is at `k`. */
  lemma HighScoreFieldAt(t: string, k: nat)
    requires forall i | 0 <= i < |t| :: !IsLineEnd(t[i])
    requires k < |t| && t[k] == ' ' && ' ' !in t[..k]
    ensures HighScoreField(DataText(t)) == Some(t[..k])
  {
    SingleLine(t);
    IndexOfAt(t, ' ', k);
  }

  /**
   * `dataText.substring(0, dataText.indexOf(" "))`: the high-score text before the first
   * space; with no space the end index is -1 and `substring` throws (None).
   */
  function HighScoreField(text: string): (r: Option<string>)
    ensures r.None? <==> ' ' !in text
    ensures r.Some? ==> r.value + " " <= text && ' ' !in r.value
  {
    var i := IndexOf(text, ' ');
    if i < 0 then None else Some(text[..i])
  }

  /** `dataText.substring(dataText.indexOf(" ") + 1)`: everything after the first space, or all of it. */
  function SettingField(text: string): (r: string)
    ensures ' ' !in text ==> r == text
    ensures ' ' in text ==> exists p | p <= text :: ' ' !in p && text == p + " " + r
  {
    var i := IndexOf(text, ' ');
    assert ' ' in text ==> text == text[..i] + " " + text[i + 1..];
    text[i + 1..]
  }

  /** The value of a string of digits, most significant first. */
  function DigitsValue(s: string): (v: int)
    requires forall i | 0 <= i < |s| :: IsDigit(s[i])
    ensures v >= 0
  {
    if s == [] then 0
    else
      var last := s[|s| - 1];
      assert IsDigit(last);
      10 * DigitsValue(s[..|s| - 1]) + (last as int - '0' as int)
  }

  predicate AllDigits(s: string) {
    |s| > 0 && forall i | 0 <= i < |s| :: IsDigit(s[i])
  }

  /**
   * `Integer.parseInt` in radix 10: an optional sign, then one or more digits, with the
   * value inside the int range; anything else throws `NumberFormatException` (None).
   */
  function ParseInt(s: string): (r: Option<int>)
    ensures r.Some? ==> IsInt(r.value)
    ensures AllDigits(s) ==> r == if DigitsValue(s) <= MaxInt then Some(DigitsValue(s)) else None
  {
    if |s| > 0 && (s[0] == '-' || s[0] == '+') then
      var mag := s[1..];
      if AllDigits(mag) then
        var v := if s[0] == '-' then -DigitsValue(mag) else DigitsValue(mag);
        if IsInt(v) then Some(v) else None
      else None
    else if AllDigits(s) then
      if DigitsValue(s) <= MaxInt then Some(DigitsValue(s)) else None
    else None
  }

  /** A decimal rendering reads back as the number it renders. */
  lemma {:induction false} DecimalStringValue(n: nat)
    ensures DigitsValue(DecimalString(n)) == n
  {
    if n >= 10 {
      var s := DecimalString(n);
      assert s[..|s| - 1] == DecimalString(n / 10);
      DecimalStringValue(n / 10);
    }
  }

  /**
   * On text the validator accepts, `parseInt` succeeds exactly when there is no decimal
   * point and the value fits an int, and the value is then never negative.
   */
  lemma ParseNumeric(p: string)
    requires Numeric(p)
    ensures ParseInt(p).Some? <==> '.' !in p && DigitsValue(p) <= MaxInt
    ensures ParseInt(p).Some? ==> ParseInt(p).value == DigitsValue(p) >= 0
  {
  }

  /**
   * Round trip: for every high score `h >= 0` and every setting `m`, the record written
   * reads back as its own first line, its high-score field is numeric and `parseInt` gives
   * back `h` exactly when `h` fits an int, and its setting field equals "true" exactly when
   * `m` holds.
   */
  lemma RoundTrip(h: int, m: bool)
    requires 0 <= h
    ensures var t := Serialize(h, m);
      && DataText(t) == t
      && HighScoreField(t) == Some(DecimalString(h))
      && Numeric(DecimalString(h))
      && ParseInt(DecimalString(h)) == (if h <= MaxInt then Some(h) else None)
      && (SettingField(t) == "true" <==> m)
  {
    var d := DecimalString(h);
    var t := Serialize(h, m);
    assert t[..|d|] == d && t[|d|] == ' ';
    HighScoreFieldAt(t, |d|);
    assert t[|d| + 1..] == BoolString(m);
    DecimalStringParses(h);
  }

  /** A decimal rendering is numeric text and `parseInt` reads it back when it fits an int. */
  lemma DecimalStringParses(h: nat)
    ensures Numeric(DecimalString(h))
    ensures ParseInt(DecimalString(h)) == (if h <= MaxInt then Some(h) else None)
  {
    var d := DecimalString(h);
    assert IsDigit(d[0]);
    assert multiset(d)['.'] == 0;
    assert AllDigits(d);
    DecimalStringValue(h);
  }
}
