/**
 * The numeric-string validator `isNumeric`: a guess is re-prompted, and a stored
 * high score distrusted, unless the text is made of decimal digits and at most one
 * decimal point, with at least one digit.
 */
module Validator {
  /** `Character.isDigit`, restricted to the ASCII digits. */
  predicate IsDigit(c: char) {
    '0' <= c <= '9'
  }

  /** The declarative language the validator accepts. */
  predicate Numeric(s: string) {
    && (forall i | 0 <= i < |s| :: IsDigit(s[i]) || s[i] == '.')
    && multiset(s)['.'] <= 1
    && (exists i | 0 <= i < |s| :: IsDigit(s[i]))
  }

  /** The validator's single pass: a digit flag, a decimal-point counter and early returns. */
  method IsNumeric(str: string) returns (b: bool)
    ensures b == Numeric(str)
  {
    var hasDigit := false;
    var decimalCount := 0;
    for i := 0 to |str|
      invariant hasDigit == exists j | 0 <= j < i :: IsDigit(str[j])
      invariant decimalCount == multiset(str[..i])['.'] <= 1
      invariant forall j | 0 <= j < i :: IsDigit(str[j]) || str[j] == '.'
    {
      var c := str[i];
      assert str[..i + 1] == str[..i] + [c];
      if IsDigit(c) {
        hasDigit := true;
      } else if c != '.' {
        return false;
      } else {
        decimalCount := decimalCount + 1;
        if decimalCount > 1 {
          PrefixCountBound(str, i + 1);
          return false;
        }
      }
    }
    assert str[..|str|] == str;
    return hasDigit;
  }

  /** A prefix never holds more decimal points than the whole string. */
  lemma PrefixCountBound(s: string, n: nat)
    requires n <= |s|
    ensures multiset(s[..n])['.'] <= multiset(s)['.']
  {
    assert s == s[..n] + s[n..];
  }

  /** Any sign, space or exponent letter makes the text non-numeric. */
  lemma RejectsForeignCharacter(s: string, i: nat)
    requires i < |s| && s[i] in {'+', '-', ' ', 'e', 'E'}
    ensures !Numeric(s)
  {
  }

  /** A second decimal point anywhere makes the text non-numeric. */
  lemma {:induction false} RejectsTwoPoints(s: string, i: nat, j: nat)
    requires i < j < |s| && s[i] == '.' && s[j] == '.'
    ensures !Numeric(s)
  {
    assert s == s[..i] + [s[i]] + s[i + 1..j] + [s[j]] + s[j + 1..];
  }

  /** Text without any digit is rejected: the empty string and a lone point among them. */
  lemma RejectsNoDigit()
    ensures !Numeric("") && !Numeric(".")
  {
  }

  /** The rejections the validator's documentation promises. */
  lemma RejectsExamples()
    ensures !Numeric("1.2.3") && !Numeric("-4") && !Numeric(" 4") && !Numeric("1e5")
  {
  }

  /** A lone digit with an optional point on either side is accepted. */
  lemma AcceptsExamples()
    ensures Numeric("4") && Numeric(".5") && Numeric("5.")
  {
  }
}
