/**
 * Decimal integers as Python's `int(text)` reads them and `str(n)` writes them,
 * restricted to an optional sign followed by ASCII digits.
 */
module Numbers {
  import opened Wrappers

  predicate IsDigit(c: char) {
    '0' <= c <= '9'
  }

  function DigitValue(c: char): (d: nat)
    requires IsDigit(c)
    ensures d < 10
  {
    (c as int) - ('0' as int)
  }

  function DigitChar(d: nat): (c: char)
    requires d < 10
    ensures IsDigit(c) && DigitValue(c) == d
  {
    ('0' as int + d) as char
  }

  predicate AllDigits(s: string) {
    forall i :: 0 <= i < |s| ==> IsDigit(s[i])
  }

  /** The value of a string of decimal digits, most significant first. */
  function DigitsValue(s: string): nat
    requires AllDigits(s)
  {
    if s == [] then 0 else DigitsValue(s[..|s| - 1]) * 10 + DigitValue(s[|s| - 1])
  }

  /** Text of the form `int` reads here: an optional `+` or `-`, then one or more digits. */
  predicate IsDecimal(s: string) {
    |s| > 0 &&
    forall i :: 0 <= i < |s| ==> IsDigit(s[i]) || (i == 0 && 1 < |s| && (s[i] == '+' || s[i] == '-'))
  }

  /** `int(s)` on a string: an optional `+` or `-`, then one or more digits; anything else fails. */
  function ParseInt(s: string): (r: Option<int>)
    ensures r.Some? <==> IsDecimal(s)
    ensures r.Some? && r.value < 0 ==> s[0] == '-'
    ensures r.Some? && s[0] != '-' ==> r.value >= 0
  {
    if |s| > 0 && (s[0] == '+' || s[0] == '-') then
      var digits := s[1..];
      assert AllDigits(digits) <==> forall i :: 1 <= i < |s| ==> IsDigit(s[i]) by {
        assert forall i :: 1 <= i < |s| ==> s[i] == digits[i - 1];
      }
      if digits != [] && AllDigits(digits) then
        var magnitude: int := DigitsValue(digits);
        Some(if s[0] == '-' then -magnitude else magnitude)
      else None
    else if s != [] && AllDigits(s) then Some(DigitsValue(s))
    else None
  }

  /** `str(n)` for a natural number: its decimal digits without leading zeros. */
  function ShowNat(n: nat): (s: string)
    ensures |s| > 0 && AllDigits(s)
  {
    if n < 10 then [DigitChar(n)] else ShowNat(n / 10) + [DigitChar(n % 10)]
  }

  /** `str(n)` for any integer. */
  function ShowInt(n: int): string {
    if n < 0 then "-" + ShowNat(-n) else ShowNat(n)
  }

  lemma {:induction false} ShowNatValue(n: nat)
    ensures DigitsValue(ShowNat(n)) == n
  {
    if n >= 10 {
      var s := ShowNat(n);
      assert s[..|s| - 1] == ShowNat(n / 10);
      ShowNatValue(n / 10);
    }
  }

  /** Reading back what `str` writes gives the same integer. */
  lemma ParseShowInt(n: int)
    ensures ParseInt(ShowInt(n)) == Some(n)
  {
    if n < 0 {
      var digits := ShowNat(-n);
      var s := "-" + digits;
      assert s[0] == '-' && s[1..] == digits;
      ShowNatValue(-n);
    } else {
      var s := ShowNat(n);
      assert s[0] != '+' && s[0] != '-' by {
        assert IsDigit(s[0]);
      }
      ShowNatValue(n);
    }
  }

  /** Text holding a character that is neither a digit nor a leading sign is not a number. */
  lemma NotANumber(s: string, k: nat)
    requires k < |s| && !IsDigit(s[k]) && (k > 0 || (s[k] != '+' && s[k] != '-'))
    ensures ParseInt(s) == None
  {
    if |s| > 0 && (s[0] == '+' || s[0] == '-') {
      assert k > 0 && s[1..][k - 1] == s[k];
    }
  }
}
