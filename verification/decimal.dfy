/** Decimal digit strings and their values: the part of `parseInt(text, 10)`
    that the listing loader relies on when the text is made of digits only. */
module DecimalText {

  predicate IsDigit(c: char) {
    '0' <= c <= '9'
  }

  predicate IsDigits(s: string) {
    forall i :: 0 <= i < |s| ==> IsDigit(s[i])
  }

  /** A digit string in canonical form: no leading zero, except "0" itself. */
  predicate IsCanonical(s: string) {
    IsDigits(s) && |s| > 0 && (s[0] != '0' || s == "0")
  }

  function DigitValue(c: char): (d: nat)
    requires IsDigit(c)
    ensures d < 10
  {
    c as int - '0' as int
  }

  function DigitChar(d: nat): (c: char)
    requires d < 10
    ensures IsDigit(c) && DigitValue(c) == d
  {
    ('0' as int + d) as char
  }

  function Pow10(n: nat): (p: nat)
    ensures p >= 1
  {
    if n == 0 then 1 else 10 * Pow10(n - 1)
  }

  /** The value of a non-empty digit string, most significant digit first,
      as `parseInt(s, 10)` reads it. The empty string, for which `parseInt`
      gives `NaN`, is given 0 only to keep the recursion total: the size text
      never reaches it, because missing or empty text is replaced by "0" first. */
  function ParseDecimal(s: string): (n: nat)
    requires IsDigits(s)
    ensures n < Pow10(|s|)
  {
    if |s| == 0 then 0
    else
      var prefix := s[..|s| - 1];
      var high := ParseDecimal(prefix);
      assert high <= Pow10(|s| - 1) - 1;
      10 * high + DigitValue(s[|s| - 1])
  }

  /** The canonical decimal spelling of a natural number. */
  function ShowDecimal(n: nat): (s: string)
    ensures IsCanonical(s)
    ensures n == 0 <==> s == "0"
  {
    if n < 10 then [DigitChar(n)]
    else ShowDecimal(n / 10) + [DigitChar(n % 10)]
  }

  /** Reading back the spelling of a number gives the number. */
  lemma {:induction false} ParseShowDecimal(n: nat)
    ensures ParseDecimal(ShowDecimal(n)) == n
  {
    if n >= 10 {
      var s := ShowDecimal(n);
      assert s[..|s| - 1] == ShowDecimal(n / 10);
      ParseShowDecimal(n / 10);
    }
  }

  /** A digit string that does not start with zero has a positive value. */
  lemma {:induction false} NonZeroLeadingDigit(s: string)
    requires IsDigits(s) && |s| > 0 && s[0] != '0'
    ensures ParseDecimal(s) >= 1
  {
    if |s| > 1 {
      var prefix := s[..|s| - 1];
      assert prefix[0] == s[0];
      NonZeroLeadingDigit(prefix);
    }
  }

  /** Spelling the value of a canonical digit string gives the string back. */
  lemma {:induction false} ShowParseDecimal(s: string)
    requires IsCanonical(s)
    ensures ShowDecimal(ParseDecimal(s)) == s
  {
    if |s| > 1 {
      var prefix := s[..|s| - 1];
      var last := s[|s| - 1];
      assert prefix[0] == s[0];
      NonZeroLeadingDigit(prefix);
      var high := ParseDecimal(prefix);
      assert high >= 1;
      var n := ParseDecimal(s);
      assert n == 10 * high + DigitValue(last);
      assert n / 10 == high && n % 10 == DigitValue(last);
      ShowParseDecimal(prefix);
      assert DigitChar(DigitValue(last)) == last;
      assert s == prefix + [last];
    } else {
      assert DigitChar(DigitValue(s[0])) == s[0];
    }
  }

  /** Leading zeros do not change the value ("007" reads as 7). */
  lemma {:induction false} LeadingZeroIgnored(s: string)
    requires IsDigits(s)
    ensures ParseDecimal("0" + s) == ParseDecimal(s)
  {
    var t := "0" + s;
    if |s| > 0 {
      assert t[..|t| - 1] == "0" + s[..|s| - 1];
      assert t[|t| - 1] == s[|s| - 1];
      LeadingZeroIgnored(s[..|s| - 1]);
    } else {
      assert t[..|t| - 1] == "";
    }
  }
}
