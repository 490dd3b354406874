/** Decimal printing of account numbers and the parsing of account ids as 32-bit numbers. */
module Decimals {
  import opened Wrappers

  const U32_MAX: nat := 0xFFFF_FFFF

  predicate IsDigit(c: char) {
    '0' <= c <= '9'
  }

  function DigitValue(c: char): nat
    requires IsDigit(c)
  {
    (c as int) - ('0' as int)
  }

  function DigitChar(d: nat): (c: char)
    requires d < 10
    ensures IsDigit(c) && DigitValue(c) == d
  {
    (d + '0' as int) as char
  }

  predicate AllDigits(s: string) {
    forall i :: 0 <= i < |s| ==> IsDigit(s[i])
  }

  function ValueOf(s: string): nat
    requires AllDigits(s)
  {
    if s == "" then 0 else 10 * ValueOf(s[..|s| - 1]) + DigitValue(s[|s| - 1])
  }

  /** `to_string` of an unsigned number. */
  function Decimal(n: nat): string {
    if n < 10 then [DigitChar(n)] else Decimal(n / 10) + [DigitChar(n % 10)]
  }

  /** `parse::<u32>()`: an optional plus sign, then at least one digit, without overflow. */
  function Parse(s: string): Option<nat> {
    var digits := if |s| > 1 && s[0] == '+' then s[1..] else s;
    if digits == "" || !AllDigits(digits) || ValueOf(digits) > U32_MAX then None
    else Some(ValueOf(digits))
  }

  lemma {:induction false} DecimalValue(n: nat)
    ensures AllDigits(Decimal(n)) && Decimal(n) != "" && ValueOf(Decimal(n)) == n
  {
    if n >= 10 {
      DecimalValue(n / 10);
      assert Decimal(n)[..|Decimal(n)| - 1] == Decimal(n / 10);
    } else {
      assert Decimal(n)[..0] == "";
    }
  }

  /** Different numbers print differently. */
  lemma {:induction false} DecimalInjective(m: nat, n: nat)
    requires Decimal(m) == Decimal(n)
    ensures m == n
  {
    DecimalValue(m);
    DecimalValue(n);
  }

  /** A number is printed without leading zeros. */
  lemma {:induction false} DecimalHasNoLeadingZero(n: nat)
    ensures Decimal(n) != "" && (Decimal(n)[0] == '0' ==> n == 0)
  {
    if n >= 10 {
      DecimalHasNoLeadingZero(n / 10);
    }
  }

  /** Digits without leading zeros are the printed form of their value. */
  lemma {:induction false} DigitsArePrinted(s: string)
    requires AllDigits(s) && s != "" && (s[0] != '0' || |s| == 1)
    ensures Decimal(ValueOf(s)) == s && (s[0] != '0' ==> ValueOf(s) > 0)
  {
    var n := |s| - 1;
    if n == 0 {
      assert s[..0] == "";
      assert s == [s[0]];
    } else {
      DigitsArePrinted(s[..n]);
      assert s[..n][0] == s[0];
      assert ValueOf(s) / 10 == ValueOf(s[..n]) && ValueOf(s) % 10 == DigitValue(s[n]);
      assert s == s[..n] + [s[n]];
    }
  }

  /** A string that parses is the printed form of its value if and only if it has no plus sign and no
      leading zero. */
  lemma {:induction false} CanonicalIff(s: string)
    requires Parse(s).Some?
    ensures s == Decimal(Parse(s).value) <==> s[0] != '+' && (s[0] != '0' || s == "0")
  {
    if s[0] != '+' && (s[0] != '0' || s == "0") {
      DigitsArePrinted(s);
    } else {
      var n := Parse(s).value;
      DecimalValue(n);
      DecimalHasNoLeadingZero(n);
      assert IsDigit(Decimal(n)[0]);
      assert Decimal(0) == "0";
    }
  }

  lemma {:induction false} LeadingZero(s: string)
    requires AllDigits(s)
    ensures AllDigits("0" + s) && ValueOf("0" + s) == ValueOf(s)
  {
    if s == "" {
      assert "0" + s == "0" && "0"[..0] == "";
    } else {
      var n := |s| - 1;
      LeadingZero(s[..n]);
      assert ("0" + s)[..|"0" + s| - 1] == "0" + s[..n];
    }
  }

  /** Other spellings of a number parse to it as well, with a plus sign or a leading zero; a number
      that is too large does not parse, and neither does a string with any other character. */
  lemma {:induction false} OtherSpellings(n: nat, s: string)
    ensures n <= U32_MAX ==> Parse("+" + Decimal(n)) == Some(n) && Parse("0" + Decimal(n)) == Some(n)
    ensures n > U32_MAX ==> Parse(Decimal(n)).None?
    ensures s == "" || (exists i :: 0 < i < |s| && !IsDigit(s[i])) ==> Parse(s).None?
    ensures s != "" && !IsDigit(s[0]) && s[0] != '+' ==> Parse(s).None?
  {
    DecimalValue(n);
    LeadingZero(Decimal(n));
    assert ("+" + Decimal(n))[1..] == Decimal(n);
    assert IsDigit(Decimal(n)[0]);
    if exists i :: 0 < i < |s| && !IsDigit(s[i]) {
      var i :| 0 < i < |s| && !IsDigit(s[i]);
      assert s[1..][i - 1] == s[i];
    }
  }

  /** A printed number parses back to itself. */
  lemma {:induction false} ParseDecimal(n: nat)
    requires n <= U32_MAX
    ensures Parse(Decimal(n)) == Some(n)
  {
    DecimalValue(n);
    assert IsDigit(Decimal(n)[0]);
  }
}
