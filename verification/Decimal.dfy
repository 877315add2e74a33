/** strconv: decimal printing and parsing of the 64-bit integers that travel in URLs. */
module Decimal {
  import opened Text

  const MIN_INT64: int := -0x8000_0000_0000_0000
  const MAX_INT64: int := 0x7fff_ffff_ffff_ffff

  predicate IsInt64(n: int) {
    MIN_INT64 <= n <= MAX_INT64
  }

  /** Two's complement wrap-around of Go's int64 arithmetic. */
  function WrapInt64(n: int): (r: int)
    ensures IsInt64(r)
    ensures IsInt64(n) ==> r == n
  {
    (n + 0x8000_0000_0000_0000) % 0x1_0000_0000_0000_0000 - 0x8000_0000_0000_0000
  }

  predicate IsDigit(c: char) {
    '0' <= c <= '9'
  }

  predicate IsDigits(s: string) {
    |s| > 0 && forall i | 0 <= i < |s| :: IsDigit(s[i])
  }

  function DigitChar(d: nat): (c: char)
    requires d < 10
    ensures IsDigit(c) && c as int - '0' as int == d
  {
    ('0' as int + d) as char
  }

  function FormatNat(n: nat): (s: string)
    ensures IsDigits(s)
  {
    if n < 10 then [DigitChar(n)] else FormatNat(n / 10) + [DigitChar(n % 10)]
  }

  /** strconv.FormatInt(n, 10), and the verb %d of package fmt */
  function FormatInt(n: int): (s: string)
    ensures |s| > 0
    ensures forall i | 0 <= i < |s| :: IsDigit(s[i]) || s[i] == '-'
  {
    if n < 0 then "-" + FormatNat(-n) else FormatNat(n)
  }

  function DigitsValue(s: string): nat
    requires forall i | 0 <= i < |s| :: IsDigit(s[i])
  {
    if s == "" then 0
    else
      assert IsDigit(s[|s| - 1]);
      DigitsValue(s[..|s| - 1]) * 10 + (s[|s| - 1] as int - '0' as int)
  }

  /** strconv.ParseInt(s, 10, 64); None stands for its error */
  function ParseInt(s: string): (r: Option<int>)
    ensures r.Some? ==> IsInt64(r.value)
  {
    if s == "" then None
    else
      var signed := s[0] == '+' || s[0] == '-';
      var digits := if signed then s[1..] else s;
      if !IsDigits(digits) then None
      else
        var n: int := if s[0] == '-' then 0 - DigitsValue(digits) else DigitsValue(digits);
        if IsInt64(n) then Some(n) else None
  }

  lemma {:induction false} DigitsValueOfFormat(n: nat)
    ensures DigitsValue(FormatNat(n)) == n
  {
    if n >= 10 {
      DigitsValueOfFormat(n / 10);
      var s := FormatNat(n);
      assert s[..|s| - 1] == FormatNat(n / 10);
    } else {
      assert FormatNat(n)[..0] == "";
      assert DigitsValue("") == 0;
    }
  }

  /** Printing and parsing back is the identity on every int64. */
  lemma ParseFormat(n: int)
    requires IsInt64(n)
    ensures ParseInt(FormatInt(n)) == Some(n)
  {
    var s := FormatInt(n);
    if n < 0 {
      DigitsValueOfFormat(-n);
      assert s[1..] == FormatNat(-n);
    } else {
      DigitsValueOfFormat(n);
      assert IsDigit(s[0]);
    }
  }

  lemma FormatInjective(m: int, n: int)
    requires IsInt64(m) && IsInt64(n) && FormatInt(m) == FormatInt(n)
    ensures m == n
  {
    ParseFormat(m);
    ParseFormat(n);
  }
}
