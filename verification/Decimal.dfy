/** Decimal integers as `%d` prints them and as the text-to-bigint cast reads them back. */
module Decimal {
  import opened Wrappers

  const BIGINT_MAX := 0x7FFF_FFFF_FFFF_FFFF
  const BIGINT_MIN := -0x8000_0000_0000_0000

  predicate IsBigint(n: int) { BIGINT_MIN <= n <= BIGINT_MAX }

  predicate IsDigit(c: char) { '0' <= c <= '9' }

  predicate AllDigits(s: string) { forall i | 0 <= i < |s| :: IsDigit(s[i]) }

  function Natural(n: nat): (s: string)
    ensures s != "" && AllDigits(s)
  {
    if n < 10 then [('0' as int + n) as char]
    else Natural(n / 10) + [('0' as int + n % 10) as char]
  }

  function Value(s: string): (n: nat)
    requires AllDigits(s)
  {
    if s == "" then 0
    else 10 * Value(s[..|s| - 1]) + (s[|s| - 1] as int - '0' as int)
  }

  function Format(n: int): (s: string)
    ensures s != "" && (forall i | 0 <= i < |s| :: IsDigit(s[i]) || s[i] == '-')
  {
    if n < 0 then "-" + Natural(-n) else Natural(n)
  }

  /** An optional sign and at least one digit; anything else is not an integer. */
  function Parse(s: string): (r: Option<int>)
  {
    if s == "" then None
    else
      var digits := if s[0] == '-' || s[0] == '+' then s[1..] else s;
      if digits == "" || !AllDigits(digits) then None
      else
        var magnitude: int := Value(digits);
        Some(if s[0] == '-' then -magnitude else magnitude)
  }

  lemma {:induction false} ValueOfNatural(n: nat)
    ensures Value(Natural(n)) == n
  {
    if n >= 10 {
      ValueOfNatural(n / 10);
      assert Natural(n)[..|Natural(n)| - 1] == Natural(n / 10);
    }
  }

  /** Printing and reading are inverse, so printing is injective. */
  lemma ParseFormat(n: int)
    ensures Parse(Format(n)) == Some(n)
  {
    var magnitude: nat := if n < 0 then -n else n;
    ValueOfNatural(magnitude);
    if n < 0 {
      assert Format(n)[1..] == Natural(magnitude);
    } else {
      assert IsDigit(Natural(n)[0]);
    }
  }
}
