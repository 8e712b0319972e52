/** Decimal numerals. */
module Numbers {
  predicate IsDigit(c: char) { '0' <= c <= '9' }

  predicate AllDigits(s: string) { forall i :: 0 <= i < |s| ==> IsDigit(s[i]) }

  /** The decimal text of a number. */
  function Decimal(n: nat): (s: string)
    ensures s != "" && AllDigits(s)
    decreases n
  {
    var d := ('0' as int + n % 10) as char;
    if n < 10 then [d] else Decimal(n / 10) + [d]
  }

  /** The same with a minus sign for the negative ones. */
  function SignedDecimal(n: int): (s: string)
    ensures s != ""
  {
    if n < 0 then "-" + Decimal(-n) else Decimal(n)
  }
}
