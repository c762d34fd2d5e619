/** Digits, and the number a run of them is. */
module Digits {

  predicate IsDigit(c: char) {
    '0' <= c <= '9'
  }

  predicate AllDigits(text: string) {
    forall i | 0 <= i < |text| :: IsDigit(text[i])
  }

  function DigitsValue(text: string): nat
    requires AllDigits(text)
  {
    if text == "" then 0
    else DigitsValue(text[..|text| - 1]) * 10 + (text[|text| - 1] as int - '0' as int)
  }

  /** A number written in ten digits, the shortest way. */
  function Decimal(n: nat): (s: string)
    ensures s != [] && AllDigits(s)
  {
    var digit := ('0' as int + n % 10) as char;
    if n < 10 then [digit] else Decimal(n / 10) + [digit]
  }

  lemma {:induction false} DecimalValue(n: nat)
    ensures DigitsValue(Decimal(n)) == n
  {
    var digit := ('0' as int + n % 10) as char;
    if n >= 10 {
      DecimalValue(n / 10);
      assert Decimal(n)[..|Decimal(n)| - 1] == Decimal(n / 10);
    } else {
      assert Decimal(n) == [digit];
      assert DigitsValue([digit][..0]) == 0;
    }
  }
}
