/** Natural numbers written out in decimal. */
module Decimals {
  function Digit(d: nat): char
    requires d < 10
  {
    ['0', '1', '2', '3', '4', '5', '6', '7', '8', '9'][d]
  }

  function Decimal(n: nat): (text: string)
    ensures text != "" && '/' !in text && ':' !in text
  {
    if n < 10 then [Digit(n)] else Decimal(n / 10) + [Digit(n % 10)]
  }

  lemma {:induction false} DigitsDiffer(a: nat, b: nat)
    requires a < 10 && b < 10 && Digit(a) == Digit(b)
    ensures a == b
  {
  }

  lemma {:induction false} LastOnes(a: string, x: char, b: string, y: char)
    requires a + [x] == b + [y]
    ensures a == b && x == y
  {
    assert (a + [x])[..|a + [x]| - 1] == a && (b + [y])[..|b + [y]| - 1] == b;
    assert (a + [x])[|a|] == x && (b + [y])[|b|] == y;
  }

  lemma {:induction false} LongerFromTen(n: nat)
    ensures n >= 10 <==> |Decimal(n)| > 1
  {
  }

  lemma {:induction false} DecimalsDiffer(a: nat, b: nat)
    requires Decimal(a) == Decimal(b)
    ensures a == b
  {
    LongerFromTen(a);
    LongerFromTen(b);
    if a >= 10 && b >= 10 {
      LastOnes(Decimal(a / 10), Digit(a % 10), Decimal(b / 10), Digit(b % 10));
      DecimalsDiffer(a / 10, b / 10);
      DigitsDiffer(a % 10, b % 10);
    } else {
      assert [Digit(a)][0] == [Digit(b)][0];
      DigitsDiffer(a, b);
    }
  }
}
