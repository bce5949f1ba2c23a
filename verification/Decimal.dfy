/** Decimal rendering of integers, as `%d` and `%05d` print them. */
module Decimal {

  predicate IsDigit(c: char) {
    '0' <= c <= '9'
  }

  function Digit(d: nat): (c: char)
    requires d < 10
    ensures IsDigit(c) && (c - '0') as int == d
  {
    '0' + d as char
  }

  function Digits(n: nat): (s: string)
    ensures |s| > 0 && forall c :: c in s ==> IsDigit(c)
    ensures ValueOf(s) == n
  {
    if n < 10 then [Digit(n)] else
      var s := Digits(n / 10);
      assert (s + [Digit(n % 10)])[..|s|] == s;
      s + [Digit(n % 10)]
  }

  function ValueOf(s: string): nat {
    if s == [] then 0
    else 10 * ValueOf(s[..|s| - 1]) + (if IsDigit(s[|s| - 1]) then (s[|s| - 1] - '0') as int else 0)
  }

  function Itoa(n: int): string {
    if n < 0 then "-" + Digits(-n) else Digits(n)
  }
}
