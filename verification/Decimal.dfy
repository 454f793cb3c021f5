/** Decimal numbers in texts. */
module Decimal {

  predicate IsDigit(c: char) {
    '0' <= c <= '9'
  }

  function Digit(d: nat): (c: char)
    requires d < 10
    ensures IsDigit(c) && c as int - '0' as int == d
  {
    '0' + d as char
  }

  /** strconv.Itoa, and %d, on a natural number. */
  function Itoa(n: nat): (s: string)
    ensures s != "" && forall c :: c in s ==> IsDigit(c)
  {
    if n < 10 then [Digit(n)] else Itoa(n / 10) + [Digit(n % 10)]
  }

  /** The value of the leading digits, added to those already read, and what follows them. */
  function ReadDigits(s: string, n: nat): (nat, string) {
    if s != "" && IsDigit(s[0]) then ReadDigits(s[1..], 10 * n + (s[0] as int - '0' as int)) else (n, s)
  }

  /** Reading a printed number leaves exactly what was printed after it. */
  lemma {:induction false} ReadPrinted(n: nat, rest: string)
    ensures ReadDigits(Itoa(n) + rest, 0) == ReadDigits(rest, n)
  {
    if n < 10 {
      assert (Itoa(n) + rest)[1..] == rest;
    } else {
      var d := [Digit(n % 10)];
      ReadPrinted(n / 10, d + rest);
      assert Itoa(n) + rest == Itoa(n / 10) + (d + rest);
      assert (d + rest)[1..] == rest;
    }
  }
}
