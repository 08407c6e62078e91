/** Decimal notation. */
module Numbers {
  import opened Wrappers

  predicate IsDigit(c: char) { '0' <= c <= '9' }

  predicate AllDigits(s: string) { forall i | 0 <= i < |s| :: IsDigit(s[i]) }

  function Digits(n: nat): (s: string)
    ensures s != "" && AllDigits(s)
  {
    if n < 10 then ['0' + n as char] else Digits(n / 10) + ['0' + (n % 10) as char]
  }

  function NumberOf(s: string): nat
    requires AllDigits(s)
  {
    if s == "" then 0 else NumberOf(s[..|s| - 1]) * 10 + (s[|s| - 1] - '0') as int
  }

  lemma {:induction false} NumberOfDigits(n: nat)
    ensures NumberOf(Digits(n)) == n
  {
    if n >= 10 {
      NumberOfDigits(n / 10);
      assert Digits(n)[..|Digits(n)| - 1] == Digits(n / 10);
    } else {
      assert Digits(n)[..0] == "";
    }
  }

  function Decimal(n: int): string { if n < 0 then "-" + Digits(-n) else Digits(n) }

  /** `int` of decimal digits with an optional minus sign. */
  function IntOf(s: string): Option<int> {
    if s != "" && AllDigits(s) then
      var n: int := NumberOf(s); Some(n)
    else if |s| > 1 && s[0] == '-' && AllDigits(s[1..]) then
      var n: int := NumberOf(s[1..]); Some(-n)
    else None
  }

  lemma IntOfDecimal(n: int)
    ensures IntOf(Decimal(n)) == Some(n)
  {
    if n < 0 {
      assert !IsDigit(Decimal(n)[0]);
      assert Decimal(n)[1..] == Digits(-n);
      NumberOfDigits(-n);
    } else {
      NumberOfDigits(n);
    }
  }

  lemma DecimalTells(m: int, n: int)
    requires Decimal(m) == Decimal(n)
    ensures m == n
  {
    IntOfDecimal(m);
    IntOfDecimal(n);
  }
}
