/** Decimal integers as the standard library prints and parses them. */
module Decimal {
  import opened Records

  const MAX_INT64 := 0x7FFF_FFFF_FFFF_FFFF

  predicate IsDigit(c: char) {
    '0' <= c <= '9'
  }

  predicate AllDigits(s: string) {
    forall c <- s :: IsDigit(c)
  }

  function Digit(d: nat): (c: char)
    requires d < 10
    ensures IsDigit(c) && c as int == '0' as int + d
  {
    ('0' as int + d) as char
  }

  function Format(n: nat): string {
    if n < 10 then [Digit(n)] else Format(n / 10) + [Digit(n % 10)]
  }

  function Value(s: string): nat
    requires AllDigits(s)
  {
    if s == [] then 0
    else
      assert IsDigit(s[|s| - 1]);
      10 * Value(s[..|s| - 1]) + (s[|s| - 1] as int - '0' as int)
  }

  /** An optional sign, at least one digit, and a value that fits 64 bits. */
  function ParseInt(s: string): Option<int> {
    var signed := s != [] && (s[0] == '+' || s[0] == '-');
    var body := if signed then s[1..] else s;
    if body == [] || !AllDigits(body) then None
    else
      var magnitude: int := Value(body);
      var v := if signed && s[0] == '-' then 0 - magnitude else magnitude;
      if -MAX_INT64 - 1 <= v <= MAX_INT64 then Some(v) else None
  }

  lemma {:induction false} FormatValue(n: nat)
    ensures Format(n) != [] && AllDigits(Format(n)) && Value(Format(n)) == n
    ensures |Format(n)| > 1 ==> Format(n)[0] != '0'
    ensures n > 0 ==> Format(n)[0] != '0'
  {
    if n < 10 {
      assert Format(n)[..0] == [];
    } else {
      FormatValue(n / 10);
      assert Format(n)[..|Format(n)| - 1] == Format(n / 10);
    }
  }

  lemma FormatInjective(a: nat, b: nat)
    requires Format(a) == Format(b)
    ensures a == b
  {
    FormatValue(a);
    FormatValue(b);
  }

  /** Printing then parsing gives the number back exactly when it fits 64 bits. */
  lemma ParseFormat(n: nat)
    ensures ParseInt(Format(n)) == if n <= MAX_INT64 then Some(n) else None
  {
    FormatValue(n);
    assert IsDigit(Format(n)[0]);
  }

  /** Digits and nothing else, read as n. */
  predicate Reads(s: string, n: nat) {
    s != [] && AllDigits(s) && Value(s) == n
  }

  /** A text that stands for a 64-bit number that is not negative: digits, perhaps behind a sign. */
  predicate Counts(s: string, n: nat) {
    && n <= 0x7FFF_FFFF_FFFF_FFFF
    && (Reads(s, n) || (s != [] && Reads(s[1..], n) && (s[0] == '+' || (s[0] == '-' && n == 0))))
  }

  /** The texts that parse to a number that is not negative. */
  lemma ParseCounts(s: string, n: nat)
    ensures ParseInt(s) == Some(n) <==> Counts(s, n)
  {
    hide Value;
    if s != [] && (s[0] == '+' || s[0] == '-') {
      assert !IsDigit(s[0]) && s[0] in s;
    }
  }
}
