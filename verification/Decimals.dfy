/** Decimal numerals. */
module Decimals {
  predicate IsDigit(c: char) { '0' <= c <= '9' }

  /** One or more decimal digits. */
  predicate Numeric(s: string) {
    s != "" && forall i :: 0 <= i < |s| ==> IsDigit(s[i])
  }

  function Digit(c: char): nat {
    if IsDigit(c) then c as int - '0' as int else 0
  }

  function ToNumber(s: string): nat {
    if s == "" then 0 else 10 * ToNumber(s[..|s| - 1]) + Digit(s[|s| - 1])
  }

  function Digits(n: nat): string {
    (if n < 10 then "" else Digits(n / 10)) + [('0' as int + n % 10) as char]
  }

  function Decimal(n: int): string {
    if n < 0 then "-" + Digits(-n) else Digits(n)
  }

  lemma {:induction false} DigitsRoundTrip(n: nat)
    ensures ToNumber(Digits(n)) == n
  {
    var front, c := if n < 10 then "" else Digits(n / 10), ('0' as int + n % 10) as char;
    assert (front + [c])[..|front|] == front;
    if n >= 10 { DigitsRoundTrip(n / 10); }
  }

  /** The ten digits, and every numeral is written with them. */
  lemma {:induction false} NumeralsAreNumeric(n: nat)
    ensures Numeric(Digits(n))
    ensures forall c :: IsDigit(c) <==> c in "0123456789"
  {
    TenDigits();
    if n >= 10 { NumeralsAreNumeric(n / 10); }
  }

  lemma {:induction false} TenDigits()
    ensures forall c :: IsDigit(c) <==> c in "0123456789"
  {
    forall c | IsDigit(c) ensures c in "0123456789" {
      assert "0123456789"[c as int - '0' as int] == c;
    }
  }

  lemma {:induction false} NoLeadingZero(n: nat)
    ensures n > 0 ==> Digits(n)[0] != '0'
    ensures n == 0 ==> Digits(n) == "0"
  {
    if n >= 10 { NoLeadingZero(n / 10); }
  }

  /** A printed integer is a sign for the negative ones and a numeral without leading zeros that reads back. */
  lemma {:induction false} DecimalReadsBack(n: int)
    ensures var sign := if n < 0 then 1 else 0;
      var numeral := Decimal(n)[sign..];
      && (n < 0 <==> Decimal(n)[0] == '-')
      && Numeric(numeral) && ToNumber(numeral) == (if n < 0 then -n else n) && (numeral[0] == '0' <==> n == 0)
  {
    var size := if n < 0 then -n else n;
    NumeralsAreNumeric(size);
    DigitsRoundTrip(size);
    NoLeadingZero(size);
    if n < 0 { assert Decimal(n)[1..] == Digits(size); } else { assert Decimal(n)[0..] == Digits(size); }
    assert IsDigit(Digits(size)[0]);
  }
}
