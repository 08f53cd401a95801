/** Decimal text of natural numbers, as JavaScript's String(n) prints it. */
module Decimal {
  import opened Common

  predicate IsDigit(c: char) { '0' <= c <= '9' }

  ghost predicate AllDigits(s: string) {
    forall i :: 0 <= i < |s| ==> IsDigit(s[i])
  }

  function DigitChar(d: nat): char
    requires d < 10
  {
    "0123456789"[d]
  }

  function DigitValue(c: char): nat
    requires IsDigit(c)
  {
    c as nat - '0' as nat
  }

  function Print(n: nat): string {
    if n < 10 then [DigitChar(n)] else Print(n / 10) + [DigitChar(n % 10)]
  }

  /** None unless `s` is a non-empty run of digits. */
  function Parse(s: string): Option<nat>
    decreases |s|
  {
    if s == [] then None
    else
      var last := s[|s| - 1];
      if !IsDigit(last) then None
      else if |s| == 1 then Some(DigitValue(last))
      else
        match Parse(s[..|s| - 1])
        case None => None
        case Some(n) => Some(10 * n + DigitValue(last))
  }

  lemma DigitRoundTrip(d: nat)
    requires d < 10
    ensures IsDigit(DigitChar(d)) && DigitValue(DigitChar(d)) == d
  {
  }

  lemma {:induction false} ParsePrint(n: nat)
    ensures Print(n) != [] && AllDigits(Print(n))
    ensures Parse(Print(n)) == Some(n)
  {
    if n < 10 {
      DigitRoundTrip(n);
    } else {
      ParsePrint(n / 10);
      DigitRoundTrip(n % 10);
      assert Print(n)[..|Print(n)| - 1] == Print(n / 10);
    }
  }
}
