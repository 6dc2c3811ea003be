/** Decimal numbers as text. */
module Decimals {

  predicate Digit(c: char) {
    '0' <= c <= '9'
  }

  predicate Digits(s: string) {
    forall i :: 0 <= i < |s| ==> Digit(s[i])
  }

  /** The number a digit string stands for. */
  function Decimal(s: string): nat {
    if s == "" then 0
    else
      var c := s[|s| - 1];
      10 * Decimal(s[..|s| - 1]) + (if Digit(c) then c as int - '0' as int else 0)
  }

  /** "%d" of a natural number. */
  function Plain(n: nat): string {
    (if n < 10 then "" else Plain(n / 10)) + [('0' as int + n % 10) as char]
  }

  lemma {:induction false} PlainReads(n: nat)
    ensures Digits(Plain(n)) && Plain(n) != "" && Decimal(Plain(n)) == n
  {
    if n >= 10 {
      PlainReads(n / 10);
      assert Plain(n)[..|Plain(n)| - 1] == Plain(n / 10);
    }
  }
}
