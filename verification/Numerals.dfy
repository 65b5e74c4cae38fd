/** Numbers as decimal text. */
module Numerals {

  /** std::to_string of a number that is not negative. */
  function Digits(n: nat): string {
    (if n < 10 then "" else Digits(n / 10)) + [('0' as int + n % 10) as char]
  }

  /** Reading decimal text back. */
  function Value(s: string): int {
    if s == "" then 0 else 10 * Value(s[..|s| - 1]) + (s[|s| - 1] as int - '0' as int)
  }

  lemma {:induction false} ValueOfDigits(n: nat)
    ensures Value(Digits(n)) == n
  {
    var s, front := Digits(n), if n < 10 then "" else Digits(n / 10);
    assert s[..|s| - 1] == front;
    if n >= 10 { ValueOfDigits(n / 10); }
  }

  /** s is the usual decimal text of n: its digits, the first of which is 0 only for zero itself. */
  ghost predicate IsDecimal(s: string, n: nat) {
    && s != "" && (forall k :: 0 <= k < |s| ==> '0' <= s[k] <= '9')
    && (s[0] == '0' ==> s == "0") && Value(s) == n
  }

  lemma {:induction false} DigitsAreDecimal(n: nat)
    ensures IsDecimal(Digits(n), n)
    ensures n > 0 ==> Digits(n)[0] != '0'
  {
    ValueOfDigits(n);
    if n >= 10 { DigitsAreDecimal(n / 10); }
  }

  lemma DigitsInjective(a: nat, b: nat)
    requires Digits(a) == Digits(b)
    ensures a == b
  {
    ValueOfDigits(a);
    ValueOfDigits(b);
  }
}
