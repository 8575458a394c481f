/** Decimal text of natural numbers, as `std::to_string` writes a
    non-negative `int`: the shortest run of ASCII digits, most significant
    first, with no sign and no leading zero. */
module Decimal {

  predicate IsDigit(ch: char) {
    '0' <= ch <= '9'
  }

  function DigitChar(d: nat): (ch: char)
    requires d < 10
    ensures IsDigit(ch) && ch as int - '0' as int == d
  {
    ['0', '1', '2', '3', '4', '5', '6', '7', '8', '9'][d]
  }

  function DigitValue(ch: char): nat
    requires IsDigit(ch)
  {
    ch as int - '0' as int
  }

  /** The text `std::to_string(n)` gives for 0 <= n. */
  function ToString(n: nat): (s: string)
    ensures 1 <= |s|
    ensures forall i :: 0 <= i < |s| ==> IsDigit(s[i])
    ensures s[0] == '0' ==> n == 0 && |s| == 1
    ensures n < 10 <==> |s| == 1
  {
    if n < 10 then [DigitChar(n)] else ToString(n / 10) + [DigitChar(n % 10)]
  }

  /** Reads a run of digits back as a number: the inverse of ToString. */
  function Value(s: string): nat
    requires forall i :: 0 <= i < |s| ==> IsDigit(s[i])
  {
    if s == [] then 0 else 10 * Value(s[..|s| - 1]) + DigitValue(s[|s| - 1])
  }

  lemma {:induction false} ValueOfToString(n: nat)
    ensures Value(ToString(n)) == n
  {
    var s := ToString(n);
    if n >= 10 {
      ValueOfToString(n / 10);
      assert s[..|s| - 1] == ToString(n / 10);
    }
  }

  /** Distinct counter values give distinct entry numbers. */
  lemma {:induction false} ToStringInjective(m: nat, n: nat)
    requires ToString(m) == ToString(n)
    ensures m == n
  {
    ValueOfToString(m);
    ValueOfToString(n);
  }
}
