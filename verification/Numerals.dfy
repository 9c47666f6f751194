/** Numbers as text. */
module Numerals {
  function Digit(d: nat): char
    requires d < 16
  {
    if d < 10 then (48 + d) as char else (87 + d) as char
  }

  /** `strconv.Itoa` on a non-negative number. */
  function Dec(n: nat): (s: string)
    ensures |s| >= 1
  {
    if n < 10 then [Digit(n)] else Dec(n / 10) + [Digit(n % 10)]
  }

  function DigitValue(c: char): int {
    if c <= '9' then c as int - 48 else c as int - 87
  }

  function Undec(s: string): int {
    if s == [] then 0 else Undec(s[..|s| - 1]) * 10 + DigitValue(s[|s| - 1])
  }

  lemma {:induction false} UndecDec(n: nat)
    ensures Undec(Dec(n)) == n
  {
    if n >= 10 {
      UndecDec(n / 10);
      var s := Dec(n / 10);
      assert (s + [Digit(n % 10)])[..|s|] == s;
    } else {
      assert [Digit(n)][..0] == [];
    }
  }
}
