/** Bitwise operators on non-negative numbers. */
module Bits {
  function Or(a: nat, b: nat): nat {
    if a == 0 then b
    else if b == 0 then a
    else 2 * Or(a / 2, b / 2) + if a % 2 == 1 || b % 2 == 1 then 1 else 0
  }

  function And(a: nat, b: nat): nat {
    if a == 0 || b == 0 then 0 else 2 * And(a / 2, b / 2) + if a % 2 == 1 && b % 2 == 1 then 1 else 0
  }

  function Pow2(k: nat): (p: nat)
    ensures p >= 1
  {
    if k == 0 then 1 else 2 * Pow2(k - 1)
  }

  function ShiftLeft(v: nat, k: nat): nat {
    if k == 0 then v else 2 * ShiftLeft(v, k - 1)
  }

  /** `|` on numbers that share no bit adds them. */
  lemma {:induction false} OrAdds(a: nat, v: nat, k: nat)
    requires a < Pow2(k)
    ensures Or(a, ShiftLeft(v, k)) == a + ShiftLeft(v, k)
  {
    if k > 0 {
      OrAdds(a / 2, v, k - 1);
    }
  }

  lemma {:induction false} AndEven(v: nat, m: nat)
    ensures And(v, 2 * m) == 2 * And(v / 2, m)
  {
  }

  lemma {:induction false} AndOdd(v: nat, m: nat)
    ensures And(v, 2 * m + 1) == 2 * And(v / 2, m) + v % 2
  {
    assert (2 * m + 1) / 2 == m && (2 * m + 1) % 2 == 1;
  }

  lemma {:induction false} AndOddTwice(v: nat, m: nat)
    ensures And(v, 4 * m + 3) == 4 * And(v / 4, m) + v % 4
  {
    AndOdd(v, 2 * m + 1);
    AndOdd(v / 2, m);
  }

  lemma {:induction false} AndEvenTwice(v: nat, m: nat)
    ensures And(v, 4 * m) == 4 * And(v / 4, m)
  {
    AndEven(v, 2 * m);
    AndEven(v / 2, m);
  }

  lemma {:induction false} QuarterTwice(v: nat)
    ensures v / 4 / 4 == v / 16 && v % 16 == 4 * (v / 4 % 4) + v % 4
  {
  }

  /** A mask of four ones keeps the last hexadecimal digit. */
  lemma {:induction false} AndDigit(v: nat, m: nat)
    ensures And(v, 16 * m + 15) == 16 * And(v / 16, m) + v % 16
  {
    AndOddTwice(v, 4 * m + 3);
    AndOddTwice(v / 4, m);
    QuarterTwice(v);
  }

  /** A mask of four zeros drops it. */
  lemma {:induction false} AndNoDigit(v: nat, m: nat)
    ensures And(v, 16 * m) == 16 * And(v / 16, m)
  {
    AndEvenTwice(v, 4 * m);
    AndEvenTwice(v / 4, m);
    QuarterTwice(v);
    assert 4 * (4 * m) == 16 * m;
  }
}
