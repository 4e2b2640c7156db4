/** The width of unsigned int. */
module Unsigned {
  /** How many values an unsigned int has. */
  const UINT: nat := 0x1_0000_0000

  lemma {:induction false} RunningSum(a: nat, b: nat)
    ensures (a % UINT + b) % UINT == (a + b) % UINT
  {
    var q := a / UINT;
    assert a == q * UINT + a % UINT;
    assert (a % UINT + b + q * UINT) % UINT == (a % UINT + b) % UINT by {
      ModShift(a % UINT + b, q);
    }
  }

  lemma {:induction false} ModShift(x: nat, q: nat)
    ensures (x + q * UINT) % UINT == x % UINT
    decreases q
  {
    if q > 0 {
      ModShift(x + UINT, q - 1);
      assert x + q * UINT == x + UINT + (q - 1) * UINT;
    }
  }

  /** A product may be taken of remainders. */
  lemma {:induction false} ProductOfRemainder(a: nat, b: nat)
    ensures a * (b % UINT) % UINT == a * b % UINT
  {
    var q, r := b / UINT, b % UINT;
    assert b == r + q * UINT;
    Regroup(a, r, q, UINT);
    ModShift(a * r, a * q);
  }

  lemma {:induction false} Regroup(a: nat, r: nat, q: nat, m: nat)
    ensures a * (r + q * m) == a * r + (a * q) * m
  {
    assert a * (r + q * m) == a * r + a * (q * m);
    assert a * (q * m) == (a * q) * m;
  }
}
