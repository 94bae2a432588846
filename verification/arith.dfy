/** Facts about multiplication and integer division that the solver does not find unaided. */
module Arith {
  lemma {:induction false} MulMonotone(d: nat, x: int, y: int)
    ensures x <= y ==> d * x <= d * y
    decreases if x <= y then y - x else 0
  {
    if x < y {
      MulMonotone(d, x + 1, y);
      assert d * (x + 1) == d * x + d;
    }
  }

  lemma DivMonotone(a: int, b: int, d: int)
    requires 0 < d && a <= b
    ensures a / d <= b / d
  {
    var qa, qb := a / d, b / d;
    assert a == d * qa + a % d;
    assert b == d * qb + b % d;
    MulMonotone(d, qb + 1, qa);
    assert d * (qb + 1) == d * qb + d;
  }

  lemma DivUnique(n: int, d: int, q: int)
    requires 0 < d && d * q <= n < d * q + d
    ensures n / d == q
  {
    var r := n / d;
    assert n == d * r + n % d;
    MulMonotone(d, r + 1, q);
    MulMonotone(d, q + 1, r);
    assert d * (r + 1) == d * r + d;
    assert d * (q + 1) == d * q + d;
  }

  /** Parity alternates from one natural number to the next. */
  lemma ParityStep(k: nat)
    ensures (k + 1) % 2 == 1 <==> k % 2 == 0
    ensures k % 2 == 0 || k % 2 == 1
  {
    DivUnique(k, 2, k / 2);
    if k % 2 == 0 {
      DivUnique(k + 1, 2, k / 2);
    } else {
      DivUnique(k + 1, 2, k / 2 + 1);
    }
  }
}
