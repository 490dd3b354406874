/** The few facts about products and quotients of variables that the proofs use. */
module Arithmetic {
  lemma {:induction false} MulMono(x: int, y: int, t: nat)
    requires x <= y
    ensures x * t <= y * t
  {
    assert (y - x) * t >= 0;
    assert (y - x) * t == y * t - x * t;
  }

  lemma {:induction false} MulCancel(x: int, y: int, t: nat)
    requires x * t < y * t
    ensures x < y
  {
    if x >= y {
      MulMono(y, x, t);
    }
  }

  lemma {:induction false} DivModUnique(x: int, t: nat, q: int, r: nat)
    requires r < t && x == q * t + r
    ensures x / t == q && x % t == r
  {
    var d := x / t;
    assert x == d * t + x % t;
    assert (q + 1) * t == q * t + t && (d + 1) * t == d * t + t;
    MulCancel(q, d + 1, t);
    MulCancel(d, q + 1, t);
  }

  lemma {:induction false} DivBetween(x: nat, t: nat, q: nat)
    requires t > 0 && q * t <= x < (q + 1) * t
    ensures x / t == q
  {
    assert (q + 1) * t == q * t + t;
    DivModUnique(x, t, q, x - q * t);
  }
}
