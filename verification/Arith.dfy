/** Facts about products and quotients of naturals that the solver needs spelled out. */
module Arith {

  lemma Floor(x: nat, d: nat)
    requires d > 0
    ensures x / d * d <= x < (x / d + 1) * d
  {
  }

  lemma Quot(q: nat, x: nat, d: nat)
    requires d > 0 && q == x / d
    ensures q * d <= x < q * d + d
  {
  }

  lemma MulMono(k: nat, a: int, b: int)
    requires a <= b
    ensures k * a <= k * b
  {
  }

  lemma MulPositive(k: nat, x: int)
    requires k > 0 && x > 0
    ensures k * x > 0
  {
  }

  lemma Cancel(k: nat, a: int, b: int)
    requires k > 0 && k * a <= k * b
    ensures a <= b
  {
    if a > b {
      MulPositive(k, a - b);
      assert false;
    }
  }

  /** `q` units of `d` fit in `x` exactly when `q` is at most the quotient. */
  lemma Quotient(q: nat, x: nat, d: nat)
    requires d > 0
    ensures q * d <= x <==> q <= x / d
  {
    Floor(x, d);
    if q <= x / d {
      assert q * d <= x / d * d;
    } else {
      assert q * d >= (x / d + 1) * d;
    }
  }
}
