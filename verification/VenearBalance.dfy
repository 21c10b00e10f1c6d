/** veNEAR balances: exact growth, delegation shares, and the pooled totals they are added into. */
module VenearBalance {
  import opened Options
  import opened Arith

  const MILLI: nat := 1_000_000_000_000_000_000_000   // yocto in a milliNEAR
  const SECOND: nat := 1_000_000_000                  // nanoseconds in a second
  const MAX_BPS: nat := 10_000

  /** Growth per yocto and nanosecond. */
  datatype Rate = Rate(numerator: nat, denominator: nat)

  /** NEAR, which does not grow, and the veNEAR it has earned. */
  datatype Balance = Balance(near: nat, extra: nat) {
    function Total(): nat { near + extra }
  }

  predicate IsZero(b: Balance) { b.near == 0 && b.extra == 0 }

  function Zero(): Balance { Balance(0, 0) }

  const Plus: (Balance, Balance) -> Balance :=
    (a: Balance, b: Balance) => Balance(a.near + b.near, a.extra + b.extra)

  predicate Fits(a: Balance, b: Balance) { a.near <= b.near && a.extra <= b.extra }

  /** Checked subtraction: callers must show it does not underflow. */
  function Minus(a: Balance, b: Balance): Balance
    requires Fits(b, a)
  {
    Balance(a.near - b.near, a.extra - b.extra)
  }

  function Truncate(near: nat): nat { near / MILLI * MILLI }

  function ToSeconds(ns: nat): nat { ns / SECOND }

  // ---------------------------------------------------------------------------
  // Growth
  // ---------------------------------------------------------------------------

  /** Growth of `near` between two timestamps; `None` is a panic, including the rounding check. */
  function Calculate(rate: Rate, previousNs: nat, currentNs: nat, near: nat): Option<nat> {
    if currentNs < previousNs || currentNs % SECOND != 0 || previousNs % SECOND != 0 then None
    else if previousNs == currentNs then Some(0)
    else
      var product := rate.numerator * (currentNs - previousNs) * Truncate(near);
      if rate.denominator == 0 || product % rate.denominator != 0 then None
      else Some(product / rate.denominator)
  }

  /** One milliNEAR earns a whole number of yocto each second. */
  predicate Exact(rate: Rate) {
    rate.denominator > 0 && rate.numerator * SECOND * MILLI % rate.denominator == 0
  }

  function PerUnit(rate: Rate): nat
    requires Exact(rate)
  {
    rate.numerator * SECOND * MILLI / rate.denominator
  }

  /** A balance `secs` seconds later, at `k` yocto per milliNEAR and second. */
  function Grow(b: Balance, secs: nat, k: nat): Balance {
    Balance(b.near, b.extra + k * secs * (b.near / MILLI))
  }

  lemma ProductIsMultiple(n: nat, d: nat, s: nat, m: nat, k: nat, second: nat, milli: nat)
    requires d > 0 && n * second * milli == k * d
    ensures n * (s * second) * (m * milli) == (k * s * m) * d
  {
    calc {
      n * (s * second) * (m * milli);
      == { MulRearrange(n, s, second, m, milli); }
         (n * second * milli) * (s * m);
      == (k * d) * (s * m);
      == { MulSwap(k, d, s, m); }
         (k * s * m) * d;
    }
  }

  lemma MulRearrange(n: nat, s: nat, a: nat, m: nat, b: nat)
    ensures n * (s * a) * (m * b) == (n * a * b) * (s * m)
  {
    assert n * (s * a) == (n * a) * s;
    assert ((n * a) * s) * (m * b) == ((n * a) * b) * (s * m);
  }

  lemma MulSwap(k: nat, d: nat, s: nat, m: nat)
    ensures (k * d) * (s * m) == (k * s * m) * d
  {
    assert (k * d) * (s * m) == k * (s * m) * d;
    assert k * (s * m) == k * s * m;
  }

  lemma ExactDivision(x: nat, q: nat, d: nat)
    requires d > 0 && x == q * d
    ensures x % d == 0 && x / d == q
  {
    Quotient(q, x, d);
    Floor(x, d);
    Cancel(d, x / d, q);
  }

  /** With an exact rate growth never panics, and it is linear in whole seconds and whole milliNEAR. */
  lemma CalculateIsLinear(rate: Rate, previous: nat, current: nat, near: nat)
    requires Exact(rate) && previous <= current
    ensures Calculate(rate, previous * SECOND, current * SECOND, near)
         == Some(PerUnit(rate) * (current - previous) * (near / MILLI))
  {
    var s, m, k, d := current - previous, near / MILLI, PerUnit(rate), rate.denominator;
    if s > 0 {
      Floor(rate.numerator * SECOND * MILLI, d);
      assert rate.numerator * SECOND * MILLI == k * d;
      ProductIsMultiple(rate.numerator, d, s, m, k, SECOND, MILLI);
      ExactDivision(rate.numerator * (s * SECOND) * (m * MILLI), k * s * m, d);
    }
  }

  /** The growth computation never panics on ordered whole-second stamps exactly when the rate is exact. */
  lemma GrowthNeverPanicsIffExact(rate: Rate)
    requires rate.denominator > 0
    ensures Exact(rate) <==>
            forall previous: nat, current: nat, near: nat | previous <= current ::
              Calculate(rate, previous * SECOND, current * SECOND, near).Some?
  {
    if Exact(rate) {
      forall previous: nat, current: nat, near: nat | previous <= current
        ensures Calculate(rate, previous * SECOND, current * SECOND, near).Some?
      {
        CalculateIsLinear(rate, previous, current, near);
      }
    } else {
      assert Calculate(rate, 0 * SECOND, 1 * SECOND, MILLI).None?;
    }
  }

  // ---------------------------------------------------------------------------
  // Delegation shares
  // ---------------------------------------------------------------------------

  /** `bps` basis points of `near`, rounded down. */
  function BpsOf(bps: nat, near: nat): nat {
    if bps == 0 then 0 else if bps == MAX_BPS then near else near * bps / MAX_BPS
  }

  /** The share of an owner's balance credited to one delegate's pool. */
  function Contribution(b: Balance, bps: nat): Balance {
    var base := Truncate(b.near);
    if base == 0 then Balance(base, base)
    else
      var near := Truncate(BpsOf(bps, b.near));
      Balance(near, Portion(b.extra, near, base))
  }

  /** The part of `extra` that `near` is of `base`, rounded down. */
  function Portion(extra: nat, near: nat, base: nat): nat
    requires base > 0
  {
    extra * near / base
  }

  /** Whole milliNEAR delegated and whole milliNEAR owned. */
  function SharedMillis(near: nat, bps: nat): nat { BpsOf(bps, near) / MILLI }

  lemma Associates(a: int, b: int, c: int)
    ensures a * (b * c) == (a * b) * c
  {
  }

  lemma DivCancels(x: nat, c: nat, b: nat, m: nat)
    requires b > 0 && m > 0
    ensures b * m > 0 && x * (c * m) / (b * m) == x * c / b
  {
    var q := x * c / b;
    Quot(q, x * c, b);
    Associates(x, c, m);
    Associates(q, b, m);
    Distributes(q, 1, b);
    Associates(q + 1, b, m);
    MulMono(m, q * b, x * c);
    MulPositive(m, (q + 1) * b - x * c);
    Distributes((q + 1) * b - x * c, x * c, m);
    MulPositive(b, m);
    QuotientIs(q, x * (c * m), b * m);
  }

  lemma QuotientIs(q: nat, x: nat, d: nat)
    requires d > 0 && q * d <= x < (q + 1) * d
    ensures x / d == q
  {
    Quotient(q, x, d);
    Quotient(q + 1, x, d);
  }

  lemma MultipleAdds(x: nat, g: nat, b: nat, c: nat)
    requires b > 0
    ensures (x + g * b) * c / b == x * c / b + g * c
  {
    Spread(x, g, b, c);
    QuotientAdds(x * c, g * c, b);
  }

  lemma Spread(x: int, g: int, b: int, c: int)
    ensures (x + g * b) * c == x * c + (g * c) * b
  {
    assert (g * b) * c == (g * c) * b;
  }

  lemma Distributes(a: int, b: int, c: int)
    ensures (a + b) * c == a * c + b * c
  {
  }

  lemma QuotientAdds(y: nat, m: nat, b: nat)
    requires b > 0
    ensures (y + m * b) / b == y / b + m
  {
    var q := y / b;
    Quot(q, y, b);
    Distributes(q, m, b);
    Distributes(q + m, 1, b);
    QuotientIs(q + m, y + m * b, b);
  }

  /** The contribution in milliNEAR terms: the realized ratio is a ratio of whole milliNEAR. */
  lemma ContributionInMillis(b: Balance, bps: nat)
    requires b.near >= MILLI
    ensures Contribution(b, bps)
         == Balance(SharedMillis(b.near, bps) * MILLI, b.extra * SharedMillis(b.near, bps) / (b.near / MILLI))
  {
    DivCancels(b.extra, SharedMillis(b.near, bps), b.near / MILLI, MILLI);
  }

  /** Growing an owner and then taking the share is growing the share: nothing is lost to rounding. */
  lemma ContributionCommutesWithGrowth(b: Balance, bps: nat, secs: nat, k: nat)
    ensures Contribution(Grow(b, secs, k), bps) == Grow(Contribution(b, bps), secs, k)
  {
    if b.near >= MILLI {
      var m, c := b.near / MILLI, SharedMillis(b.near, bps);
      ContributionInMillis(b, bps);
      ContributionInMillis(Grow(b, secs, k), bps);
      MultipleAdds(b.extra, k * secs, m, c);
    }
  }

  lemma ContributionIsWhole(b: Balance, bps: nat)
    ensures Contribution(b, bps).near % MILLI == 0
  {
  }

  /** Growth is additive over pools of whole milliNEAR. */
  lemma GrowAdds(a: Balance, b: Balance, secs: nat, k: nat)
    requires a.near % MILLI == 0
    ensures Grow(Plus(a, b), secs, k) == Plus(Grow(a, secs, k), Grow(b, secs, k))
  {
    var x, y := a.near / MILLI, b.near / MILLI;
    assert (a.near + b.near) / MILLI == x + y;
    assert k * secs * (x + y) == k * secs * x + k * secs * y;
  }

  lemma GrowZero(secs: nat, k: nat)
    ensures Grow(Zero(), secs, k) == Zero()
  {
  }

  lemma GrowTwice(b: Balance, s1: nat, s2: nat, k: nat)
    ensures Grow(Grow(b, s1, k), s2, k) == Grow(b, s1 + s2, k)
  {
    var m := b.near / MILLI;
    assert k * (s1 + s2) * m == k * s1 * m + k * s2 * m;
  }

  // ---------------------------------------------------------------------------
  // Pooled totals
  // ---------------------------------------------------------------------------

  /** How a balance enters the global total: whole milliNEAR, with the remainder counted as extra. */
  function Pooled(b: Balance): Balance {
    Balance(Truncate(b.near), b.extra + (b.near - Truncate(b.near)))
  }

  lemma PooledCommutesWithGrowth(b: Balance, secs: nat, k: nat)
    ensures Pooled(Grow(b, secs, k)) == Grow(Pooled(b), secs, k)
    ensures Pooled(b).Total() == b.Total() && Pooled(b).near % MILLI == 0
  {
    assert Truncate(b.near) / MILLI == b.near / MILLI;
  }
}
