/** What a farm stake earns: what a pool emits, what part of it a position gets, and that nothing but rounding is lost
    on the way to the accounts. */
module FarmRewards {
  import opened Options
  import opened Arith
  import opened MapSums
  import opened StakingBook
  import opened Farm
  import StakingPrice

  // ---------------------------------------------------------------------------
  // Emission
  // ---------------------------------------------------------------------------

  lemma NestedFloor(q: nat, x: nat, c: nat, d: nat)
    requires c > 0 && d > 0
    ensures q <= x / c / d <==> q * d * c <= x
  {
    Quotient(q, x / c, d);
    Quotient(q * d, x, c);
  }

  /** The rate is in units per NEAR and second: the units are as many as the product of yocto, nanoseconds and rate
      holds, rounded down. */
  lemma DeltaIsFloor(near: nat, elapsed: nat, rate: nat, q: nat)
    ensures q <= DeltaUnits(near, elapsed, rate) <==> q * SECOND_NS * YOCTO <= near * elapsed * rate
  {
    NestedFloor(q, near * elapsed * rate, YOCTO, SECOND_NS);
  }

  /** Whole NEAR staked for whole seconds earn exactly. */
  lemma DeltaInWholeUnits(n: nat, seconds: nat, rate: nat)
    ensures DeltaUnits(n * YOCTO, seconds * SECOND_NS, rate) == n * seconds * rate
  {
    var q := n * seconds * rate;
    WholeProduct(n, seconds, rate, YOCTO, SECOND_NS);
    DeltaIsFloor(n * YOCTO, seconds * SECOND_NS, rate, q);
    DeltaIsFloor(n * YOCTO, seconds * SECOND_NS, rate, q + 1);
    assert (q + 1) * SECOND_NS * YOCTO > q * SECOND_NS * YOCTO;
  }

  lemma WholeProduct(n: nat, s: nat, r: nat, y: nat, c: nat)
    ensures (n * y) * (s * c) * r == (n * s * r) * c * y
  {
    assert (n * y) * (s * c) == (n * s) * (y * c);
    assert (n * s) * (y * c) * r == (n * s * r) * (y * c);
  }

  /** A pool that holds the worth of `n` NEAR emits `n` times its rate every second. */
  lemma EmissionInWholeUnits(pool: Pool, v: Validator, n: nat, seconds: nat)
    requires pool.totalShares > 0 && NearFromShares(pool.totalShares, v.NetStake(), v.totalShares) == n * YOCTO
    ensures EmittedBy(pool, v, pool.lastSettle + seconds * SECOND_NS) == n * seconds * pool.rate
  {
    hide DeltaUnits, NearFromShares;
    if seconds > 0 { DeltaInWholeUnits(n, seconds, pool.rate); }
  }

  /** Settling in between changes what is emitted by at most one unit, and never to more. */
  lemma EmissionsAdd(pool: Pool, v: Validator, t1: nat, t2: nat)
    requires pool.lastSettle <= t1 <= t2
    ensures var twice := EmittedBy(pool, v, t1) + EmittedBy(SettledPool(pool, v, t1), v, t2);
            twice <= EmittedBy(pool, v, t2) <= twice + 1
  {
    if pool.totalShares > 0 && pool.lastSettle < t1 < t2 {
      hide DeltaUnits, NearFromShares;
      var near := NearFromShares(pool.totalShares, v.NetStake(), v.totalShares);
      DeltasAdd(near, t1 - pool.lastSettle, t2 - t1, pool.rate);
    }
  }

  lemma DeltasAdd(near: nat, a: nat, b: nat, rate: nat)
    ensures var twice := DeltaUnits(near, a, rate) + DeltaUnits(near, b, rate);
            twice <= DeltaUnits(near, a + b, rate) <= twice + 1
  {
    hide DeltaUnits;
    var x, y := DeltaUnits(near, a, rate), DeltaUnits(near, b, rate);
    DeltaIsFloor(near, a, rate, x);
    DeltaIsFloor(near, a, rate, x + 1);
    DeltaIsFloor(near, b, rate, y);
    DeltaIsFloor(near, b, rate, y + 1);
    DeltaIsFloor(near, a + b, rate, x + y);
    DeltaIsFloor(near, a + b, rate, x + y + 2);
    assert near * (a + b) * rate == near * a * rate + near * b * rate by {
      assert near * (a + b) == near * a + near * b;
      assert (near * a + near * b) * rate == near * a * rate + near * b * rate;
    }
  }

  /** A settlement starts the clock anew, also for a pool without shares: time that has been settled is never paid for
      again, whatever is staked later. */
  lemma SettledTimeIsOver(pool: Pool, v: Validator, now: nat, shares: nat, rate: nat, v': Validator, t: nat)
    requires t <= now || t <= pool.lastSettle
    ensures EmittedBy(SettledPool(pool, v, now).(totalShares := shares, rate := rate), v', t) == 0
  {
    hide DeltaUnits, NearFromShares;
  }

  // ---------------------------------------------------------------------------
  // A position's part
  // ---------------------------------------------------------------------------

  /** Of what the pool emits a settled position earns the part that its shares are of the pool's: at most a unit more,
      and less than a unit less plus what the accumulator rounds away from its shares. */
  lemma EarnsItsPart(p: Position, pool: Pool, v: Validator, now: nat)
    requires p.debt == Accumulated(p.shares, pool.acc) && pool.totalShares > 0
    ensures var earned := Preview(p, pool, v, now) - p.accrued;
            var part := p.shares * EmittedBy(pool, v, now);
            && (earned - 1) * pool.totalShares <= part
            && part * ACC_DENOM <= (earned + 1) * ACC_DENOM * pool.totalShares + p.shares * pool.totalShares
  {
    hide SettledPool, EmittedBy, Accumulated;
    var acc, acc' := pool.acc, SettledPool(pool, v, now).acc;
    PoolAccGrows(pool, v, now);
    AccumulatedBounds(p.shares, acc);
    AccumulatedBounds(p.shares, acc');
    MulMono(p.shares, acc, acc');
    DebtAtMostAccumulated(p, acc');
    var grown := acc' - acc;
    assert p.shares * grown == p.shares * acc' - p.shares * acc;
    assert pool.totalShares * grown == pool.totalShares * acc' - pool.totalShares * acc;
    PartOf(p.shares, pool.totalShares, grown, EmittedBy(pool, v, now), Accumulated(p.shares, acc') - p.debt);
  }

  lemma PartOf(shares: nat, total: nat, grown: nat, emitted: nat, earned: nat)
    requires total * grown <= emitted * ACC_DENOM <= total * grown + total
    requires (earned - 1) * ACC_DENOM <= shares * grown <= (earned + 1) * ACC_DENOM
    ensures (earned - 1) * total <= shares * emitted
    ensures shares * emitted * ACC_DENOM <= (earned + 1) * ACC_DENOM * total + shares * total
  {
    AtMostPart(shares, total, grown, emitted, earned - 1, ACC_DENOM);
    AtLeastPart(shares, total, grown, emitted, earned + 1, ACC_DENOM);
  }

  lemma AtMostPart(shares: nat, total: nat, grown: nat, emitted: nat, earned: int, denom: nat)
    requires denom > 0 && total * grown <= emitted * denom && earned * denom <= shares * grown
    ensures earned * total <= shares * emitted
  {
    MulMono(shares, total * grown, emitted * denom);
    MulMono(total, earned * denom, shares * grown);
    Group(shares, total, grown);
    Group(total, earned, denom);
    Group(shares, emitted, denom);
    Cancel(denom, earned * total, shares * emitted);
  }

  lemma AtLeastPart(shares: nat, total: nat, grown: nat, emitted: nat, earned: int, denom: nat)
    requires emitted * denom <= total * grown + total && shares * grown <= earned * denom
    ensures shares * emitted * denom <= earned * denom * total + shares * total
  {
    MulMono(shares, emitted * denom, total * grown + total);
    MulMono(total, shares * grown, earned * denom);
    Group(shares, total, grown);
    Group(shares, emitted, denom);
    assert shares * (total * grown + total) == shares * (total * grown) + shares * total;
  }

  lemma Group(a: int, b: int, c: int)
    ensures a * (b * c) == b * (a * c) && a * (b * c) == c * (b * a) && a * (b * c) == a * b * c
  {
  }

  /** A stake does not change what is shown as earned at its time; a new position starts with nothing. */
  lemma StakeKeepsEarned(s: State, owner: Key, added: nat, v: Validator, v': Validator, now: nat)
    ensures var s' := Staked(s, owner, added, v, now);
            && owner in s'.positions
            && s'.positions[owner].shares == added + (if owner in s.positions then s.positions[owner].shares else 0)
            && Preview(s'.positions[owner], s'.pool, v', now)
               == if owner in s.positions then Preview(s.positions[owner], s.pool, v, now) else 0
  {
    hide EmittedBy, Accumulated;
    SettledStays(s.pool, v, v', now, s.pool.totalShares + added);
  }

  /** Nor does an unstake: what is left goes on showing it, and what is closed has been handed out. */
  lemma UnstakeKeepsEarned(s: State, owner: Key, removed: nat, v: Validator, v': Validator, now: nat)
    requires CanUnstake(s, owner, removed)
    ensures var s', earned := Unstaked(s, owner, removed, v, now), Preview(s.positions[owner], s.pool, v, now);
            if removed == s.positions[owner].shares then owner !in s'.positions && s'.paid == s.paid + earned
            else owner in s'.positions && s'.paid == s.paid
                 && s'.positions[owner].shares == s.positions[owner].shares - removed
                 && Preview(s'.positions[owner], s'.pool, v', now) == earned
  {
    hide EmittedBy, Accumulated;
    SettledStays(s.pool, v, v', now, s.pool.totalShares - removed);
  }

  /** A new rate does not change what has been earned by its time. */
  lemma RateKeepsEarned(s: State, owner: Key, rate: nat, v: Validator, v': Validator, now: nat)
    requires owner in s.positions
    ensures var s' := RateSet(s, rate, v, now);
            && s'.positions == s.positions && s'.pool.rate == rate
            && Preview(s.positions[owner], s'.pool, v', now) == Preview(s.positions[owner], s.pool, v, now)
  {
    hide EmittedBy, Accumulated;
  }

  lemma SettledStays(pool: Pool, v: Validator, v': Validator, now: nat, shares: nat)
    ensures var p := SettledPool(pool, v, now).(totalShares := shares); SettledPool(p, v', now) == p
  {
    hide EmittedBy;
  }

  // ---------------------------------------------------------------------------
  // Nothing is lost
  // ---------------------------------------------------------------------------

  /** What a position shows as earned when the accumulator stands at `acc`. */
  function Worth(acc: nat): Position -> nat {
    (p: Position) => p.accrued + if Accumulated(p.shares, acc) > p.debt then Accumulated(p.shares, acc) - p.debt else 0
  }

  /** The units handed out at closing and those shown for the open positions. */
  ghost function Shown(s: State): nat { s.paid + SumMap(s.positions, Worth(s.pool.acc)) }

  /** On a settled pool these are the previews. */
  lemma ShownIsPreview(s: State, owner: Key, v: Validator, now: nat)
    requires owner in s.positions
    ensures Worth(Settled(s, v, now).pool.acc)(s.positions[owner]) == Preview(s.positions[owner], s.pool, v, now)
  {
  }

  /** One position: what is shown beyond the credit, against what was accumulated beyond the debt. */
  lemma WorthOfOne(p: Position, acc: nat)
    requires p.debt * ACC_DENOM <= p.shares * acc
    ensures var worth := Worth(acc)(p) * ACC_DENOM;
            worth <= (p.accrued - p.debt) * ACC_DENOM + p.shares * acc <= worth + ACC_DENOM
  {
    hide Accumulated;
    DebtAtMostAccumulated(p, acc);
    AccumulatedBounds(p.shares, acc);
  }

  /** Summed over positions, less than a unit short for each. */
  lemma {:induction false} WorthAddsUp(m: map<Key, Position>, acc: nat)
    requires forall a :: a in m ==> m[a].debt * ACC_DENOM <= m[a].shares * acc
    ensures var worth := SumMap(m, Worth(acc)) * ACC_DENOM;
            var claim := (SumMap(m, ACCRUED) - SumMap(m, DEBT)) * ACC_DENOM + SumMap(m, SHARES) * acc;
            worth <= claim <= worth + |m| * ACC_DENOM
    decreases |m|
  {
    hide SumMap, Worth;
    if m == map[] {
      SumMapEmpty(m, Worth(acc));
      SumMapEmpty(m, ACCRUED);
      SumMapEmpty(m, SHARES);
      SumMapEmpty(m, DEBT);
    } else {
      var a :| a in m;
      SumMapSplit(m, Worth(acc), a);
      SumMapSplit(m, ACCRUED, a);
      SumMapSplit(m, SHARES, a);
      SumMapSplit(m, DEBT, a);
      WorthAddsUp(m - {a}, acc);
      WorthOfOne(m[a], acc);
      assert |m - {a}| == |m| - 1;
      assert (m[a].shares + SumMap(m - {a}, SHARES)) * acc == m[a].shares * acc + SumMap(m - {a}, SHARES) * acc;
    }
  }

  /** What is shown and handed out is what was emitted: never more than a unit per stake and unstake above it, and short
      of it by no more than that, a unit per open position and the dust of the settlements. */
  lemma ShownIsEmitted(s: State)
    requires Valid(s)
    ensures Shown(s) <= s.emitted + s.events
    ensures (s.emitted - Shown(s) - s.events - |s.positions|) * ACC_DENOM <= s.dust
  {
    hide SumMap;
    WorthAddsUp(s.positions, s.pool.acc);
  }

  // ---------------------------------------------------------------------------
  // Unstaking an amount
  // ---------------------------------------------------------------------------

  /** `farm_shares_for_amount_ceil`. */
  function SharesFor(amount: nat, total: nat, net: nat, most: nat): nat
    requires net > 0
  {
    var shares := amount * total / net + if amount * total % net == 0 then 0 else 1;
    if shares < 1 then 1 else if shares > most then most else shares
  }

  /** The shares an unstake of `amount` takes out of a position, all of them if none is given; `None` is a panic. */
  function SharesToRemove(shares: nat, amount: Option<nat>, v: Validator): Option<nat> {
    match amount
    case None => Some(shares)
    case Some(a) =>
      if a == 0 || v.NetStake() == 0 then None
      else if a >= NearFromShares(shares, v.NetStake(), v.totalShares) then Some(shares)
      else Some(SharesFor(a, v.totalShares, v.NetStake(), shares))
  }

  /** Rounding up `x / d` when `most` parts of `d` cover `x`. */
  lemma CeilingIs(x: nat, d: nat, most: nat)
    requires d > 0 && 0 < x <= most * d
    ensures var c := x / d + if x % d == 0 then 0 else 1;
            1 <= c <= most && (c - 1) * d < x <= c * d
  {
    var q := x / d;
    Quot(q, x, d);
    assert (q + 1) * d == q * d + d && (q - 1) * d == q * d - d;
    if q >= most {
      MulMono(d, most, q);
      if q > most { MulMono(d, most + 1, q); }
    }
  }

  lemma SharesForIs(amount: nat, total: nat, net: nat, most: nat)
    requires net > 0 && total > 0 && amount > 0 && amount * total <= most * net
    ensures var n := SharesFor(amount, total, net, most);
            1 <= n <= most && (n - 1) * net < amount * total <= n * net
  {
    MulPositive(amount, total);
    CeilingIs(amount * total, net, most);
  }

  /** An unstake takes the fewest shares that are worth the amount asked for, or the whole position if it is worth no
      more than that. */
  lemma UnstakePaysAmount(shares: nat, amount: nat, v: Validator)
    requires amount > 0 && v.NetStake() > 0
    ensures SharesToRemove(shares, Some(amount), v).Some?
    ensures var n, net, total := SharesToRemove(shares, Some(amount), v).value, v.NetStake(), v.totalShares;
            && n <= shares
            && (NearFromShares(shares, net, total) <= amount ==> n == shares)
            && (NearFromShares(shares, net, total) > amount ==>
                  0 < n && NearFromShares(n - 1, net, total) < amount <= NearFromShares(n, net, total))
  {
    var net, total := v.NetStake(), v.totalShares;
    if NearFromShares(shares, net, total) > amount {
      assert total > 0;
      hide NearFromShares, SharesFor;
      StakingPrice.NearIsFloor(amount, shares, net, total);
      SharesForIs(amount, total, net, shares);
      var n := SharesFor(amount, total, net, shares);
      StakingPrice.NearIsFloor(amount, n - 1, net, total);
      StakingPrice.NearIsFloor(amount, n, net, total);
    }
  }
}
