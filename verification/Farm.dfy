/** Farm rewards: a per-share accumulator, positions settled lazily, and what is credited in the end. */
module Farm {
  import opened Arith
  import opened MapSums
  import opened StakingBook

  const ACC_DENOM: nat := 1_000_000_000_000_000_000_000_000
  const YOCTO: nat := 1_000_000_000_000_000_000_000_000
  const SECOND_NS: nat := 1_000_000_000

  type ProductId = string

  /** Positions are kept per account and product. */
  type Key = (AccountId, ProductId)

  datatype Pool = Pool(totalShares: nat, acc: nat, lastSettle: nat, rate: nat)

  /** An active position; a closed one has handed its units to the account and is dropped. */
  datatype Position = Position(shares: nat, debt: nat, accrued: nat)

  /** One farm price: its pool, the active positions by owner, and counts kept for the proofs: units handed to accounts
      at closing, units emitted by the pool, stakes and unstakes so far, and what the settlements may have lost to
      rounding, in fractions `1 / ACC_DENOM` of a unit. */
  datatype State = State(
    pool: Pool,
    positions: map<Key, Position>,
    paid: nat,
    emitted: nat,
    events: nat,
    dust: nat)

  // ---------------------------------------------------------------------------
  // Rewards
  // ---------------------------------------------------------------------------

  /** `farm_delta_reward_units`. */
  function DeltaUnits(near: nat, elapsed: nat, rate: nat): nat { near * elapsed * rate / YOCTO / SECOND_NS }

  /** `farm_position_accumulated`. */
  function Accumulated(shares: nat, acc: nat): nat { shares * acc / ACC_DENOM }

  /** Units emitted between the last settlement and `now`, priced by the validator's row. */
  function EmittedBy(pool: Pool, v: Validator, now: nat): nat {
    if now <= pool.lastSettle || pool.totalShares == 0 then 0
    else DeltaUnits(NearFromShares(pool.totalShares, v.NetStake(), v.totalShares), now - pool.lastSettle, pool.rate)
  }

  /** `simulate_settled_farm_pool`. */
  function SettledPool(pool: Pool, v: Validator, now: nat): Pool {
    if now <= pool.lastSettle then pool
    else if pool.totalShares == 0 then pool.(lastSettle := now)
    else
      var delta := EmittedBy(pool, v, now);
      pool.(acc := if delta > 0 then pool.acc + delta * ACC_DENOM / pool.totalShares else pool.acc, lastSettle := now)
  }

  /** A settlement that emits loses less than one fraction per share. */
  function DustBy(pool: Pool, v: Validator, now: nat): nat {
    if EmittedBy(pool, v, now) == 0 then 0 else pool.totalShares
  }

  /** `settle_farm_position` on a settled pool. */
  function SettledPosition(p: Position, acc: nat): Position {
    var accumulated := Accumulated(p.shares, acc);
    p.(accrued := p.accrued + (if accumulated > p.debt then accumulated - p.debt else 0), debt := accumulated)
  }

  /** `preview_farm_position_pending`. */
  function Preview(p: Position, pool: Pool, v: Validator, now: nat): nat {
    var accumulated := Accumulated(p.shares, SettledPool(pool, v, now).acc);
    p.accrued + if accumulated > p.debt then accumulated - p.debt else 0
  }

  function Settled(s: State, v: Validator, now: nat): State {
    s.(pool := SettledPool(s.pool, v, now), emitted := s.emitted + EmittedBy(s.pool, v, now),
       dust := s.dust + DustBy(s.pool, v, now))
  }

  /** A position with `shares`, its debt taken at the current accumulator. */
  function Rebased(p: Position, shares: nat, acc: nat): Position {
    p.(shares := shares, debt := Accumulated(shares, acc))
  }

  /** `commit_farm_stake`, for shares minted by the stake. */
  function Staked(s: State, owner: Key, added: nat, v: Validator, now: nat): State {
    var c := Settled(s, v, now);
    var p := if owner in s.positions then SettledPosition(s.positions[owner], c.pool.acc) else Position(0, 0, 0);
    c.(pool := c.pool.(totalShares := c.pool.totalShares + added),
       positions := c.positions[owner := Rebased(p, p.shares + added, c.pool.acc)],
       events := c.events + 1)
  }

  /** A new reward rate applies from `now` on: the pool is settled at the old one first. */
  function RateSet(s: State, rate: nat, v: Validator, now: nat): State {
    var c := Settled(s, v, now);
    c.(pool := c.pool.(rate := rate))
  }

  predicate CanUnstake(s: State, owner: Key, removed: nat) {
    owner in s.positions && removed <= s.positions[owner].shares && removed <= s.pool.totalShares
  }

  /** `commit_farm_unstake`: the last share closes the position and banks its units. */
  function Unstaked(s: State, owner: Key, removed: nat, v: Validator, now: nat): State
    requires CanUnstake(s, owner, removed)
  {
    var c := Settled(s, v, now);
    var p := SettledPosition(s.positions[owner], c.pool.acc);
    var c' := c.(pool := c.pool.(totalShares := s.pool.totalShares - removed), events := c.events + 1);
    if p.shares == removed
    then c'.(positions := c.positions - {owner}, paid := c.paid + p.accrued)
    else c'.(positions := c.positions[owner := Rebased(p, p.shares - removed, c.pool.acc)])
  }

  // ---------------------------------------------------------------------------
  // What is credited
  // ---------------------------------------------------------------------------

  const SHARES: Position -> nat := (p: Position) => p.shares
  const DEBT: Position -> nat := (p: Position) => p.debt
  const ACCRUED: Position -> nat := (p: Position) => p.accrued

  ghost function Shares(s: State): nat { SumMap(s.positions, SHARES) }
  ghost function Debt(s: State): nat { SumMap(s.positions, DEBT) }
  ghost function Accrued(s: State): nat { SumMap(s.positions, ACCRUED) }

  /** Units credited to accounts, in open positions and at closing. */
  ghost function Credited(s: State): nat { Accrued(s) + s.paid }

  /** No position owes more than it has accumulated. */
  ghost predicate DebtsCovered(s: State) {
    forall a :: a in s.positions ==> s.positions[a].debt * ACC_DENOM <= s.positions[a].shares * s.pool.acc
  }

  /** Credited units and what the positions have accumulated beyond their debts are covered by emission, up to a
      unit of rounding for every stake and unstake. */
  ghost predicate Covered(s: State) {
    Credited(s) * ACC_DENOM + s.pool.totalShares * s.pool.acc
    <= s.emitted * ACC_DENOM + s.events * (ACC_DENOM - 1) + Debt(s) * ACC_DENOM
  }

  /** And emission is handed on to them, up to a unit for every stake and unstake and the dust of the settlements. */
  ghost predicate HandedOn(s: State) {
    s.emitted * ACC_DENOM + Debt(s) * ACC_DENOM
    <= Credited(s) * ACC_DENOM + s.pool.totalShares * s.pool.acc + s.events * (ACC_DENOM - 1) + s.dust
  }

  ghost predicate Valid(s: State) {
    Shares(s) == s.pool.totalShares && DebtsCovered(s) && Covered(s) && HandedOn(s)
  }

  lemma AccumulatedBounds(shares: nat, acc: nat)
    ensures Accumulated(shares, acc) * ACC_DENOM <= shares * acc < Accumulated(shares, acc) * ACC_DENOM + ACC_DENOM
  {
    Quot(Accumulated(shares, acc), shares * acc, ACC_DENOM);
  }

  lemma DebtAtMostAccumulated(p: Position, acc: nat)
    requires p.debt * ACC_DENOM <= p.shares * acc
    ensures p.debt <= Accumulated(p.shares, acc)
  {
    Quotient(p.debt, p.shares * acc, ACC_DENOM);
  }

  /** Writing one position changes each sum by that position's change. */
  lemma WriteSums(m: map<Key, Position>, a: Key, p: Position)
    ensures SumMap(m[a := p], SHARES) == SumMap(m, SHARES) - ValueAt(m, SHARES, a) + p.shares
    ensures SumMap(m[a := p], DEBT) == SumMap(m, DEBT) - ValueAt(m, DEBT, a) + p.debt
    ensures SumMap(m[a := p], ACCRUED) == SumMap(m, ACCRUED) - ValueAt(m, ACCRUED, a) + p.accrued
  {
    hide SumMap;
    SumMapUpdate(m, SHARES, a, p);
    SumMapUpdate(m, DEBT, a, p);
    SumMapUpdate(m, ACCRUED, a, p);
  }

  lemma EmissionFits(total: nat, delta: nat, acc: nat)
    requires total > 0
    ensures total * (acc + delta * ACC_DENOM / total) <= total * acc + delta * ACC_DENOM
         <= total * (acc + delta * ACC_DENOM / total) + total
  {
    Quot(delta * ACC_DENOM / total, delta * ACC_DENOM, total);
    assert total * (acc + delta * ACC_DENOM / total) == total * acc + total * (delta * ACC_DENOM / total);
  }

  lemma NoEmission(pool: Pool, v: Validator, now: nat)
    ensures now <= pool.lastSettle || pool.totalShares == 0 ==> EmittedBy(pool, v, now) == 0
  {
  }

  lemma PoolAccGrows(pool: Pool, v: Validator, now: nat)
    ensures SettledPool(pool, v, now).acc >= pool.acc && SettledPool(pool, v, now).totalShares == pool.totalShares
    ensures pool.totalShares * SettledPool(pool, v, now).acc
         <= pool.totalShares * pool.acc + EmittedBy(pool, v, now) * ACC_DENOM
    ensures pool.totalShares * pool.acc + EmittedBy(pool, v, now) * ACC_DENOM
         <= pool.totalShares * SettledPool(pool, v, now).acc + DustBy(pool, v, now)
  {
    hide EmittedBy;
    NoEmission(pool, v, now);
    if now > pool.lastSettle && pool.totalShares > 0 {
      EmissionFits(pool.totalShares, EmittedBy(pool, v, now), pool.acc);
    }
  }

  /** Settling the pool keeps the books: what the accumulator hands out was emitted. */
  lemma SettledIsValid(s: State, v: Validator, now: nat)
    requires Valid(s)
    ensures Valid(Settled(s, v, now))
  {
    hide SettledPool, EmittedBy, DustBy, SumMap;
    PoolAccGrows(s.pool, v, now);
    var c := Settled(s, v, now);
    forall a | a in c.positions ensures c.positions[a].debt * ACC_DENOM <= c.positions[a].shares * c.pool.acc {
      MulMono(c.positions[a].shares, s.pool.acc, c.pool.acc);
    }
  }

  /** One position brought up to the accumulator. */
  function PositionSettled(s: State, owner: Key): State
    requires owner in s.positions
  {
    s.(positions := s.positions[owner := SettledPosition(s.positions[owner], s.pool.acc)])
  }

  /** Settling a position moves units from its claim to its credit, and none are lost or made. */
  lemma PositionSettledIsValid(s: State, owner: Key)
    requires Valid(s) && owner in s.positions
    ensures Valid(PositionSettled(s, owner))
  {
    hide SumMap, Accumulated;
    var p, q := s.positions[owner], SettledPosition(s.positions[owner], s.pool.acc);
    DebtAtMostAccumulated(p, s.pool.acc);
    AccumulatedBounds(p.shares, s.pool.acc);
    WriteSums(s.positions, owner, q);
  }

  /** Taking the debt anew at the accumulator costs less than one unit. */
  lemma RebaseCost(before: nat, shares: nat, acc: nat, total: nat)
    requires before <= total
    ensures (total - before + shares) * acc + Accumulated(before, acc) * ACC_DENOM
         <= total * acc + Accumulated(shares, acc) * ACC_DENOM + (ACC_DENOM - 1)
    ensures total * acc + Accumulated(shares, acc) * ACC_DENOM
         <= (total - before + shares) * acc + Accumulated(before, acc) * ACC_DENOM + (ACC_DENOM - 1)
  {
    AccumulatedBounds(before, acc);
    AccumulatedBounds(shares, acc);
    assert (total - before + shares) * acc == total * acc - before * acc + shares * acc;
  }

  /** A settled position, or none, replaced by one with other shares. */
  lemma RebasedIsValid(s: State, owner: Key, shares: nat)
    requires Valid(s)
    requires owner in s.positions ==> s.positions[owner].debt == Accumulated(s.positions[owner].shares, s.pool.acc)
    ensures var p := if owner in s.positions then s.positions[owner] else Position(0, 0, 0);
            && p.shares <= s.pool.totalShares
            && Valid(s.(pool := s.pool.(totalShares := s.pool.totalShares - p.shares + shares),
                        positions := s.positions[owner := Rebased(p, shares, s.pool.acc)], events := s.events + 1))
  {
    hide SumMap, Accumulated;
    var p := if owner in s.positions then s.positions[owner] else Position(0, 0, 0);
    ValueAtMost(s.positions, SHARES, owner);
    WriteSums(s.positions, owner, Rebased(p, shares, s.pool.acc));
    NothingAccumulated(s.pool.acc);
    RebaseCost(p.shares, shares, s.pool.acc, s.pool.totalShares);
    AccumulatedBounds(shares, s.pool.acc);
  }

  lemma NothingAccumulated(acc: nat)
    ensures Accumulated(0, acc) == 0
  {
  }

  /** Closing a settled position banks its units. */
  lemma ClosedIsValid(s: State, owner: Key)
    requires Valid(s) && owner in s.positions
    requires s.positions[owner].debt == Accumulated(s.positions[owner].shares, s.pool.acc)
    ensures var p := s.positions[owner];
            && p.shares <= s.pool.totalShares
            && Valid(s.(pool := s.pool.(totalShares := s.pool.totalShares - p.shares),
                        positions := s.positions - {owner}, paid := s.paid + p.accrued, events := s.events + 1))
  {
    hide SumMap, Accumulated;
    var p := s.positions[owner];
    ValueAtMost(s.positions, SHARES, owner);
    SumMapRemove(s.positions, SHARES, owner);
    SumMapRemove(s.positions, DEBT, owner);
    SumMapRemove(s.positions, ACCRUED, owner);
    NothingAccumulated(s.pool.acc);
    RebaseCost(p.shares, 0, s.pool.acc, s.pool.totalShares);
  }

  lemma StakedIsValid(s: State, owner: Key, added: nat, v: Validator, now: nat)
    requires Valid(s)
    ensures Valid(Staked(s, owner, added, v, now))
  {
    hide Valid, SettledPool, EmittedBy, Accumulated;
    var c := Settled(s, v, now);
    SettledIsValid(s, v, now);
    if owner in s.positions {
      PositionSettledIsValid(c, owner);
      var d := PositionSettled(c, owner);
      RebasedIsValid(d, owner, d.positions[owner].shares + added);
      assert d.positions[owner := Rebased(d.positions[owner], d.positions[owner].shares + added, d.pool.acc)]
          == c.positions[owner := Rebased(d.positions[owner], d.positions[owner].shares + added, d.pool.acc)];
    } else {
      RebasedIsValid(c, owner, added);
    }
  }

  lemma RateSetIsValid(s: State, rate: nat, v: Validator, now: nat)
    requires Valid(s)
    ensures Valid(RateSet(s, rate, v, now))
  {
    hide SettledPool, EmittedBy, DustBy, SumMap;
    SettledIsValid(s, v, now);
  }

  lemma UnstakedIsValid(s: State, owner: Key, removed: nat, v: Validator, now: nat)
    requires Valid(s) && CanUnstake(s, owner, removed)
    ensures Valid(Unstaked(s, owner, removed, v, now))
  {
    hide Valid, EmittedBy, Accumulated;
    var c := Settled(s, v, now);
    SettledIsValid(s, v, now);
    PositionSettledIsValid(c, owner);
    var d := PositionSettled(c, owner);
    var p := d.positions[owner];
    if p.shares == removed {
      ClosedIsValid(d, owner);
      assert d.positions - {owner} == c.positions - {owner};
    } else {
      RebasedIsValid(d, owner, p.shares - removed);
      assert d.positions[owner := Rebased(p, p.shares - removed, d.pool.acc)]
          == c.positions[owner := Rebased(p, p.shares - removed, d.pool.acc)];
    }
  }

  /** The position's own shares are always there to be taken out. */
  lemma UnstakeNeverUnderflows(s: State, owner: Key, removed: nat)
    requires Valid(s) && owner in s.positions && removed <= s.positions[owner].shares
    ensures CanUnstake(s, owner, removed)
  {
    hide SumMap;
    ValueAtMost(s.positions, SHARES, owner);
  }

  /** What the positions owe is at most what they have accumulated. */
  lemma {:induction false} DebtFits(m: map<Key, Position>, acc: nat)
    requires forall a :: a in m ==> m[a].debt * ACC_DENOM <= m[a].shares * acc
    ensures SumMap(m, DEBT) * ACC_DENOM <= SumMap(m, SHARES) * acc
    decreases |m|
  {
    hide SumMap;
    if m == map[] {
      SumMapEmpty(m, DEBT);
    } else {
      var a :| a in m;
      SumMapSplit(m, DEBT, a);
      SumMapSplit(m, SHARES, a);
      DebtFits(m - {a}, acc);
      assert (m[a].shares + SumMap(m - {a}, SHARES)) * acc == m[a].shares * acc + SumMap(m - {a}, SHARES) * acc;
    }
  }

  /** Units credited stay within units emitted and one per stake and unstake, and below that once there was one. */
  lemma CreditedIsCovered(s: State)
    requires Valid(s)
    ensures Credited(s) <= s.emitted + s.events
    ensures s.events > 0 ==> Credited(s) < s.emitted + s.events
  {
    hide SumMap;
    DebtFits(s.positions, s.pool.acc);
    var left, right := Credited(s), s.emitted + s.events;
    assert left * ACC_DENOM + s.events <= right * ACC_DENOM;
  }

  /** The state of a farm price that has just been opened. */
  function Opened(rate: nat, now: nat): State { State(Pool(0, 0, now, rate), map[], 0, 0, 0, 0) }

  lemma OpenedIsValid(rate: nat, now: nat)
    ensures Valid(Opened(rate, now))
  {
  }

  /** Settling again at the same time changes nothing. */
  lemma SettledTwice(pool: Pool, v: Validator, now: nat)
    ensures SettledPool(SettledPool(pool, v, now), v, now) == SettledPool(pool, v, now)
  {
  }
}
