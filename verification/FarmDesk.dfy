/** All farm prices together. A stake is checked when it is accepted and committed in a later callback; the validator's
    Busy flag keeps the position it was checked against unchanged in between, so every price is a farm of its own. */
module FarmDesk {
  import opened MapSums
  import opened StakingBook
  import opened Farm

  type PriceId = string
  type ValidatorId = string

  /** A stored active position with the price it was opened at. */
  datatype Held = Held(price: PriceId, p: Position)

  /** Per price, for the proofs: units handed out at closing, units emitted, stakes and unstakes, rounding. */
  datatype Counts = Counts(paid: nat, emitted: nat, events: nat, dust: nat)

  /** The action carried through a settlement pipeline. */
  datatype Ticket =
    | StakeTicket(account: AccountId, product: ProductId, price: PriceId)
    | UnstakeTicket(account: AccountId, product: ProductId)

  datatype Desk = Desk(
    positions: map<Key, Held>,
    pools: map<PriceId, Pool>,
    accounts: map<AccountId, nat>,        // units handed out at closing, per account
    counts: map<PriceId, Counts>,
    busy: map<ValidatorId, Ticket>)       // validators whose pipeline is under way

  /** Each product has one validator, for good. */
  type Catalog = ProductId -> ValidatorId

  /** Every position's price has a pool, and every pool its counts. */
  ghost predicate Formed(d: Desk) {
    d.pools.Keys == d.counts.Keys && forall k :: k in d.positions ==> d.positions[k].price in d.pools
  }

  /** The positions at one price. */
  function AtPrice(positions: map<Key, Held>, q: PriceId): map<Key, Position> {
    map k | k in positions && positions[k].price == q :: positions[k].p
  }

  /** One price seen as a farm of its own. */
  function View(d: Desk, q: PriceId): State
    requires q in d.pools && q in d.counts
  {
    var n := d.counts[q];
    State(d.pools[q], AtPrice(d.positions, q), n.paid, n.emitted, n.events, n.dust)
  }

  // ---------------------------------------------------------------------------
  // Commits
  // ---------------------------------------------------------------------------

  /** The counts of a price when its pool is settled. */
  function CountsAfter(n: Counts, pool: Pool, v: Validator, now: nat): Counts {
    n.(emitted := n.emitted + EmittedBy(pool, v, now), dust := n.dust + DustBy(pool, v, now))
  }

  /** `settle_farm_pool`. */
  function PriceSettled(d: Desk, q: PriceId, v: Validator, now: nat): Desk
    requires q in d.pools && q in d.counts
  {
    d.(pools := d.pools[q := SettledPool(d.pools[q], v, now)],
       counts := d.counts[q := CountsAfter(d.counts[q], d.pools[q], v, now)])
  }

  /** `settle_farm_position`. */
  function HolderSettled(d: Desk, key: Key, v: Validator, now: nat): Desk
    requires Formed(d) && key in d.positions
  {
    var h := d.positions[key];
    var c := PriceSettled(d, h.price, v, now);
    c.(positions := c.positions[key := h.(p := SettledPosition(h.p, c.pools[h.price].acc))])
  }

  /** Minted shares enter the pool and the position, whose debt is taken anew. */
  function StakeBooked(c: Desk, key: Key, price: PriceId, added: nat): Desk
    requires price in c.pools && price in c.counts
  {
    var pool := c.pools[price].(totalShares := c.pools[price].totalShares + added);
    var h := if key in c.positions then c.positions[key] else Held(price, Position(0, 0, 0));
    c.(pools := c.pools[price := pool],
       counts := c.counts[price := c.counts[price].(events := c.counts[price].events + 1)],
       positions := c.positions[key := h.(p := Rebased(h.p, h.p.shares + added, pool.acc))])
  }

  /** `commit_farm_stake`, for `added` minted shares: an existing position is settled at its own price and keeps it, the
      ticket's pool gets the shares. */
  function StakeCommitted(d: Desk, key: Key, price: PriceId, added: nat, v: Validator, now: nat): Desk
    requires Formed(d) && price in d.pools
  {
    StakeBooked(if key in d.positions then HolderSettled(d, key, v, now) else PriceSettled(d, price, v, now),
                key, price, added)
  }

  /** What the position and its pool must hold for an unstake. */
  predicate CanTake(d: Desk, key: Key, removed: nat) {
    && key in d.positions && d.positions[key].price in d.pools
    && removed <= d.positions[key].p.shares && removed <= d.pools[d.positions[key].price].totalShares
  }

  function UnitsOf(accounts: map<AccountId, nat>, a: AccountId): nat { if a in accounts then accounts[a] else 0 }

  /** Shares leave the pool and the position; the last one closes it and hands its units to the account. */
  function UnstakeBooked(c: Desk, key: Key, removed: nat): Desk
    requires CanTake(c, key, removed) && c.positions[key].price in c.counts
  {
    var price, p := c.positions[key].price, c.positions[key].p;
    var pool := c.pools[price].(totalShares := c.pools[price].totalShares - removed);
    var n := c.counts[price];
    if p.shares == removed
    then c.(pools := c.pools[price := pool], positions := c.positions - {key},
            accounts := c.accounts[key.0 := UnitsOf(c.accounts, key.0) + p.accrued],
            counts := c.counts[price := n.(events := n.events + 1, paid := n.paid + p.accrued)])
    else c.(pools := c.pools[price := pool],
            positions := c.positions[key := Held(price, Rebased(p, p.shares - removed, pool.acc))],
            counts := c.counts[price := n.(events := n.events + 1)])
  }

  /** `commit_farm_unstake`. */
  function UnstakeCommitted(d: Desk, key: Key, removed: nat, v: Validator, now: nat): Desk
    requires Formed(d) && CanTake(d, key, removed)
  {
    UnstakeBooked(HolderSettled(d, key, v, now), key, removed)
  }

  /** A new reward rate, after settling at the old one. */
  function RateChanged(d: Desk, q: PriceId, rate: nat, v: Validator, now: nat): Desk
    requires q in d.pools && q in d.counts
  {
    var c := PriceSettled(d, q, v, now);
    c.(pools := c.pools[q := c.pools[q].(rate := rate)])
  }

  // ---------------------------------------------------------------------------
  // Every price is a farm of its own
  // ---------------------------------------------------------------------------

  lemma AtPriceWrite(m: map<Key, Held>, key: Key, h: Held, q: PriceId)
    requires key in m ==> m[key].price == h.price
    ensures AtPrice(m[key := h], q) == if q == h.price then AtPrice(m, q)[key := h.p] else AtPrice(m, q)
  {
  }

  lemma AtPriceDrop(m: map<Key, Held>, key: Key, q: PriceId)
    requires key in m
    ensures AtPrice(m - {key}, q) == if q == m[key].price then AtPrice(m, q) - {key} else AtPrice(m, q)
  {
  }

  /** The position a stake leaves. */
  function AfterStake(d: Desk, key: Key, price: PriceId, added: nat, v: Validator, now: nat): Held
    requires Formed(d) && price in d.pools
  {
    StakeCommitted(d, key, price, added, v, now).positions[key]
  }

  lemma StakeWrites(d: Desk, key: Key, price: PriceId, added: nat, v: Validator, now: nat)
    requires Formed(d) && price in d.pools
    ensures var d', h := StakeCommitted(d, key, price, added, v, now), AfterStake(d, key, price, added, v, now);
            && d'.positions == d.positions[key := h]
            && h.price == (if key in d.positions then d.positions[key].price else price)
            && h.p.shares == (if key in d.positions then d.positions[key].p.shares else 0) + added
            && Formed(d') && d'.pools.Keys == d.pools.Keys && d'.accounts == d.accounts && d'.busy == d.busy
  {
    hide SettledPool, EmittedBy, Accumulated, Formed;
    FormedParts(d);
    StaysFormed(d, StakeCommitted(d, key, price, added, v, now), key);
  }

  lemma FormedParts(d: Desk)
    requires Formed(d)
    ensures d.pools.Keys == d.counts.Keys
    ensures forall k :: k in d.positions ==> d.positions[k].price in d.pools && d.positions[k].price in d.counts
  {
  }

  /** Writing one position at a price that has a pool keeps the desk formed. */
  lemma StaysFormed(d: Desk, d': Desk, key: Key)
    requires Formed(d) && key in d'.positions && d'.positions == d.positions[key := d'.positions[key]]
    requires d'.positions[key].price in d.pools && d'.pools.Keys == d.pools.Keys && d'.counts.Keys == d.counts.Keys
    ensures Formed(d')
  {
  }

  /** A stake at the position's own price is a stake on that farm ... */
  lemma StakeViewsOwn(d: Desk, key: Key, price: PriceId, added: nat, v: Validator, now: nat)
    requires Formed(d) && price in d.pools && (key in d.positions ==> d.positions[key].price == price)
    ensures var d' := StakeCommitted(d, key, price, added, v, now);
            Formed(d') && price in d'.pools && View(d', price) == Staked(View(d, price), key, added, v, now)
  {
    hide SettledPool, EmittedBy, SettledPosition, Rebased, AtPrice;
    StakeWrites(d, key, price, added, v, now);
    AtPriceWrite(d.positions, key, AfterStake(d, key, price, added, v, now), price);
    AtPriceHas(d.positions, price, key);
  }

  lemma AtPriceHas(m: map<Key, Held>, q: PriceId, key: Key)
    ensures key in AtPrice(m, q) <==> key in m && m[key].price == q
    ensures key in AtPrice(m, q) ==> AtPrice(m, q)[key] == m[key].p
  {
  }

  /** ... and no other farm notices. */
  lemma StakeViewsOther(d: Desk, key: Key, price: PriceId, added: nat, v: Validator, now: nat, q: PriceId)
    requires Formed(d) && price in d.pools && q in d.pools && q != price
    requires key in d.positions ==> d.positions[key].price == price
    ensures var d' := StakeCommitted(d, key, price, added, v, now);
            Formed(d') && q in d'.pools && View(d', q) == View(d, q)
  {
    hide SettledPool, EmittedBy, SettledPosition, Rebased, AtPrice;
    StakeWrites(d, key, price, added, v, now);
    AtPriceWrite(d.positions, key, AfterStake(d, key, price, added, v, now), q);
  }

  lemma UnstakeWrites(d: Desk, key: Key, removed: nat, v: Validator, now: nat)
    requires Formed(d) && CanTake(d, key, removed)
    ensures var d', h := UnstakeCommitted(d, key, removed, v, now), d.positions[key];
            && (h.p.shares == removed ==> d'.positions == d.positions - {key})
            && (h.p.shares != removed ==>
                  key in d'.positions && d'.positions[key].price == h.price
                  && d'.positions[key].p.shares == h.p.shares - removed
                  && d'.positions == d.positions[key := d'.positions[key]])
            && Formed(d') && d'.pools.Keys == d.pools.Keys && d'.busy == d.busy
  {
    hide SettledPool, EmittedBy, Accumulated;
  }

  /** An unstake is one on the farm of the position's price ... */
  lemma UnstakeViewsOwn(d: Desk, key: Key, removed: nat, v: Validator, now: nat)
    requires Formed(d) && CanTake(d, key, removed)
    ensures var d', price := UnstakeCommitted(d, key, removed, v, now), d.positions[key].price;
            && Formed(d') && price in d'.pools && CanUnstake(View(d, price), key, removed)
            && View(d', price) == Unstaked(View(d, price), key, removed, v, now)
  {
    hide SettledPool, EmittedBy, Accumulated, AtPrice;
    var d', price := UnstakeCommitted(d, key, removed, v, now), d.positions[key].price;
    PoolAccGrows(d.pools[price], v, now);
    UnstakeWrites(d, key, removed, v, now);
    AtPriceHas(d.positions, price, key);
    if d.positions[key].p.shares == removed {
      AtPriceDrop(d.positions, key, price);
    } else {
      AtPriceWrite(d.positions, key, d'.positions[key], price);
    }
  }

  /** ... and of no other. */
  lemma UnstakeViewsOther(d: Desk, key: Key, removed: nat, v: Validator, now: nat, q: PriceId)
    requires Formed(d) && CanTake(d, key, removed) && q in d.pools && q != d.positions[key].price
    ensures var d' := UnstakeCommitted(d, key, removed, v, now);
            Formed(d') && q in d'.pools && View(d', q) == View(d, q)
  {
    hide SettledPool, EmittedBy, Accumulated, AtPrice;
    var d' := UnstakeCommitted(d, key, removed, v, now);
    UnstakeWrites(d, key, removed, v, now);
    if d.positions[key].p.shares == removed {
      AtPriceDrop(d.positions, key, q);
    } else {
      AtPriceWrite(d.positions, key, d'.positions[key], q);
    }
  }

  /** What a closed position has earned goes to its own account, and to no other; nothing else touches the accounts. */
  lemma UnstakeHandsOut(d: Desk, key: Key, removed: nat, v: Validator, now: nat, other: AccountId)
    requires Formed(d) && CanTake(d, key, removed)
    ensures var d', h := UnstakeCommitted(d, key, removed, v, now), d.positions[key];
            var earned := if removed == h.p.shares then Preview(h.p, d.pools[h.price], v, now) else 0;
            && UnitsOf(d'.accounts, key.0) == UnitsOf(d.accounts, key.0) + earned
            && (other != key.0 ==> UnitsOf(d'.accounts, other) == UnitsOf(d.accounts, other))
  {
    hide EmittedBy, Accumulated;
  }

  lemma RateViews(d: Desk, p: PriceId, rate: nat, v: Validator, now: nat, q: PriceId)
    requires Formed(d) && p in d.pools && q in d.pools
    ensures var d' := RateChanged(d, p, rate, v, now);
            && Formed(d') && d'.pools.Keys == d.pools.Keys
            && View(d', q) == if q == p then RateSet(View(d, p), rate, v, now) else View(d, q)
  {
  }

  // ---------------------------------------------------------------------------
  // Why the price must match
  // ---------------------------------------------------------------------------

  /** The positions at a price hold exactly its pool's shares. */
  ghost predicate Balanced(d: Desk, q: PriceId)
    requires q in d.pools && q in d.counts
  {
    Shares(View(d, q)) == d.pools[q].totalShares
  }

  predicate SamePrice(d: Desk, key: Key, price: PriceId) {
    key in d.positions ==> d.positions[key].price == price
  }

  lemma StakeMovesShares(d: Desk, key: Key, price: PriceId, added: nat, v: Validator, now: nat, q: PriceId)
    requires Formed(d) && price in d.pools && q in d.pools && Balanced(d, q)
    ensures var d' := StakeCommitted(d, key, price, added, v, now);
            var own := if key in d.positions then d.positions[key].price else price;
            && Formed(d') && q in d'.pools
            && (Balanced(d', q) <==> (if q == own then added else 0) == (if q == price then added else 0))
  {
    hide SettledPool, EmittedBy, SettledPosition, Rebased, AtPrice, SumMap;
    StakeWrites(d, key, price, added, v, now);
    var h := AfterStake(d, key, price, added, v, now);
    AtPriceWrite(d.positions, key, h, q);
    AtPriceHas(d.positions, q, key);
    SumMapUpdate(AtPrice(d.positions, q), SHARES, key, h.p);
    PoolTotals(d, key, price, added, v, now, q);
  }

  lemma PoolTotals(d: Desk, key: Key, price: PriceId, added: nat, v: Validator, now: nat, q: PriceId)
    requires Formed(d) && price in d.pools && q in d.pools
    ensures var d' := StakeCommitted(d, key, price, added, v, now);
            q in d'.pools && d'.pools[q].totalShares == d.pools[q].totalShares + if q == price then added else 0
  {
    hide EmittedBy;
  }

  /** A commit keeps every price's shares and total equal exactly when the position has the committed price, or nothing
      is added: the commit itself does not check the price again. */
  lemma StakeBalancesIff(d: Desk, key: Key, price: PriceId, added: nat, v: Validator, now: nat)
    requires Formed(d) && price in d.pools && forall q :: q in d.pools ==> Balanced(d, q)
    ensures var d' := StakeCommitted(d, key, price, added, v, now);
            && Formed(d') && d'.pools.Keys == d.pools.Keys
            && ((forall q :: q in d.pools ==> Balanced(d', q)) <==> added == 0 || SamePrice(d, key, price))
  {
    hide StakeCommitted, Balanced;
    StakeWrites(d, key, price, added, v, now);
    forall q | q in d.pools
      ensures var own := if key in d.positions then d.positions[key].price else price;
              Balanced(StakeCommitted(d, key, price, added, v, now), q)
              <==> (if q == own then added else 0) == (if q == price then added else 0)
    {
      StakeMovesShares(d, key, price, added, v, now, q);
    }
  }

  // ---------------------------------------------------------------------------
  // Units handed out at closing
  // ---------------------------------------------------------------------------

  const PAID: Counts -> nat := (n: Counts) => n.paid
  const UNITS: nat -> nat := (n: nat) => n

  /** The accounts hold what all prices together have handed out. */
  ghost predicate HandedOut(d: Desk) {
    SumMap<AccountId, nat>(d.accounts, UNITS) == SumMap(d.counts, PAID)
  }

  /** Counts that differ in emission or events only hand out the same. */
  lemma PaidKept(counts: map<PriceId, Counts>, q: PriceId, n: Counts)
    requires q in counts && n.paid == counts[q].paid
    ensures SumMap(counts[q := n], PAID) == SumMap(counts, PAID)
  {
    hide SumMap;
    SumMapUpdate(counts, PAID, q, n);
  }

  lemma StakeKeepsHandedOut(d: Desk, key: Key, price: PriceId, added: nat, v: Validator, now: nat)
    requires Formed(d) && price in d.pools && HandedOut(d)
    ensures HandedOut(StakeCommitted(d, key, price, added, v, now))
  {
    hide SumMap, SettledPool, EmittedBy, SettledPosition, Rebased;
    var c := if key in d.positions then HolderSettled(d, key, v, now) else PriceSettled(d, price, v, now);
    var settled := if key in d.positions then d.positions[key].price else price;
    PaidKept(d.counts, settled, c.counts[settled]);
    PaidKept(c.counts, price, c.counts[price].(events := c.counts[price].events + 1));
  }

  lemma UnstakeKeepsHandedOut(d: Desk, key: Key, removed: nat, v: Validator, now: nat)
    requires Formed(d) && CanTake(d, key, removed) && HandedOut(d)
    ensures HandedOut(UnstakeCommitted(d, key, removed, v, now))
  {
    hide SumMap, SettledPool, EmittedBy, SettledPosition, Rebased;
    var price, c := d.positions[key].price, HolderSettled(d, key, v, now);
    var n, p := c.counts[price], c.positions[key].p;
    PaidKept(d.counts, price, n);
    SumMapUpdate(c.counts, PAID, price, n.(events := n.events + 1, paid := n.paid + p.accrued));
    PaidKept(c.counts, price, n.(events := n.events + 1));
    SumMapUpdate<AccountId, nat>(c.accounts, UNITS, key.0, UnitsOf(c.accounts, key.0) + p.accrued);
  }
}
