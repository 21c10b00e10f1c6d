/** Runs of the farm: entries, commits and failures in any interleaving that the validators' Busy flags allow. */
module FarmRuns {
  import opened Options
  import opened MapSums
  import opened StakingBook
  import opened Farm
  import opened FarmRewards
  import opened FarmDesk
  import SP = StakingPipeline
  import SL = StakingExitLimit
  import opened StakingZeroMint

  /** A stake in flight still finds what it was checked against: no position, or one at its price. */
  ghost predicate TicketKept(d: Desk, t: Ticket) {
    t.StakeTicket? ==> t.price in d.pools && SamePrice(d, (t.account, t.product), t.price)
  }

  ghost predicate TicketsKept(d: Desk, c: Catalog) {
    forall v :: v in d.busy ==> c(d.busy[v].product) == v && TicketKept(d, d.busy[v])
  }

  ghost predicate FarmsValid(d: Desk)
    requires Formed(d)
  {
    forall q :: q in d.pools ==> Valid(View(d, q))
  }

  /** Every price is a valid farm, the accounts hold what was handed out, and tickets are as they were checked. */
  ghost predicate Kept(d: Desk, c: Catalog) {
    Formed(d) && FarmsValid(d) && HandedOut(d) && TicketsKept(d, c)
  }

  // ---------------------------------------------------------------------------
  // Steps
  // ---------------------------------------------------------------------------

  datatype Step =
    | OpenPrice(price: PriceId, rate: nat, now: nat)
    | SetRate(price: PriceId, rate: nat, row: Validator, now: nat)
    | BeginStake(account: AccountId, product: ProductId, price: PriceId)
    | BeginUnstake(account: AccountId, product: ProductId)
    | Finish(validator: ValidatorId, shares: Option<nat>, row: Validator, now: nat)   // `None`: the row refused
    | Fail(validator: ValidatorId)

  function Released(d: Desk, v: ValidatorId): Desk { d.(busy := d.busy - {v}) }

  /** A position that `require_active_farm_position` accepts. */
  predicate HoldsShares(d: Desk, key: Key) { key in d.positions && d.positions[key].p.shares > 0 }

  /** When the commit of a stake goes through, given that the row minted shares. */
  predicate MayCommitStake(d: Desk, key: Key) { key in d.positions ==> HoldsShares(d, key) }

  predicate MayCommitUnstake(d: Desk, key: Key, removed: nat) {
    HoldsShares(d, key) && 0 < removed <= d.positions[key].p.shares
  }

  function Opening(d: Desk, price: PriceId, rate: nat, now: nat): Desk {
    d.(pools := d.pools[price := Pool(0, 0, now, rate)], counts := d.counts[price := Counts(0, 0, 0, 0)])
  }

  /** The tail of a pipeline: a tail that panics only releases the validator. */
  ghost function Finished(d: Desk, c: Catalog, v: ValidatorId, shares: Option<nat>, row: Validator, now: nat): Desk
    requires Kept(d, c) && v in d.busy
  {
    var t := d.busy[v];
    var key := (t.account, t.product);
    if shares.None? then Released(d, v)
    else if t.StakeTicket? then
      if MayCommitStake(d, key) then Released(StakeCommitted(d, key, t.price, shares.value, row, now), v)
      else Released(d, v)
    else if MayCommitUnstake(d, key, shares.value) then
      TakesFromPool(d, key, shares.value);
      Released(UnstakeCommitted(d, key, shares.value, row, now), v)
    else Released(d, v)
  }

  /** The pool always holds the shares of one of its positions. */
  lemma TakesFromPool(d: Desk, key: Key, removed: nat)
    requires Formed(d) && FarmsValid(d) && MayCommitUnstake(d, key, removed)
    ensures CanTake(d, key, removed)
  {
    hide Valid, AtPrice;
    var q := d.positions[key].price;
    AtPriceHas(d.positions, q, key);
    UnstakeNeverUnderflows(View(d, q), key, removed);
  }

  /** One entry call or callback; an entry that panics changes nothing. */
  ghost function Apply(d: Desk, c: Catalog, s: Step): Desk
    requires Kept(d, c)
  {
    match s
    case OpenPrice(price, rate, now) => if price in d.pools then d else Opening(d, price, rate, now)
    case SetRate(price, rate, row, now) => if price in d.pools then RateChanged(d, price, rate, row, now) else d
    case BeginStake(account, product, price) =>
      if c(product) in d.busy || price !in d.pools || !SamePrice(d, (account, product), price) then d
      else d.(busy := d.busy[c(product) := StakeTicket(account, product, price)])
    case BeginUnstake(account, product) =>
      if c(product) in d.busy || !HoldsShares(d, (account, product)) then d
      else d.(busy := d.busy[c(product) := UnstakeTicket(account, product)])
    case Finish(v, shares, row, now) => if v in d.busy then Finished(d, c, v, shares, row, now) else d
    case Fail(v) => Released(d, v)
  }

  // ---------------------------------------------------------------------------
  // What every step keeps
  // ---------------------------------------------------------------------------

  /** The views depend on positions, pools and counts alone. */
  lemma SameFarms(d: Desk, d': Desk)
    requires Formed(d) && d'.positions == d.positions && d'.pools == d.pools && d'.counts == d.counts
    ensures Formed(d') && (FarmsValid(d) ==> FarmsValid(d'))
  {
    hide Valid, AtPrice;
    forall q | q in d.pools ensures View(d', q) == View(d, q) { }
  }

  /** A write for one product leaves the tickets of other validators as they were checked. */
  lemma TicketsSurvive(d: Desk, d': Desk, c: Catalog, v: ValidatorId, key: Key)
    requires TicketsKept(d, c) && c(key.1) == v && d'.busy == d.busy - {v} && d'.pools.Keys == d.pools.Keys
    requires forall k: Key :: k != key ==> (k in d'.positions <==> k in d.positions)
    requires forall k: Key :: k != key && k in d'.positions ==> d'.positions[k] == d.positions[k]
    ensures TicketsKept(d', c)
  {
  }

  /** A stake at the position's own price keeps every farm valid. */
  lemma StakeCovers(d: Desk, key: Key, price: PriceId, added: nat, v: Validator, now: nat)
    requires Formed(d) && FarmsValid(d) && price in d.pools && SamePrice(d, key, price)
    ensures var d' := StakeCommitted(d, key, price, added, v, now); Formed(d') && FarmsValid(d')
  {
    hide StakeCommitted, Valid, View, Staked;
    StakeWrites(d, key, price, added, v, now);
    var d' := StakeCommitted(d, key, price, added, v, now);
    forall q | q in d'.pools ensures Valid(View(d', q)) {
      if q == price {
        StakeViewsOwn(d, key, q, added, v, now);
        StakedIsValid(View(d, q), key, added, v, now);
      } else {
        StakeViewsOther(d, key, price, added, v, now, q);
      }
    }
  }

  /** So does every unstake. */
  lemma UnstakeCovers(d: Desk, key: Key, removed: nat, v: Validator, now: nat)
    requires Formed(d) && FarmsValid(d) && CanTake(d, key, removed)
    ensures var d' := UnstakeCommitted(d, key, removed, v, now); Formed(d') && FarmsValid(d')
  {
    hide UnstakeCommitted, Valid, View, Unstaked;
    UnstakeWrites(d, key, removed, v, now);
    var d', price := UnstakeCommitted(d, key, removed, v, now), d.positions[key].price;
    forall q | q in d'.pools ensures Valid(View(d', q)) {
      if q == price {
        UnstakeViewsOwn(d, key, removed, v, now);
        UnstakedIsValid(View(d, q), key, removed, v, now);
      } else {
        UnstakeViewsOther(d, key, removed, v, now, q);
      }
    }
  }

  lemma StakeKeeps(d: Desk, c: Catalog, v: ValidatorId, added: nat, row: Validator, now: nat)
    requires Kept(d, c) && v in d.busy && d.busy[v].StakeTicket?
    ensures var t := d.busy[v];
            Kept(Released(StakeCommitted(d, (t.account, t.product), t.price, added, row, now), v), c)
  {
    hide StakeCommitted, FarmsValid, HandedOut;
    var t := d.busy[v];
    var key := (t.account, t.product);
    var d' := StakeCommitted(d, key, t.price, added, row, now);
    StakeWrites(d, key, t.price, added, row, now);
    StakeCovers(d, key, t.price, added, row, now);
    SameFarms(d', Released(d', v));
    StakeKeepsHandedOut(d, key, t.price, added, row, now);
    ReleasedHandsOut(d', v);
    TicketsSurvive(d, Released(d', v), c, v, key);
  }

  lemma ReleasedHandsOut(d: Desk, v: ValidatorId)
    requires HandedOut(d)
    ensures HandedOut(Released(d, v))
  {
  }

  lemma UnstakeKeeps(d: Desk, c: Catalog, v: ValidatorId, removed: nat, row: Validator, now: nat)
    requires Kept(d, c) && v in d.busy && CanTake(d, (d.busy[v].account, d.busy[v].product), removed)
    ensures var t := d.busy[v];
            Kept(Released(UnstakeCommitted(d, (t.account, t.product), removed, row, now), v), c)
  {
    hide UnstakeCommitted, FarmsValid, HandedOut;
    var t := d.busy[v];
    var key := (t.account, t.product);
    var d' := UnstakeCommitted(d, key, removed, row, now);
    UnstakeWrites(d, key, removed, row, now);
    UnstakeCovers(d, key, removed, row, now);
    SameFarms(d', Released(d', v));
    UnstakeKeepsHandedOut(d, key, removed, row, now);
    ReleasedHandsOut(d', v);
    TicketsSurvive(d, Released(d', v), c, v, key);
  }

  lemma ReleaseKeeps(d: Desk, c: Catalog, v: ValidatorId)
    requires Kept(d, c)
    ensures Kept(Released(d, v), c)
  {
    hide FarmsValid, HandedOut, TicketKept;
    SameFarms(d, Released(d, v));
    ReleasedHandsOut(d, v);
    forall w | w in d.busy - {v} ensures TicketKept(Released(d, v), d.busy[w]) {
      SameTicket(d, Released(d, v), d.busy[w]);
    }
  }

  lemma SameTicket(d: Desk, d': Desk, t: Ticket)
    requires TicketKept(d, t) && d'.positions == d.positions && d'.pools.Keys >= d.pools.Keys
    ensures TicketKept(d', t)
  {
  }

  lemma FinishedKeeps(d: Desk, c: Catalog, v: ValidatorId, shares: Option<nat>, row: Validator, now: nat)
    requires Kept(d, c) && v in d.busy
    ensures Kept(Finished(d, c, v, shares, row, now), c)
  {
    hide Kept, StakeCommitted, UnstakeCommitted;
    KeptParts(d, c);
    ReleaseKeeps(d, c, v);
    var t := d.busy[v];
    var key := (t.account, t.product);
    if shares.Some? && t.StakeTicket? {
      StakeKeeps(d, c, v, shares.value, row, now);
    } else if shares.Some? && MayCommitUnstake(d, key, shares.value) {
      TakesFromPool(d, key, shares.value);
      UnstakeKeeps(d, c, v, shares.value, row, now);
    }
  }

  lemma KeptParts(d: Desk, c: Catalog)
    requires Kept(d, c)
    ensures Formed(d) && FarmsValid(d) && HandedOut(d) && TicketsKept(d, c)
  {
  }

  lemma OpeningKeeps(d: Desk, c: Catalog, price: PriceId, rate: nat, now: nat)
    requires Kept(d, c) && price !in d.pools
    ensures Kept(Opening(d, price, rate, now), c)
  {
    hide Valid, SumMap, TicketKept;
    var d' := Opening(d, price, rate, now);
    SumMapUpdate(d.counts, PAID, price, Counts(0, 0, 0, 0));
    forall q | q in d'.pools ensures Valid(View(d', q)) {
      if q == price {
        assert AtPrice(d.positions, q) == map[];
        OpenedIsValid(rate, now);
      } else {
        assert View(d', q) == View(d, q);
      }
    }
    forall w | w in d.busy ensures TicketKept(d', d.busy[w]) { SameTicket(d, d', d.busy[w]); }
  }

  lemma SetRateKeeps(d: Desk, c: Catalog, price: PriceId, rate: nat, row: Validator, now: nat)
    requires Kept(d, c) && price in d.pools
    ensures Kept(RateChanged(d, price, rate, row, now), c)
  {
    hide Valid, SumMap, TicketKept, SettledPool, EmittedBy, View;
    var d' := RateChanged(d, price, rate, row, now);
    PaidKept(d.counts, price, d'.counts[price]);
    RateViews(d, price, rate, row, now, price);
    forall q | q in d'.pools ensures Valid(View(d', q)) {
      RateViews(d, price, rate, row, now, q);
      if q == price { RateSetIsValid(View(d, q), rate, row, now); }
    }
    forall w | w in d.busy ensures TicketKept(d', d.busy[w]) { SameTicket(d, d', d.busy[w]); }
  }

  /** Taking a validator's Busy flag for a ticket that was checked. */
  lemma TakenKeeps(d: Desk, c: Catalog, t: Ticket)
    requires Kept(d, c) && TicketKept(d, t)
    ensures Kept(d.(busy := d.busy[c(t.product) := t]), c)
  {
    hide TicketKept, FarmsValid;
    var d' := d.(busy := d.busy[c(t.product) := t]);
    SameFarms(d, d');
    SameTicket(d, d', t);
    forall w | w in d.busy ensures TicketKept(d', d.busy[w]) { SameTicket(d, d', d.busy[w]); }
  }

  lemma ApplyKeeps(d: Desk, c: Catalog, s: Step)
    requires Kept(d, c)
    ensures Kept(Apply(d, c, s), c)
  {
    hide Kept, Finished, RateChanged, Opening;
    KeptParts(d, c);
    match s
    case OpenPrice(price, rate, now) => if price !in d.pools { OpeningKeeps(d, c, price, rate, now); }
    case SetRate(price, rate, row, now) => if price in d.pools { SetRateKeeps(d, c, price, rate, row, now); }
    case BeginStake(account, product, price) =>
      if price in d.pools && SamePrice(d, (account, product), price) {
        TakenKeeps(d, c, StakeTicket(account, product, price));
      }
    case BeginUnstake(account, product) => TakenKeeps(d, c, UnstakeTicket(account, product));
    case Finish(v, shares, row, now) => if v in d.busy { FinishedKeeps(d, c, v, shares, row, now); }
    case Fail(v) => ReleaseKeeps(d, c, v);
  }

  // ---------------------------------------------------------------------------
  // Runs
  // ---------------------------------------------------------------------------

  ghost function Run(d: Desk, c: Catalog, steps: seq<Step>): Desk
    requires Kept(d, c)
    decreases |steps|
  {
    if steps == [] then d
    else
      ApplyKeeps(d, c, steps[0]);
      Run(Apply(d, c, steps[0]), c, steps[1..])
  }

  lemma {:induction false} RunKeeps(d: Desk, c: Catalog, steps: seq<Step>)
    requires Kept(d, c)
    ensures Kept(Run(d, c, steps), c)
    decreases |steps|
  {
    hide Kept, Apply;
    if steps != [] {
      ApplyKeeps(d, c, steps[0]);
      RunKeeps(Apply(d, c, steps[0]), c, steps[1..]);
    }
  }

  function Empty(): Desk { Desk(map[], map[], map[], map[], map[]) }

  lemma EmptyKeeps(c: Catalog)
    ensures Kept(Empty(), c)
  {
  }

  /** On every interleaving each farm price's active positions sum to its `total_farm_shares`. */
  lemma FarmSharesAddUp(c: Catalog, steps: seq<Step>, q: PriceId)
    ensures Kept(Empty(), c)
    ensures var d := Run(Empty(), c, steps);
            q in d.pools && q in d.counts ==> Shares(View(d, q)) == d.pools[q].totalShares
  {
    EmptyKeeps(c);
    RunKeeps(Empty(), c, steps);
  }

  /** On every interleaving the units credited at a price, in open positions and at closing, stay within those its pool
      emitted plus one for every stake and unstake, and the accounts hold exactly what was handed out at closing. */
  lemma RewardsAreCovered(c: Catalog, steps: seq<Step>, q: PriceId)
    ensures Kept(Empty(), c)
    ensures var d := Run(Empty(), c, steps);
            && (q in d.pools && q in d.counts ==>
                  var s := View(d, q);
                  Credited(s) <= s.emitted + s.events && (s.events > 0 ==> Credited(s) < s.emitted + s.events))
            && HandedOut(d)
  {
    EmptyKeeps(c);
    RunKeeps(Empty(), c, steps);
    hide Run, Credited, HandedOut, View;
    var d := Run(Empty(), c, steps);
    if q in d.pools { CreditedIsCovered(View(d, q)); }
  }

  /** On every interleaving, whenever a price is settled next, what its holders have been handed or are shown is what
      its pool emitted: at most a unit more for every stake and unstake, and short of it by no more than that, a unit
      for every open position, and the dust of the settlements. */
  lemma RewardsAreHandedOn(c: Catalog, steps: seq<Step>, q: PriceId, v: Validator, now: nat)
    ensures Kept(Empty(), c)
    ensures var d := Run(Empty(), c, steps);
            q in d.pools && q in d.counts ==>
              var s := Settled(View(d, q), v, now);
              && Shown(s) <= s.emitted + s.events
              && (s.emitted - Shown(s) - s.events - |s.positions|) * ACC_DENOM <= s.dust
  {
    EmptyKeeps(c);
    RunKeeps(Empty(), c, steps);
    hide Run, Shown, View, Valid, Settled;
    var d := Run(Empty(), c, steps);
    if q in d.pools {
      SettledIsValid(View(d, q), v, now);
      ShownIsEmitted(Settled(View(d, q), v, now));
    }
  }

  // ---------------------------------------------------------------------------
  // A position that cannot be used any more
  // ---------------------------------------------------------------------------

  /** Neither a stake nor an unstake of this position can ever commit. */
  predicate Stuck(d: Desk, key: Key) { key in d.positions && !HoldsShares(d, key) }

  lemma StuckRefuses(d: Desk, key: Key, removed: nat)
    requires Stuck(d, key)
    ensures !MayCommitStake(d, key) && !MayCommitUnstake(d, key, removed)
  {
  }

  /** A committed stake leaves its position stuck exactly when it opened it and the deposit minted no share. */
  lemma StakeSticksIff(d: Desk, key: Key, price: PriceId, added: nat, v: Validator, now: nat)
    requires Formed(d) && price in d.pools && MayCommitStake(d, key)
    ensures Stuck(StakeCommitted(d, key, price, added, v, now), key) <==> key !in d.positions && added == 0
  {
    hide StakeCommitted;
    StakeWrites(d, key, price, added, v, now);
  }

  lemma MintedIsPriced(b: Book, buyer: AccountId, deposit: nat)
    requires StakeIn(b, buyer, deposit).Some?
    ensures b.v.totalShares > 0 ==> b.v.NetStake() > 0
  {
  }

  /** A stake that commits leaves its position stuck exactly when it opened it and the deposit is worth less than one of
      the row's shares. */
  lemma DepositSticksIff(d: Desk, key: Key, price: PriceId, b: Book, deposit: nat, now: nat)
    requires Formed(d) && price in d.pools && MayCommitStake(d, key)
    requires deposit > 0 && StakeIn(b, key.0, deposit).Some?
    ensures var added := MintShares(b.v.totalShares, b.v.NetStake(), deposit);
            Stuck(StakeCommitted(d, key, price, added, b.v, now), key) <==>
              key !in d.positions && MintsNothing(b.v, deposit)
  {
    hide StakeCommitted, Stuck;
    var added := MintShares(b.v.totalShares, b.v.NetStake(), deposit);
    MintedIsPriced(b, key.0, deposit);
    MintsNothingIff(b.v, deposit);
    StakeSticksIff(d, key, price, added, b.v, now);
  }

  /** Nothing frees a stuck position again. */
  lemma StuckStays(d: Desk, c: Catalog, s: Step, key: Key)
    requires Kept(d, c) && Stuck(d, key)
    ensures Stuck(Apply(d, c, s), key)
  {
    hide StakeCommitted, UnstakeCommitted, Formed, FarmsValid, HandedOut, TicketsKept;
    if s.Finish? && s.validator in d.busy && s.shares.Some? {
      var t := d.busy[s.validator];
      var other := (t.account, t.product);
      if t.StakeTicket? && MayCommitStake(d, other) {
        TicketPrice(d, c, s.validator);
        StakeWrites(d, other, t.price, s.shares.value, s.row, s.now);
      } else if t.UnstakeTicket? && MayCommitUnstake(d, other, s.shares.value) {
        TakesFromPool(d, other, s.shares.value);
        UnstakeWrites(d, other, s.shares.value, s.row, s.now);
      }
    }
  }

  lemma TicketPrice(d: Desk, c: Catalog, v: ValidatorId)
    requires Kept(d, c) && v in d.busy && d.busy[v].StakeTicket?
    ensures d.busy[v].price in d.pools
  {
  }

  /** After any further run the position is still there, and neither a stake nor an unstake of it can commit. */
  lemma {:induction false} StuckForever(d: Desk, c: Catalog, steps: seq<Step>, key: Key, removed: nat)
    requires Kept(d, c) && Stuck(d, key)
    ensures var d' := Run(d, c, steps);
            Stuck(d', key) && !MayCommitStake(d', key) && !MayCommitUnstake(d', key, removed)
    decreases |steps|
  {
    hide Kept, Apply, Stuck, MayCommitStake, MayCommitUnstake;
    StuckRefuses(d, key, removed);
    if steps != [] {
      ApplyKeeps(d, c, steps[0]);
      StuckStays(d, c, steps[0], key);
      StuckForever(Apply(d, c, steps[0]), c, steps[1..], key, removed);
    }
  }

  /** For every deposit there is an on-time run of the validator's pipeline on which a stake that opens a position
      reaches its commit, is accepted by the row, and leaves the position stuck. */
  lemma StuckIsReached(d: Desk, key: Key, price: PriceId, now: nat, who: AccountId, amount: nat, deposit: nat,
                       p: SP.Params)
    returns (n: nat, evs: seq<SP.Event>, s: SP.System)
    requires Formed(d) && price in d.pools && key !in d.positions && amount >= 2 && deposit > 0
    ensures SL.Reached(n, evs, s, p) && s.phase == Tail(Lock(key.0, deposit)) && StakeIn(s.b, key.0, deposit).Some?
    ensures var added := MintShares(s.b.v.totalShares, s.b.v.NetStake(), deposit);
            Stuck(StakeCommitted(d, key, price, added, s.b.v, now), key)
  {
    n, evs, s := ZeroMintReached(who, amount, key.0, deposit, p);
    hide StakeCommitted, SL.Reached;
    DepositSticksIff(d, key, price, s.b, deposit, now);
  }
}
