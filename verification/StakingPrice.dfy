/** The share price never falls while shares remain, and no order of stakes and exits profits from rounding. */
module StakingPrice {
  import opened StakingBook
  import opened StakingPipeline
  import opened StakingConservation
  import opened MapSums
  import opened Arith

  /** Net stake per share in `v'` is at least that in `v`, cross-multiplied. */
  predicate PriceHeld(v: Validator, v': Validator) {
    v.NetStake() * v'.totalShares <= v'.NetStake() * v.totalShares
  }

  lemma CrossTrans(a: nat, b: nat, c: nat, d: nat, e: nat, f: nat)
    requires a * d <= c * b && c * f <= e * d && d > 0
    ensures a * f <= e * b
  {
    assert (a * d) * f <= (c * b) * f;
    assert (c * f) * b <= (e * d) * b;
    assert d * (a * f) <= d * (e * b);
  }

  lemma PriceTrans(v: Validator, v1: Validator, v2: Validator)
    requires PriceHeld(v, v1) && PriceHeld(v1, v2) && v1.totalShares > 0
    ensures PriceHeld(v, v2)
  {
    CrossTrans(v.NetStake(), v.totalShares, v1.NetStake(), v1.totalShares, v2.NetStake(), v2.totalShares);
  }

  /** The value of `n` shares is the largest whole amount whose share of the total they cover. */
  lemma NearIsFloor(q: nat, n: nat, net: nat, total: nat)
    requires total > 0
    ensures q <= NearFromShares(n, net, total) <==> q * total <= n * net
  {
    Quotient(q, n * net, total);
  }

  lemma MintedIsFloor(q: nat, total: nat, net: nat, deposit: nat)
    requires total > 0 && net > 0
    ensures q <= MintShares(total, net, deposit) <==> q * net <= deposit * total
  {
    Quotient(q, deposit * total, net);
  }

  lemma MintKeepsRatio(net: nat, total: nat, deposit: nat, minted: nat)
    requires minted * net <= deposit * total
    ensures net * (total + minted) <= (net + deposit) * total
  {
    assert net * (total + minted) == net * total + minted * net;
    assert (net + deposit) * total == net * total + deposit * total;
  }

  lemma BurnKeepsRatio(net: nat, total: nat, n: nat, amount: nat)
    requires amount * total <= n * net && amount <= net && n <= total
    ensures net * (total - n) <= (net - amount) * total
  {
    assert net * (total - n) == net * total - n * net;
    assert (net - amount) * total == net * total - amount * total;
  }

  /** What a stake buys: the deposit itself while there are no shares, else all whole shares it pays for at the net
      stake per share. It is queued for the pool, and nobody else's shares change. */
  lemma StakeIsPriced(b: Book, buyer: AccountId, deposit: nat, q: nat, other: AccountId)
    requires other != buyer
    ensures StakeIn(b, buyer, deposit).None? <==> b.v.totalShares > 0 && b.v.NetStake() == 0
    ensures StakeIn(b, buyer, deposit).Some? ==>
      var b' := StakeIn(b, buyer, deposit).value;
      var minted := SharesOf(b', buyer) - SharesOf(b, buyer);
      && (b.v.totalShares == 0 ==> minted == deposit)
      && (b.v.totalShares > 0 ==> (q <= minted <==> q * b.v.NetStake() <= deposit * b.v.totalShares))
      && b'.v == b.v.(totalShares := b.v.totalShares + minted, toStake := b.v.toStake + deposit)
      && SharesOf(b', other) == SharesOf(b, other) && b'.tranches == b.tranches
  {
    if b.v.totalShares > 0 && b.v.NetStake() > 0 {
      MintedIsFloor(q, b.v.totalShares, b.v.NetStake(), deposit);
      hide MintShares;
    }
  }

  /** What an exit pays: all whole yocto its shares are worth at the net stake per share, as one more tranche at the end
      of the account's list and in the unstake bucket. Nobody else's shares or tranches change. */
  lemma ExitIsPriced(b: Book, account: AccountId, n: nat, epoch: nat, settle: nat, q: nat, other: AccountId)
    requires other != account
    ensures ExitShares(b, account, n, epoch, settle).None? <==>
      n == 0 || b.v.totalShares < n || SharesOf(b, account) < n || b.v.NetStake() == 0
    ensures ExitShares(b, account, n, epoch, settle).Some? ==>
      var b' := ExitShares(b, account, n, epoch, settle).value;
      var amount := b'.v.toUnstake - b.v.toUnstake;
      && (q <= amount <==> q * b.v.totalShares <= n * b.v.NetStake())
      && SharesOf(b', account) == SharesOf(b, account) - n && b'.v.totalShares == b.v.totalShares - n
      && (exists due :: TranchesOf(b', account) == TranchesOf(b, account) + [Tranche(amount, due)])
      && SharesOf(b', other) == SharesOf(b, other) && TranchesOf(b', other) == TranchesOf(b, other)
  {
    if ExitShares(b, account, n, epoch, settle).Some? {
      NearIsFloor(q, n, b.v.NetStake(), b.v.totalShares);
    }
  }

  /** Minting rounds down, so it does not dilute the holders. */
  lemma MintHolds(b: Book, buyer: AccountId, deposit: nat)
    requires Balanced(b) && b.v.totalShares > 0 && StakeIn(b, buyer, deposit).Some?
    ensures PriceHeld(b.v, StakeIn(b, buyer, deposit).value.v)
  {
    hide MintShares, SumMap;
    var net, total := b.v.NetStake(), b.v.totalShares;
    var minted := MintShares(total, net, deposit);
    MintedIsFloor(minted, total, net, deposit);
    MintKeepsRatio(net, total, deposit, minted);
    assert StakeIn(b, buyer, deposit).value.v.NetStake() == net + deposit;
  }

  /** Burning rounds down, so it does not dilute those who stay. */
  lemma BurnHolds(b: Book, account: AccountId, n: nat, epoch: nat, settle: nat)
    requires Balanced(b) && ExitShares(b, account, n, epoch, settle).Some?
    ensures PriceHeld(b.v, ExitShares(b, account, n, epoch, settle).value.v)
  {
    hide NearFromShares, SumMap;
    var net, total := b.v.NetStake(), b.v.totalShares;
    var amount := NearFromShares(n, net, total);
    NearIsFloor(amount, n, net, total);
    ExitAtMostNet(n, net, total);
    BurnKeepsRatio(net, total, n, amount);
    assert ExitShares(b, account, n, epoch, settle).value.v.NetStake() == net - amount;
  }

  // ---------------------------------------------------------------------------
  // Every step of a run
  // ---------------------------------------------------------------------------

  /** Shares remain at both ends of the step, and a due release does not burn them all on the way. */
  predicate SharesRemain(s: System, ev: Event, p: Params) {
    && 0 < s.b.v.totalShares
    && 0 < Apply(s, ev, p).b.v.totalShares
    && (ev.Deliver? ==> ev.release < s.b.v.totalShares)
  }

  lemma TailHolds(b: Book, a: Action, release: nat, keep: bool, epoch: nat, settle: nat)
    requires Balanced(b) && b.v.totalShares > release && RunTail(b, a, release, keep, epoch, settle).Some?
    ensures PriceHeld(b.v, RunTail(b, a, release, keep, epoch, settle).value.0.v)
  {
    if a.Payable() {
      ReleaseConserves(b, a.buyer, release, epoch, settle);
      var freed := ReleaseDue(b, a.buyer, release, epoch, settle).value;
      if release > 0 { BurnHolds(b, a.buyer, release, epoch, settle); }
      if !(a.Update? && keep) {
        MintHolds(freed, a.buyer, a.deposit);
        PriceTrans(b.v, freed.v, StakeIn(freed, a.buyer, a.deposit).value.v);
      }
    } else if a.Exit? {
      BurnHolds(b, a.account, a.shares, epoch, settle);
    }
  }

  predicate Covered(v: Validator) {
    v.staked + v.toStake >= v.toUnstake + v.toWithdraw
  }

  predicate SameNet(v: Validator, v': Validator) {
    v'.totalShares == v.totalShares && v'.NetStake() == v.NetStake()
  }

  lemma SettleKeepsNet(b: Book, a: Action, epoch: nat, settle: nat)
    requires Covered(b.v)
    ensures SameNet(b.v, Settle(b, a, epoch, settle).0.v)
  {
  }

  lemma BookingKeepsNet(s: System)
    requires Located(s) && Covered(s.b.v)
    ensures s.phase.GotWithdraw? ==> SameNet(s.b.v, OnWithdrawn(s.b, s.phase.a, s.phase.amount, s.phase.ok).0.v)
    ensures s.phase.GotStake? ==> SameNet(s.b.v, OnStaked(s.b, s.phase.a, s.phase.ok, s.epoch).0.v)
    ensures s.phase.GotUnstake? ==> SameNet(s.b.v, OnUnstaked(s.b, s.phase.a, s.phase.ok, s.epoch).0.v)
  {
  }

  /** The refresh can only raise net stake: rewards are all that the pool has added. */
  lemma RefreshRaisesNet(s: System, p: Params)
    requires Located(s) && Covered(s.b.v) && s.phase.GotAccount? && s.phase.reply.Some?
    ensures var v' := OnPoolAccount(s.b, s.phase.a, s.phase.reply.value, s.epoch, p.settle).0.v;
            v'.totalShares == s.b.v.totalShares && v'.NetStake() >= s.b.v.NetStake()
  {
    var view := s.phase.reply.value;
    SettleKeepsNet(s.b.(v := s.b.v.(staked := view.unstaked + view.staked)), s.phase.a, s.epoch, p.settle);
  }

  /** Outside the user tails a settlement leaves shares alone and never lowers net stake; only the balance
      refresh, which brings in rewards, can raise it. */
  lemma SettlementKeepsNet(s: System, ok: bool, release: nat, keep: bool, p: Params)
    requires Conserved(s) && !s.phase.Tail?
    ensures var v' := DeliverNext(s, ok, release, keep, p).b.v;
            && v'.totalShares == s.b.v.totalShares
            && v'.NetStake() >= s.b.v.NetStake()
            && (!s.phase.GotAccount? ==> v'.NetStake() == s.b.v.NetStake())
  {
    hide SumMap;
    if s.phase.GotAccount? && s.phase.reply.Some? {
      RefreshRaisesNet(s, p);
    } else if s.phase.AfterWithdraw? && s.phase.ok {
      SettleKeepsNet(s.b, s.phase.a, s.epoch, p.settle);
    } else if s.phase.GotWithdraw? || s.phase.GotStake? || s.phase.GotUnstake? {
      BookingKeepsNet(s);
    }
  }

  lemma HigherNetHolds(v: Validator, v': Validator)
    requires v'.totalShares == v.totalShares && v'.NetStake() >= v.NetStake()
    ensures PriceHeld(v, v')
  {
    assert v.NetStake() * v.totalShares <= v'.NetStake() * v.totalShares;
  }

  lemma ApplyHolds(s: System, ev: Event, p: Params)
    requires Conserved(s) && SharesRemain(s, ev, p)
    ensures PriceHeld(s.b.v, Apply(s, ev, p).b.v)
  {
    hide SumMap;
    hide RunTail;
    if ev.Deliver? {
      if !s.phase.Tail? {
        SettlementKeepsNet(s, ev.ok, ev.release, ev.keep, p);
        HigherNetHolds(s.b.v, DeliverNext(s, ev.ok, ev.release, ev.keep, p).b.v);
      } else if ev.ok && RunTail(s.b, s.phase.a, ev.release, ev.keep, s.epoch, p.settle).Some? {
        TailHolds(s.b, s.phase.a, ev.release, ev.keep, s.epoch, p.settle);
      }
    } else {
      HigherNetHolds(s.b.v, Apply(s, ev, p).b.v);
    }
  }

  predicate SharesRemainThroughout(s: System, evs: seq<Event>, p: Params) {
    0 < s.b.v.totalShares &&
    (evs == [] || (SharesRemainThroughout(s, evs[..|evs| - 1], p)
                   && SharesRemain(Run(s, evs[..|evs| - 1], p), evs[|evs| - 1], p)))
  }

  lemma {:induction false} ConservedOnward(s: System, evs: seq<Event>, p: Params)
    requires Conserved(s)
    ensures Conserved(Run(s, evs, p))
  {
    if evs != [] {
      ConservedOnward(s, evs[..|evs| - 1], p);
      ApplyConserves(Run(s, evs[..|evs| - 1], p), evs[|evs| - 1], p);
    }
  }

  /** From any reachable state, however calls fail and interleave, the price at the end is at least the
      price at the start as long as shares remain. */
  lemma {:induction false} PriceNeverFalls(s: System, evs: seq<Event>, p: Params)
    requires Conserved(s) && SharesRemainThroughout(s, evs, p)
    ensures PriceHeld(s.b.v, Run(s, evs, p).b.v)
  {
    if evs != [] {
      var before := evs[..|evs| - 1];
      PriceNeverFalls(s, before, p);
      ConservedOnward(s, before, p);
      var mid := Run(s, before, p);
      ApplyHolds(mid, evs[|evs| - 1], p);
      PriceTrans(s.b.v, mid.b.v, Run(s, evs, p).b.v);
    }
  }

  // ---------------------------------------------------------------------------
  // No profit from rounding
  // ---------------------------------------------------------------------------

  /** Exiting in two parts never pays more than exiting at once. */
  lemma SplitExitPaysNoMore(m: nat, n: nat, net: nat, total: nat)
    requires m + n <= total && m < total
    ensures var first := NearFromShares(m, net, total);
            first <= net &&
            first + NearFromShares(n, net - first, total - m) <= NearFromShares(m + n, net, total)
  {
    hide NearFromShares;
    ExitAtMostNet(m, net, total);
    var x := NearFromShares(m, net, total);
    var y := NearFromShares(n, net - x, total - m);
    NearIsFloor(x, m, net, total);
    NearIsFloor(y, n, net - x, total - m);
    SplitAlgebra(x, y, m, n, total - m, net);
    NearIsFloor(x + y, m + n, net, total);
  }

  /** With the first part rounded down, both parts together are worth at most `(m+n)*net/(m+k)`. */
  lemma SplitAlgebra(x: nat, y: nat, m: nat, n: nat, k: nat, net: nat)
    requires n <= k && 0 < k && x <= net
    requires x * (m + k) <= m * net && y * k <= n * (net - x)
    ensures (x + y) * (m + k) <= (m + n) * net
  {
    MulMono(m + k, y * k, n * (net - x));
    MulMono(k - n, x * (m + k), m * net);
    SplitIdentity(x, y, m, n, k, net);
    Cancel(k, (x + y) * (m + k), (m + n) * net);
  }

  lemma SplitIdentity(x: int, y: int, m: int, n: int, k: int, net: int)
    ensures k * ((m + n) * net) - k * ((x + y) * (m + k))
         == (m + k) * (n * (net - x)) - (m + k) * (y * k) + (k - n) * (m * net) - (k - n) * (x * (m + k))
  {
  }

  /** Staking into a pool that has shares and exiting at once never returns more than the deposit. */
  lemma StakeThenExitReturnsNoMore(b: Book, buyer: AccountId, deposit: nat)
    requires Balanced(b) && b.v.totalShares > 0 && StakeIn(b, buyer, deposit).Some?
    ensures var b' := StakeIn(b, buyer, deposit).value;
            NearFromShares(b'.v.totalShares - b.v.totalShares, b'.v.NetStake(), b'.v.totalShares) <= deposit
  {
    hide MintShares, NearFromShares, SumMap;
    var net, total := b.v.NetStake(), b.v.totalShares;
    var minted := MintShares(total, net, deposit);
    MintedIsFloor(minted, total, net, deposit);
    var back := NearFromShares(minted, net + deposit, total + minted);
    NearIsFloor(back, minted, net + deposit, total + minted);
    RoundTripBound(back, minted, deposit, net, total);
  }

  lemma RoundTripBound(back: nat, minted: nat, deposit: nat, net: nat, total: nat)
    requires minted * net <= deposit * total && 0 < total
    requires back * (total + minted) <= minted * (net + deposit)
    ensures back <= deposit
  {
    assert minted * (net + deposit) == minted * net + minted * deposit;
    assert (total + minted) * deposit == deposit * total + minted * deposit;
    Cancel(total + minted, back, deposit);
  }

  /** Nor does it lose more than one share's price and a yocto. */
  lemma StakeThenExitLosesLittle(b: Book, buyer: AccountId, deposit: nat)
    requires Balanced(b) && b.v.totalShares > 0 && StakeIn(b, buyer, deposit).Some?
    ensures var b' := StakeIn(b, buyer, deposit).value;
            var back := NearFromShares(b'.v.totalShares - b.v.totalShares, b'.v.NetStake(), b'.v.totalShares);
            (deposit - back - 1) * b'.v.totalShares < b.v.NetStake()
  {
    hide MintShares, NearFromShares, SumMap;
    var net, total := b.v.NetStake(), b.v.totalShares;
    var minted := MintShares(total, net, deposit);
    MintedIsFloor(minted + 1, total, net, deposit);
    var back := NearFromShares(minted, net + deposit, total + minted);
    NearIsFloor(back + 1, minted, net + deposit, total + minted);
    LossBound(back, minted, deposit, net, total);
  }

  lemma LossBound(back: nat, minted: nat, deposit: nat, net: nat, total: nat)
    requires (minted + 1) * net > deposit * total && (back + 1) * (total + minted) > minted * (net + deposit)
    ensures (deposit - back - 1) * (total + minted) < net
  {
    assert minted * (net + deposit) == minted * net + minted * deposit;
    assert (deposit - back - 1) * (total + minted)
        == deposit * total + minted * deposit - (back + 1) * (total + minted);
    assert (minted + 1) * net == minted * net + net;
  }
}
