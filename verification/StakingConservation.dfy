/** Conservation of NEAR over every run of the settlement pipeline. */
module StakingConservation {
  import opened StakingBook
  import opened StakingPipeline
  import opened MapSums

  lemma {:induction false} SumAllAppend(ts: seq<Tranche>, t: Tranche)
    ensures SumAll(ts + [t]) == SumAll(ts) + t.amount
  {
    if ts != [] {
      assert (ts + [t])[1..] == ts[1..] + [t];
      SumAllAppend(ts[1..], t);
    }
  }

  /** Paying the claimable tranches removes exactly their sum from the list. */
  lemma {:induction false} ClaimSplits(ts: seq<Tranche>, epoch: nat)
    ensures SumAll(ts) == Claimable(ts, epoch) + SumAll(Unclaimable(ts, epoch))
  {
    if ts != [] {
      ClaimSplits(ts[1..], epoch);
      if epoch < ts[0].available {
        assert Unclaimable(ts, epoch)[1..] == Unclaimable(ts[1..], epoch);
      }
    }
  }

  /** The value of burnt shares never exceeds the net stake they are a part of. */
  lemma ExitAtMostNet(n: nat, net: nat, total: nat)
    requires n <= total && total > 0
    ensures NearFromShares(n, net, total) <= net
  {
    assert n * net <= total * net;
    assert n * net / total <= total * net / total;
  }

  lemma StakeInConserves(b: Book, buyer: AccountId, deposit: nat)
    requires SumMap(b.shares, Same()) == b.v.totalShares
    requires StakeIn(b, buyer, deposit).Some?
    ensures var b' := StakeIn(b, buyer, deposit).value;
            SumMap(b'.shares, Same()) == b'.v.totalShares && b'.tranches == b.tranches
  {
    var b' := StakeIn(b, buyer, deposit).value;
    SumMapUpdate(b.shares, Same(), buyer, b'.shares[buyer]);
  }

  lemma ExitConserves(b: Book, account: AccountId, n: nat, epoch: nat, settle: nat)
    requires SumMap(b.shares, Same()) == b.v.totalShares
    requires ExitShares(b, account, n, epoch, settle).Some?
    ensures var b' := ExitShares(b, account, n, epoch, settle).value;
            && SumMap(b'.shares, Same()) == b'.v.totalShares
            && Owed(b') - Owed(b) == b'.v.toUnstake - b.v.toUnstake
            && b'.v.toUnstake - b.v.toUnstake <= b.v.NetStake()
  {
    var b' := ExitShares(b, account, n, epoch, settle).value;
    SumMapRemove(b.shares, Same(), account);
    SumMapUpdate<AccountId, nat>(b.shares, Same(), account, b.shares[account] - n);
    var amount := NearFromShares(n, b.v.NetStake(), b.v.totalShares);
    SumAllAppend(TranchesOf(b, account), Tranche(amount, AvailableEpoch(b.v, epoch, settle)));
    SumMapUpdate(b.tranches, All(), account, b'.tranches[account]);
    ExitAtMostNet(n, b.v.NetStake(), b.v.totalShares);
  }

  lemma ClaimConserves(b: Book, account: AccountId, epoch: nat)
    requires Claim(b, account, epoch).Some?
    ensures var (b', paid) := Claim(b, account, epoch).value;
            Owed(b') == Owed(b) - paid && b'.v.toClaim == b.v.toClaim - paid && b'.shares == b.shares
  {
    var ts := TranchesOf(b, account);
    ClaimSplits(ts, epoch);
    SumMapRemove(b.tranches, All(), account);
    SumMapUpdate(b.tranches, All(), account, Unclaimable(ts, epoch));
  }

  lemma ReleaseConserves(b: Book, buyer: AccountId, release: nat, epoch: nat, settle: nat)
    requires Balanced(b) && ReleaseDue(b, buyer, release, epoch, settle).Some?
    ensures var b' := ReleaseDue(b, buyer, release, epoch, settle).value;
            Balanced(b') && b'.v.(totalShares := 0, toUnstake := 0) == b.v.(totalShares := 0, toUnstake := 0)
  {
    if release > 0 { ExitConserves(b, buyer, release, epoch, settle); }
  }

  lemma StakeInBalances(b: Book, buyer: AccountId, deposit: nat)
    requires Balanced(b) && StakeIn(b, buyer, deposit).Some?
    ensures Balanced(StakeIn(b, buyer, deposit).value)
  {
    hide SumMap;
    StakeInConserves(b, buyer, deposit);
  }

  lemma ExitBalances(b: Book, account: AccountId, n: nat, epoch: nat, settle: nat)
    requires Balanced(b) && ExitShares(b, account, n, epoch, settle).Some?
    ensures Balanced(ExitShares(b, account, n, epoch, settle).value)
  {
    hide SumMap;
    ExitConserves(b, account, n, epoch, settle);
  }

  /** Every committed tail keeps the book balanced and moves cash exactly as it moves buckets. */
  lemma TailConserves(b: Book, a: Action, release: nat, keep: bool, epoch: nat, settle: nat)
    requires Balanced(b) && RunTail(b, a, release, keep, epoch, settle).Some?
    ensures var (b', paid) := RunTail(b, a, release, keep, epoch, settle).value;
            && Balanced(b')
            && b'.v.toStake + b'.v.toClaim + paid
               == b.v.toStake + b.v.toClaim + (if a.Update? && keep then 0 else a.Deposit())
            && b'.v.staked == b.v.staked && b'.v.toWithdraw == b.v.toWithdraw && b'.v.tx == b.v.tx
            && b'.v.lastSettle == b.v.lastSettle && b'.v.lastUnstake == b.v.lastUnstake
  {
    match a
    case Lock(buyer, deposit) =>
      ReleaseConserves(b, buyer, release, epoch, settle);
      StakeInConserves(ReleaseDue(b, buyer, release, epoch, settle).value, buyer, deposit);
    case Update(buyer, deposit) =>
      ReleaseConserves(b, buyer, release, epoch, settle);
      if !keep { StakeInConserves(ReleaseDue(b, buyer, release, epoch, settle).value, buyer, deposit); }
    case Exit(account, shares) => ExitConserves(b, account, shares, epoch, settle);
    case Withdraw(account) => ClaimConserves(b, account, epoch);
  }

  /** A row change that keeps liability, shares and cover keeps the book balanced. */
  lemma RowChange(b: Book, v: Validator)
    requires Balanced(b) && v.totalShares == b.v.totalShares
    requires v.toUnstake + v.toWithdraw + v.toClaim == b.v.toUnstake + b.v.toWithdraw + b.v.toClaim
    requires v.staked + v.toStake >= v.toUnstake + v.toWithdraw
    ensures Balanced(b.(v := v))
  {
  }

  lemma SettleLocates(s: System, a: Action, p: Params)
    requires Located(s) && s.phase == AfterWithdraw(a, true)
    ensures Located(Continue(s, Settle(s.b, a, s.epoch, p.settle)))
  {
  }

  lemma SettleBalances(b: Book, a: Action, epoch: nat, p: Params)
    requires Balanced(b)
    ensures Balanced(Settle(b, a, epoch, p.settle).0)
  {
    RowChange(b, Settle(b, a, epoch, p.settle).0.v);
  }

  /** The refreshed cache matches the pool, so settlement can start from it. */
  lemma RefreshConserves(s: System, synced: System)
    requires Conserved(s) && s.phase.GotAccount? && s.phase.reply.Some?
    requires synced == s.(b := s.b.(v := s.b.v.(staked := s.phase.reply.value.unstaked + s.phase.reply.value.staked)),
                          phase := AfterWithdraw(s.phase.a, true))
    ensures Conserved(synced)
  {
    RowChange(s.b, synced.b.v);
  }

  lemma AccountConserves(s: System, p: Params)
    requires Conserved(s) && s.phase.GotAccount? && s.phase.reply.Some?
    ensures Conserved(Continue(s, OnPoolAccount(s.b, s.phase.a, s.phase.reply.value, s.epoch, p.settle)))
  {
    var a, view := s.phase.a, s.phase.reply.value;
    var synced := s.(b := s.b.(v := s.b.v.(staked := view.unstaked + view.staked)), phase := AfterWithdraw(a, true));
    RefreshConserves(s, synced);
    if !(view.unstaked > 0 && view.canWithdraw) {
      SettleLocates(synced, a, p);
      SettleBalances(synced.b, a, s.epoch, p);
      assert Continue(s, OnPoolAccount(s.b, a, view, s.epoch, p.settle))
          == Continue(synced, Settle(synced.b, a, s.epoch, p.settle));
    }
  }

  lemma WithdrawnConserves(s: System)
    requires Conserved(s) && s.phase.GotWithdraw?
    ensures Conserved(Continue(s, OnWithdrawn(s.b, s.phase.a, s.phase.amount, s.phase.ok)))
  {
    RowChange(s.b, OnWithdrawn(s.b, s.phase.a, s.phase.amount, s.phase.ok).0.v);
  }

  lemma StakedConserves(s: System)
    requires Conserved(s) && s.phase.GotStake?
    ensures Conserved(Continue(s, OnStaked(s.b, s.phase.a, s.phase.ok, s.epoch)))
  {
    RowChange(s.b, OnStaked(s.b, s.phase.a, s.phase.ok, s.epoch).0.v);
  }

  lemma UnstakedConserves(s: System)
    requires Conserved(s) && s.phase.GotUnstake?
    ensures Conserved(Continue(s, OnUnstaked(s.b, s.phase.a, s.phase.ok, s.epoch)))
  {
    RowChange(s.b, OnUnstaked(s.b, s.phase.a, s.phase.ok, s.epoch).0.v);
  }

  lemma TailStepConserves(s: System, ok: bool, release: nat, keep: bool, p: Params)
    requires Conserved(s) && s.phase.Tail?
    ensures Conserved(DeliverNext(s, ok, release, keep, p))
  {
    if ok && RunTail(s.b, s.phase.a, release, keep, s.epoch, p.settle).Some? {
      TailConserves(s.b, s.phase.a, release, keep, s.epoch, p.settle);
    }
  }

  /** A receipt that runs at the pool, or only moves the chain on, leaves the book alone. */
  lemma PoolStepLocates(s: System, ok: bool, release: nat, keep: bool, p: Params)
    requires Located(s)
    requires s.phase.Ready? || s.phase.AwaitAccount? || s.phase.AwaitWithdraw? || s.phase.AwaitStake?
             || s.phase.AwaitUnstake? || s.phase.Dispatch?
    ensures var s' := DeliverNext(s, ok, release, keep, p); Located(s') && s'.b == s.b
  {
  }

  lemma ReleaseStepConserves(s: System, ok: bool, release: nat, keep: bool, p: Params)
    requires Conserved(s) && (s.phase.Release? || (s.phase.GotAccount? && s.phase.reply.None?))
    ensures Conserved(DeliverNext(s, ok, release, keep, p))
  {
    RowChange(s.b, Unlock(s.b).v);
  }

  lemma DeliverConserves(s: System, ok: bool, release: nat, keep: bool, p: Params)
    requires Conserved(s)
    ensures Conserved(DeliverNext(s, ok, release, keep, p))
  {
    match s.phase
    case GotAccount(a, reply) =>
      if reply.Some? { AccountConserves(s, p); } else { ReleaseStepConserves(s, ok, release, keep, p); }
    case AfterWithdraw(a, done) =>
      if done {
        SettleLocates(s, a, p);
        SettleBalances(s.b, a, s.epoch, p);
      }
    case GotWithdraw(_, _, _) => WithdrawnConserves(s);
    case GotStake(_, _, _) => StakedConserves(s);
    case GotUnstake(_, _, _) => UnstakedConserves(s);
    case Tail(a) => TailStepConserves(s, ok, release, keep, p);
    case Release(_, _) => ReleaseStepConserves(s, ok, release, keep, p);
    case _ => PoolStepLocates(s, ok, release, keep, p);
  }

  lemma ApplyConserves(s: System, ev: Event, p: Params)
    requires Conserved(s)
    ensures Conserved(Apply(s, ev, p))
  {
    if ev.Deliver? { DeliverConserves(s, ev.ok, ev.release, ev.keep, p); }
  }

  /** Staking conservation: it holds after every run, however calls fail and interleave. */
  lemma {:induction false} RunConserves(epoch: nat, evs: seq<Event>, p: Params)
    ensures Conserved(Run(Init(epoch), evs, p))
  {
    if evs != [] {
      RunConserves(epoch, evs[..|evs| - 1], p);
      ApplyConserves(Run(Init(epoch), evs[..|evs| - 1], p), evs[|evs| - 1], p);
    }
  }

  /** Between pipelines: tranches are U+W+C, cash is S+C, the pool's unstaked side is W, T+S covers U+W. */
  lemma AtRestTheBooksBalance(epoch: nat, evs: seq<Event>, p: Params)
    ensures var s := Run(Init(epoch), evs, p); var v := s.b.v;
            s.phase.Ready? ==>
              && Owed(s.b) == v.toUnstake + v.toWithdraw + v.toClaim
              && s.cash == v.toStake + v.toClaim
              && s.pool.unstaked == v.toWithdraw
              && v.staked + v.toStake >= v.toUnstake + v.toWithdraw
              && v.staked <= s.pool.staked + s.pool.unstaked
  {
    RunConserves(epoch, evs, p);
  }

  /** A settlement never asks the pool to unstake more than is staked there. */
  lemma UnstakeIsCovered(epoch: nat, evs: seq<Event>, p: Params)
    ensures var s := Run(Init(epoch), evs, p);
            s.phase.AwaitUnstake? ==> 0 < s.phase.amount <= s.pool.staked
  {
    RunConserves(epoch, evs, p);
  }

  /** No settlement callback ever reaches its panic. */
  lemma CallbacksNeverPanic(epoch: nat, evs: seq<Event>, p: Params)
    ensures var s := Run(Init(epoch), evs, p);
            && (s.phase.GotWithdraw? && s.phase.ok ==> CreditWithdrawal(s.b.v, s.phase.amount).Some?)
            && (s.phase.GotStake? && s.phase.ok ==> AfterStake(s.b.v, s.epoch).Some?)
            && (s.phase.GotUnstake? && s.phase.ok ==> AfterUnstake(s.b.v, s.epoch).Some?)
  {
    RunConserves(epoch, evs, p);
  }
}
