/** The staking contract's stored state for one validator and the callbacks that change it in place. Every
    method is proved against the function of the stored state that the pipeline model runs, and keeps the row
    balanced: tranches are the three exit buckets, share balances the share total, and gross stake covers the exits. */
module StakingContract {
  import opened Options
  import opened StakingBook
  import opened StakingPipeline
  import opened StakingConservation

  /** One tranche more is looked at. */
  lemma SplitStep(ts: seq<Tranche>, i: nat, epoch: nat)
    requires i < |ts|
    ensures Claimable(ts[i..], epoch)
         == (if epoch >= ts[i].available then ts[i].amount else 0) + Claimable(ts[i + 1..], epoch)
    ensures Unclaimable(ts[i..], epoch)
         == (if epoch >= ts[i].available then [] else [ts[i]]) + Unclaimable(ts[i + 1..], epoch)
  {
    assert ts[i..][1..] == ts[i + 1..];
  }

  /** The loop over an account's tranches: the due ones are totalled, the others kept in order. */
  method SplitTranches(ts: seq<Tranche>, epoch: nat) returns (claimable: nat, kept: seq<Tranche>)
    ensures claimable == Claimable(ts, epoch) && kept == Unclaimable(ts, epoch)
  {
    hide Claimable, Unclaimable;
    claimable, kept := 0, [];
    assert ts[0..] == ts;
    for i := 0 to |ts|
      invariant claimable + Claimable(ts[i..], epoch) == Claimable(ts, epoch)
      invariant kept + Unclaimable(ts[i..], epoch) == Unclaimable(ts, epoch)
    {
      SplitStep(ts, i, epoch);
      if epoch >= ts[i].available {
        claimable := claimable + ts[i].amount;
      } else {
        kept := kept + [ts[i]];
      }
    }
    assert ts[|ts|..] == [];
    NoTranches(epoch);
  }

  lemma NoTranches(epoch: nat)
    ensures Claimable([], epoch) == 0 && Unclaimable([], epoch) == []
  {
  }

  class Contract {
    var validator: Validator
    var userShares: map<AccountId, nat>
    var userTranches: map<AccountId, seq<Tranche>>
    const settleEpochs: nat

    constructor (settleEpochs: nat)
      ensures Stored() == Book(Validator(0, 0, 0, 0, 0, 0, 0, 0, Idle), map[], map[])
      ensures this.settleEpochs == settleEpochs && Balanced(Stored())
    {
      validator := Validator(0, 0, 0, 0, 0, 0, 0, 0, Idle);
      userShares, userTranches := map[], map[];
      this.settleEpochs := settleEpochs;
    }

    function Stored(): Book
      reads this
    {
      Book(validator, userShares, userTranches)
    }

    /** Mints shares for a deposit and queues it for the pool. */
    method InternalStake(buyer: AccountId, deposit: nat) returns (minted: Option<nat>)
      modifies this
      ensures StakeIn(old(Stored()), buyer, deposit) == (if minted.Some? then Some(Stored()) else None)
      ensures minted.None? ==> Stored() == old(Stored())
      ensures minted.Some? ==> validator.totalShares == old(validator.totalShares) + minted.value
      ensures Balanced(old(Stored())) ==> Balanced(Stored())
    {
      var net := validator.NetStake();
      var total := validator.totalShares;
      if total > 0 && net == 0 { return None; }
      var newShares := MintShares(total, net, deposit);
      validator := validator.(totalShares := total + newShares);
      validator := validator.(toStake := validator.toStake + deposit);
      var before := if buyer in userShares then userShares[buyer] else 0;
      userShares := userShares[buyer := before + newShares];
      if Balanced(old(Stored())) { StakeInBalances(old(Stored()), buyer, deposit); }
      return Some(newShares);
    }

    /** Burns shares, prices them, and appends a tranche gated by epoch. */
    method InternalUnstake(account: AccountId, sharesRemove: nat, epoch: nat) returns (amount: Option<nat>)
      modifies this
      ensures ExitShares(old(Stored()), account, sharesRemove, epoch, settleEpochs)
           == (if amount.Some? then Some(Stored()) else None)
      ensures amount.None? ==> Stored() == old(Stored())
      ensures amount.Some? ==> validator.toUnstake == old(validator.toUnstake) + amount.value
      ensures Balanced(old(Stored())) ==> Balanced(Stored())
    {
      var total := validator.totalShares;
      var net := validator.NetStake();
      var held := if account in userShares then userShares[account] else 0;
      if sharesRemove == 0 || total < sharesRemove || net == 0 || held < sharesRemove { return None; }
      var near := NearFromShares(sharesRemove, net, total);
      var available := AvailableEpoch(validator, epoch, settleEpochs);
      validator := validator.(totalShares := total - sharesRemove);
      validator := validator.(toUnstake := validator.toUnstake + near);
      if held == sharesRemove {
        userShares := userShares - {account};
      } else {
        userShares := userShares[account := held - sharesRemove];
      }
      var tranches := if account in userTranches then userTranches[account] else [];
      userTranches := userTranches[account := tranches + [Tranche(near, available)]];
      if Balanced(old(Stored())) { ExitBalances(old(Stored()), account, sharesRemove, epoch, settleEpochs); }
      return Some(near);
    }

    /** Drops every tranche whose epoch has come and totals what was dropped. */
    method RemoveClaimableTranches(account: AccountId, epoch: nat) returns (claimable: nat)
      modifies this`userTranches
      ensures claimable == Claimable(old(TranchesOf(Stored(), account)), epoch)
      ensures userTranches
           == StoreTranches(old(userTranches), account, Unclaimable(old(TranchesOf(Stored(), account)), epoch))
    {
      var kept;
      claimable, kept := SplitTranches(if account in userTranches then userTranches[account] else [], epoch);
      if kept == [] {
        userTranches := userTranches - {account};
      } else {
        userTranches := userTranches[account := kept];
      }
    }

    /** Pays the account's claimable tranches out of the claim bucket; a panic restores the state. */
    method ClaimFromWithdrawBucket(account: AccountId, epoch: nat) returns (credit: Option<nat>)
      modifies this
      ensures Claim(old(Stored()), account, epoch)
           == (if credit.Some? then Some((Stored(), credit.value)) else None)
      ensures credit.None? ==> Stored() == old(Stored())
      ensures Balanced(old(Stored())) ==> Balanced(Stored())
    {
      var bucket, before := validator.toClaim, userTranches;
      if bucket == 0 { return None; }
      var claimable := RemoveClaimableTranches(account, epoch);
      if claimable == 0 || bucket < claimable {
        userTranches := before;
        return None;
      }
      validator := validator.(toClaim := bucket - claimable);
      if Balanced(old(Stored())) { ClaimConserves(old(Stored()), account, epoch); }
      return Some(claimable);
    }

    /** Pipeline 0: an idle validator becomes busy and the chain starts. */
    method BeginPipeline(a: Action, epoch: nat) returns (next: Option<Phase>)
      modifies this`validator
      ensures next.Some? <==> old(validator.tx).Idle?
      ensures next.Some? ==> (Stored(), next.value) == Begin(old(Stored()), a, epoch)
      ensures next.None? ==> Stored() == old(Stored())
      ensures Balanced(old(Stored())) ==> Balanced(Stored())
    {
      if validator.tx == Busy { return None; }
      var needsSettlement := validator.lastSettle < epoch;
      validator := validator.(tx := Busy);
      if !needsSettlement { return Some(DispatchTo(a)); }
      return Some(AwaitAccount(a));
    }

    /** Pipeline 1 with a pool reply. */
    method AfterPoolAccount(a: Action, view: PoolView, epoch: nat) returns (next: Phase)
      modifies this`validator
      ensures (Stored(), next) == OnPoolAccount(old(Stored()), a, view, epoch, settleEpochs)
      ensures Balanced(old(Stored())) && old(validator.staked) <= view.staked + view.unstaked ==> Balanced(Stored())
    {
      validator := validator.(staked := view.unstaked + view.staked);
      if view.unstaked > 0 && view.canWithdraw { return AwaitWithdraw(a, view.unstaked); }
      next := TryStakeOrUnstake(a, epoch);
    }

    /** Pipeline 2b: `None` is the recorded-balance panic. */
    method OnWithdrawTransferDone(a: Action, amount: nat, ok: bool) returns (credited: Option<bool>)
      modifies this`validator
      ensures (Stored(), AfterWithdraw(a, credited == Some(true))) == OnWithdrawn(old(Stored()), a, amount, ok)
      ensures credited.None? <==> ok && old(validator.staked) < amount
      ensures Balanced(old(Stored())) && amount <= old(validator.toWithdraw) ==> Balanced(Stored())
    {
      if !ok { return Some(false); }
      var pending := validator.toWithdraw;
      if validator.staked < amount { return None; }
      validator := validator.(staked := validator.staked - amount);
      validator := validator.(toWithdraw := if pending >= amount then pending - amount else 0);
      validator := validator.(toClaim := validator.toClaim + amount);
      return Some(true);
    }

    /** Pipeline 3: at most one pool operation per epoch, decided from the pending buckets. */
    method TryStakeOrUnstake(a: Action, epoch: nat) returns (next: Phase)
      modifies this`validator
      ensures (Stored(), next) == Settle(old(Stored()), a, epoch, settleEpochs)
      ensures Balanced(old(Stored())) ==> Balanced(Stored())
    {
      var stake, unstake := validator.toStake, validator.toUnstake;
      var hasPending := stake > 0 || unstake > 0;
      var canSettle := validator.lastSettle < epoch;
      if !hasPending || !canSettle {
        if !hasPending && canSettle { validator := validator.(lastSettle := epoch); }
        return DispatchTo(a);
      }
      if stake == unstake {
        validator := validator.(toStake := 0, toUnstake := 0);
        validator := validator.(toClaim := validator.toClaim + stake);
        validator := validator.(lastSettle := epoch);
        return DispatchTo(a);
      }
      if stake > unstake { return AwaitStake(a, stake - unstake); }
      if validator.lastUnstake > 0 && !WaitingFinished(validator, epoch, settleEpochs) {
        validator := validator.(lastSettle := epoch);
        return DispatchTo(a);
      }
      return AwaitUnstake(a, unstake - stake);
    }

    /** Pipeline 3b: `None` is the callback's panic. */
    method OnDepositAndStake(a: Action, ok: bool, epoch: nat) returns (booked: Option<bool>)
      modifies this`validator
      ensures (Stored(), Dispatch(a)) == OnStaked(old(Stored()), a, ok, epoch)
      ensures booked == Some(true) <==> ok && old(validator.toStake) > old(validator.toUnstake)
      ensures Balanced(old(Stored())) ==> Balanced(Stored())
    {
      if !ok { return Some(false); }
      var stake, unstake := validator.toStake, validator.toUnstake;
      if stake <= unstake { return None; }
      if unstake > 0 { validator := validator.(toClaim := validator.toClaim + unstake); }
      validator := validator.(toStake := 0, toUnstake := 0);
      validator := validator.(staked := validator.staked + (stake - unstake));
      validator := validator.(lastSettle := epoch);
      return Some(true);
    }

    /** Pipeline 3c: `None` is the callback's panic. */
    method OnUnstake(a: Action, ok: bool, epoch: nat) returns (booked: Option<bool>)
      modifies this`validator
      ensures (Stored(), Dispatch(a)) == OnUnstaked(old(Stored()), a, ok, epoch)
      ensures booked == Some(true) <==> ok && old(validator.toUnstake) > old(validator.toStake)
      ensures Balanced(old(Stored())) ==> Balanced(Stored())
    {
      if !ok { return Some(false); }
      var stake, unstake := validator.toStake, validator.toUnstake;
      if unstake <= stake { return None; }
      if stake > 0 { validator := validator.(toClaim := validator.toClaim + stake); }
      validator := validator.(toUnstake := 0, toStake := 0);
      validator := validator.(toWithdraw := validator.toWithdraw + (unstake - stake));
      validator := validator.(lastUnstake := epoch);
      validator := validator.(lastSettle := epoch);
      return Some(true);
    }

    /** Pipeline 6: the mutex is released. */
    method ReleasePipeline()
      modifies this`validator
      ensures validator.tx == Idle && Stored() == Unlock(old(Stored()))
      ensures Balanced(old(Stored())) ==> Balanced(Stored())
    {
      validator := validator.(tx := Idle);
    }
  }
}
