/** A deposit can mint no share: a run that leaves one share worth more than any given deposit. */
module StakingZeroMint {
  import opened Options
  import opened StakingBook
  import opened StakingPipeline
  import opened StakingExitLimit

  /** The row gives no share for the deposit. */
  predicate MintsNothing(v: Validator, deposit: nat) {
    v.totalShares > 0 && deposit * v.totalShares < v.NetStake()
  }

  /** A positive deposit mints no share exactly when it is worth less than one. */
  lemma MintsNothingIff(v: Validator, deposit: nat)
    requires deposit > 0 && (v.totalShares > 0 ==> v.NetStake() > 0)
    ensures MintShares(v.totalShares, v.NetStake(), deposit) == 0 <==> MintsNothing(v, deposit)
  {
  }

  /** Epoch `n + 2`: after all shares but one have left and rewards came in, a new deposit reaches its tail. */
  lemma LastShareGrows(n: nat, who: AccountId, amount: nat, reward: nat, a: Action, p: Params)
    returns (evs: seq<Event>, s: System)
    requires n >= 1 && p.settle <= n + 2 && amount >= 2 && a.Lock?
    ensures Reached(n, evs, s, p) && s.phase == Tail(a)
    ensures s.b.v == Validator(1, amount + reward, 0, 0, amount - 1, 0, n + 2, n + 2, Busy)
  {
    hide Reached;
    evs, s := SecondEpochExit(n, who, amount, amount - 1, p);
    evs, s := Step(n, evs, s, Reward(reward), p);
    evs, s := Step(n, evs, s, NextEpoch, p);
    evs, s := Decided(n, evs, s, a, p);
    assert s.phase == AwaitUnstake(a, amount - 1);
    assert s.b.v == Validator(1, amount + reward, 0, amount - 1, 0, 0, 0, n + 1, Busy);
    evs, s := Step(n, evs, s, OK, p);
    assert s.phase == GotUnstake(a, amount - 1, true);
    evs, s := Step(n, evs, s, OK, p);
    assert s.phase == Dispatch(a);
    evs, s := Step(n, evs, s, OK, p);
  }

  /** For every deposit there is an on-time run on which it reaches its tail and mints nothing, whatever was locked
      before: deposits above any minimum are not spared. */
  lemma ZeroMintReached(who: AccountId, amount: nat, buyer: AccountId, deposit: nat, p: Params)
    returns (n: nat, evs: seq<Event>, s: System)
    requires amount >= 2 && deposit > 0
    ensures Reached(n, evs, s, p) && s.phase == Tail(Lock(buyer, deposit))
    ensures MintsNothing(s.b.v, deposit)
    ensures StakeIn(s.b, buyer, deposit).Some?
    ensures SharesOf(StakeIn(s.b, buyer, deposit).value, buyer) == SharesOf(s.b, buyer)
  {
    n := p.settle + 1;
    evs, s := LastShareGrows(n, who, amount, deposit, Lock(buyer, deposit), p);
    assert s.b.v.NetStake() == deposit + 1;
    MintsNothingIff(s.b.v, deposit);
  }
}
