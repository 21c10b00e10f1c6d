/** The limits of the exit promise: it fails for a settlement delay of zero, where a tranche is due in the very epoch
    whose settlement only starts its unstake, and for a pool that is slower than the settlement delay. */
module StakingExitLimit {
  import opened Options
  import opened StakingBook
  import opened StakingPipeline
  import opened StakingExit
  import opened MapSums
  import opened Arith

  const OK: Event := Deliver(true, 0, false)

  /** `s` is where the on-time run `evs` leads from a fresh contract in epoch `n`. */
  predicate Reached(n: nat, evs: seq<Event>, s: System, p: Params) {
    OnTimeRun(Init(n), evs, p) && Run(Init(n), evs, p) == s
  }

  lemma Step(n: nat, evs: seq<Event>, s: System, ev: Event, p: Params) returns (evs': seq<Event>, s': System)
    requires Reached(n, evs, s, p) && OnTime(s, ev)
    ensures s' == Apply(s, ev, p) && Reached(n, evs', s', p)
  {
    evs', s' := evs + [ev], Apply(s, ev, p);
    assert evs'[..|evs'| - 1] == evs;
  }

  /** Three events bring a resting contract to its settlement decision, when the pool holds nothing to withdraw. */
  lemma Decided(n: nat, evs: seq<Event>, s: System, a: Action, p: Params) returns (evs': seq<Event>, s': System)
    requires Reached(n, evs, s, p) && s.phase.Ready? && s.b.v.tx.Idle? && s.b.v.lastSettle < s.epoch
    requires s.pool.unstaked == 0 || s.epoch < s.pool.openAt
    ensures Reached(n, evs', s', p) && s'.pool == s.pool && s'.epoch == s.epoch
    ensures (s'.b, s'.phase)
         == Settle(s.b.(v := s.b.v.(tx := Busy, staked := s.pool.unstaked + s.pool.staked)), a, s.epoch, p.settle)
  {
    hide Reached;
    evs', s' := Step(n, evs, s, Start(a), p);
    evs', s' := Step(n, evs', s', OK, p);
    evs', s' := Step(n, evs', s', OK, p);
  }

  /** Epoch `n`: an account locks some NEAR, which waits for the next settlement. */
  lemma FirstEpoch(n: nat, who: AccountId, amount: nat, p: Params) returns (evs: seq<Event>, s: System)
    requires n >= 1
    ensures Reached(n, evs, s, p)
    ensures s.b == Book(Validator(amount, 0, amount, 0, 0, 0, 0, n, Idle), map[who := amount], map[])
    ensures s.phase == Ready && s.pool == Pool(0, 0, 0) && s.epoch == n
  {
    evs, s := [], Init(n);
    assert Reached(n, evs, s, p);
    hide Reached;
    evs, s := Decided(n, evs, s, Lock(who, amount), p);
    assert s.phase == Tail(Lock(who, amount));
    evs, s := Step(n, evs, s, OK, p);
    assert s.phase == Release(Lock(who, amount), true);
    assert s.b.v == Validator(amount, 0, amount, 0, 0, 0, 0, n, Busy);
    evs, s := Step(n, evs, s, OK, p);
  }

  /** Epoch `n + 1`: the settlement stakes the NEAR at the pool ... */
  lemma SecondEpoch(n: nat, who: AccountId, amount: nat, a: Action, p: Params) returns (evs: seq<Event>, s: System)
    requires n >= 1 && amount > 0 && a.Exit?
    ensures Reached(n, evs, s, p)
    ensures s.b == Book(Validator(amount, amount, 0, 0, 0, 0, 0, n + 1, Busy), map[who := amount], map[])
    ensures s.phase == Tail(a) && s.pool == Pool(amount, 0, 0) && s.epoch == n + 1
  {
    hide Reached;
    hide RunTail;
    evs, s := FirstEpoch(n, who, amount, p);
    evs, s := Step(n, evs, s, NextEpoch, p);
    evs, s := Decided(n, evs, s, a, p);
    assert s.b.v == Validator(amount, 0, amount, 0, 0, 0, 0, n, Busy) && s.phase == AwaitStake(a, amount);
    evs, s := Step(n, evs, s, OK, p);
    assert s.b.v == Validator(amount, 0, amount, 0, 0, 0, 0, n, Busy) && s.phase == GotStake(a, amount, true);
    evs, s := Step(n, evs, s, OK, p);
    assert s.b.v == Validator(amount, amount, 0, 0, 0, 0, 0, n + 1, Busy) && s.phase == Dispatch(a);
    evs, s := Step(n, evs, s, OK, p);
  }

  /** The book after `gone` of `amount` shares have left it in epoch `n + 1`. */
  function AfterExit(n: nat, who: AccountId, amount: nat, gone: nat, tx: TxStatus, p: Params): Book
    requires gone <= amount
  {
    Book(Validator(amount - gone, amount, 0, gone, 0, 0, 0, n + 1, tx),
         if gone == amount then map[] else map[who := amount - gone],
         map[who := [Tranche(gone, n + 2 + p.settle)]])
  }

  /** ... and the account exits, with a tranche that waits one settlement delay from epoch `n + 2` on. */
  lemma SecondEpochExit(n: nat, who: AccountId, amount: nat, gone: nat, p: Params) returns (evs: seq<Event>, s: System)
    requires n >= 1 && p.settle <= n + 2 && 0 < gone <= amount
    ensures Reached(n, evs, s, p) && s.b == AfterExit(n, who, amount, gone, Idle, p)
    ensures s.phase == Ready && s.pool == Pool(amount, 0, 0) && s.epoch == n + 1
  {
    hide Reached;
    evs, s := SecondEpoch(n, who, amount, Exit(who, gone), p);
    ExitsPart(s.b, n, who, amount, gone, p);
    hide ExitShares;
    evs, s := Step(n, evs, s, OK, p);
    evs, s := Step(n, evs, s, OK, p);
  }

  lemma ExitsPart(b: Book, n: nat, who: AccountId, amount: nat, gone: nat, p: Params)
    requires b == Book(Validator(amount, amount, 0, 0, 0, 0, 0, n + 1, Busy), map[who := amount], map[])
    requires p.settle <= n + 2 && 0 < gone <= amount
    ensures ExitShares(b, who, gone, n + 1, p.settle) == Some(AfterExit(n, who, amount, gone, Busy, p))
  {
    var t := Tranche(gone, n + 2 + p.settle);
    assert gone == amount ==> BurnFrom(b.shares, who, gone) == map[];
    assert gone < amount ==> BurnFrom(b.shares, who, gone) == map[who := amount - gone];
    assert TranchesOf(b, who) + [t] == [t];
    assert b.tranches[who := TranchesOf(b, who) + [t]] == map[who := [t]];
    PricedAtPar(gone, amount);
    assert AvailableEpoch(b.v, n + 1, p.settle) == n + 2 + p.settle;
  }

  lemma PricedAtPar(shares: nat, total: nat)
    requires total > 0
    ensures NearFromShares(shares, total, total) == shares
  {
    Quotient(shares, shares * total, total);
    Quot(shares * total / total, shares * total, total);
    Cancel(total, shares * total / total, shares);
  }

  /** The NEAR is unbonding at the pool until epoch `n + 2 + p.delay`, and epoch `e` has been settled. */
  predicate Unbonding(s: System, n: nat, e: nat, who: AccountId, amount: nat, p: Params) {
    && s.b.v == Validator(0, amount, 0, 0, amount, 0, n + 2, e, Idle)
    && s.b.tranches == map[who := [Tranche(amount, n + 2 + p.settle)]]
    && s.phase == Ready && s.pool == Pool(0, amount, n + 2 + p.delay) && s.epoch == e
  }

  /** Epoch `n + 2`: the settlement starts the unstake. */
  lemma ThirdEpoch(n: nat, who: AccountId, amount: nat, p: Params) returns (evs: seq<Event>, s: System)
    requires n >= 1 && p.settle <= n + 2 && amount > 0
    ensures Reached(n, evs, s, p) && Unbonding(s, n, n + 2, who, amount, p)
  {
    hide Reached;
    evs, s := SecondEpochExit(n, who, amount, amount, p);
    evs, s := Step(n, evs, s, NextEpoch, p);
    evs, s := Decided(n, evs, s, SettleOnly, p);
    assert s.phase == AwaitUnstake(SettleOnly, amount);
    evs, s := Step(n, evs, s, OK, p);
    evs, s := Step(n, evs, s, OK, p);
    assert s.phase == Dispatch(SettleOnly) && s.b.v == Validator(0, amount, 0, 0, amount, 0, n + 2, n + 2, Busy);
    evs, s := Step(n, evs, s, OK, p);
    assert s.phase == Release(SettleOnly, false);
    evs, s := Step(n, evs, s, OK, p);
  }

  /** Each further epoch before the pool opens is settled without moving anything. */
  lemma {:induction false} WaitingEpochs(n: nat, e: nat, who: AccountId, amount: nat, p: Params)
    returns (evs: seq<Event>, s: System)
    requires n >= 1 && p.settle <= n + 2 <= e && (e == n + 2 || e < n + 2 + p.delay) && amount > 0
    ensures Reached(n, evs, s, p) && Unbonding(s, n, e, who, amount, p)
    decreases e
  {
    if e == n + 2 {
      evs, s := ThirdEpoch(n, who, amount, p);
    } else {
      evs, s := WaitingEpochs(n, e - 1, who, amount, p);
      hide Reached;
      evs, s := Step(n, evs, s, NextEpoch, p);
      evs, s := Decided(n, evs, s, SettleOnly, p);
      assert s.phase == Release(SettleOnly, false);
      assert s.b.v == Validator(0, amount, 0, 0, amount, 0, n + 2, e, Busy);
      evs, s := Step(n, evs, s, OK, p);
    }
  }

  /** When the tranche falls due its epoch has been settled, and the bucket is empty, whatever amount was locked. */
  lemma PromiseBroken(who: AccountId, amount: nat, p: Params) returns (n: nat, evs: seq<Event>, s: System)
    requires (p.settle == 0 || p.delay > p.settle) && amount > 0
    ensures Reached(n, evs, s, p) && !PromiseKept(s)
  {
    n := p.settle + 1;
    evs, s := WaitingEpochs(n, n + 2 + p.settle, who, amount, p);
    hide Reached;
    var ts, due := [Tranche(amount, n + 2 + p.settle)], n + 3 + p.settle;
    assert s.b.tranches == map[][who := ts];
    SumMapUpdate(map[], Between(0, due), who, ts);
    assert SumBetween(ts, 0, due) == amount;
  }

  ghost predicate PromiseAlwaysKept(p: Params) {
    forall epoch: nat, evs: seq<Event> | OnTimeRun(Init(epoch), evs, p) :: PromiseKept(Run(Init(epoch), evs, p))
  }

  /** Exactly when the promise holds on all on-time runs: a positive settlement delay, and a pool no slower than it. */
  lemma PromiseIffPoolIsInTime(p: Params)
    ensures PromiseAlwaysKept(p) <==> p.settle >= 1 && p.delay <= p.settle
  {
    if p.settle >= 1 && p.delay <= p.settle {
      forall epoch: nat, evs: seq<Event> | OnTimeRun(Init(epoch), evs, p)
        ensures PromiseKept(Run(Init(epoch), evs, p))
      {
        ExitPromise(epoch, evs, p);
      }
    } else {
      var n, evs, s := PromiseBroken("alice", 1, p);
    }
  }
}
