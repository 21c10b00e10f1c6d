/** The settlement pipeline as a state machine: the contract's row, an exact staking pool, the NEAR in
    transit, and any interleaving of epochs, rewards and successful or failed pool calls. */
module StakingPipeline {
  import opened Options
  import opened StakingBook
  import opened MapSums

  /** The contract's account at the pool. Unstaked NEAR opens for withdrawal at epoch `openAt`. */
  datatype Pool = Pool(staked: nat, unstaked: nat, openAt: nat)

  /** A stake or unstake that took effect at the pool, with the epoch in which it did. */
  datatype PoolOp = PoolOp(unstake: bool, epoch: nat)

  /** What became of a finished action. */
  datatype Outcome = Committed(a: Action) | Refunded(a: Action, amount: nat) | NoEffect(a: Action)

  datatype Params = Params(settle: nat, delay: nat)

  datatype System = System(
    b: Book,
    phase: Phase,
    pool: Pool,
    cash: int,             // NEAR the contract holds on account of this validator
    fees: nat,             // one-yocto deposits kept by plan changes
    epoch: nat,
    begun: seq<Action>,    // actions admitted so far
    done: seq<Outcome>,    // what became of them
    ops: seq<PoolOp>)      // pool stakes and unstakes that took effect

  datatype Event =
    | Start(a: Action)                              // a user calls in
    | Deliver(ok: bool, release: nat, keep: bool)   // the next receipt of the chain runs
    | NextEpoch
    | Reward(amount: nat)

  function Init(epoch: nat): System {
    System(Book(Validator(0, 0, 0, 0, 0, 0, 0, 0, Idle), map[], map[]), Ready, Pool(0, 0, 0), 0, 0, epoch, [], [], [])
  }

  function Apply(s: System, ev: Event, p: Params): System {
    match ev
    case Start(a) =>
      if s.b.v.tx.Busy? then s   // the entry panics and the deposit never arrives
      else
        var (b, phase) := Begin(s.b, a, s.epoch);
        s.(b := b, phase := phase, cash := s.cash + a.Deposit(), begun := s.begun + [a])
    case Deliver(ok, release, keep) => DeliverNext(s, ok, release, keep, p)
    case NextEpoch => s.(epoch := s.epoch + 1)
    case Reward(amount) => s.(pool := s.pool.(staked := s.pool.staked + amount))
  }

  function Run(s: System, evs: seq<Event>, p: Params): System {
    if evs == [] then s else Apply(Run(s, evs[..|evs| - 1], p), evs[|evs| - 1], p)
  }

  /** A contract callback has produced a book and the next receipt; a stake call takes its NEAR along. */
  function Continue(s: System, next: (Book, Phase)): System {
    s.(b := next.0, phase := next.1,
       cash := s.cash - (if next.1.AwaitStake? then next.1.amount else 0))
  }

  /** Release the mutex of an action that had no effect, sending back what it attached. */
  function Abort(s: System, a: Action): System {
    s.(b := Unlock(s.b), phase := Ready, cash := s.cash - a.Deposit(),
       done := s.done + [if a.Payable() then Refunded(a, a.Deposit()) else NoEffect(a)])
  }

  function DeliverNext(s: System, ok: bool, release: nat, keep: bool, p: Params): System {
    var pool := s.pool;
    match s.phase
    case Ready => s
    case AwaitAccount(a) =>
      var view := PoolView(pool.staked, pool.unstaked, pool.openAt <= s.epoch);
      s.(phase := GotAccount(a, if ok then Some(view) else None))
    case GotAccount(a, reply) =>
      if reply.Some? then Continue(s, OnPoolAccount(s.b, a, reply.value, s.epoch, p.settle))
      else if a.Payable() then Abort(s, a)
      else s.(phase := Release(a, false))
    case AwaitWithdraw(a, amount) =>
      if ok && amount <= pool.unstaked && pool.openAt <= s.epoch
      then s.(pool := pool.(unstaked := pool.unstaked - amount), cash := s.cash + amount,
              phase := GotWithdraw(a, amount, true))
      else s.(phase := GotWithdraw(a, amount, false))
    case GotWithdraw(a, amount, done) => Continue(s, OnWithdrawn(s.b, a, amount, done))
    case AfterWithdraw(a, done) => Continue(s, OnAfterWithdraw(s.b, a, done, s.epoch, p.settle))
    case AwaitStake(a, amount) =>
      if ok then s.(pool := pool.(staked := pool.staked + amount), phase := GotStake(a, amount, true),
                    ops := s.ops + [PoolOp(false, s.epoch)])
      else s.(cash := s.cash + amount, phase := GotStake(a, amount, false))
    case GotStake(a, amount, done) => Continue(s, OnStaked(s.b, a, done, s.epoch))
    case AwaitUnstake(a, amount) =>
      if ok && amount <= pool.staked
      then s.(pool := Pool(pool.staked - amount, pool.unstaked + amount, s.epoch + p.delay),
              phase := GotUnstake(a, amount, true), ops := s.ops + [PoolOp(true, s.epoch)])
      else s.(phase := GotUnstake(a, amount, false))
    case GotUnstake(a, amount, done) => Continue(s, OnUnstaked(s.b, a, done, s.epoch))
    case Dispatch(a) => s.(phase := DispatchTo(a))
    case Tail(a) =>
      var result := if ok then RunTail(s.b, a, release, keep, s.epoch, p.settle) else None;
      if result.Some?
      then
        var fee := if a.Update? && keep then a.deposit else 0;
        s.(b := result.value.0, phase := Release(a, true), cash := s.cash - result.value.1 - fee,
           fees := s.fees + fee, done := s.done + [Committed(a)])
      else s.(phase := Release(a, false))
    case Release(a, done) =>
      if done then s.(b := Unlock(s.b), phase := Ready) else Abort(s, a)
  }

  // ---------------------------------------------------------------------------
  // Conservation
  // ---------------------------------------------------------------------------

  /** Sum of a tranche list restricted to available epochs in `[lo, hi)`. */
  function SumBetween(ts: seq<Tranche>, lo: nat, hi: nat): nat {
    if ts == [] then 0
    else (if lo <= ts[0].available < hi then ts[0].amount else 0) + SumBetween(ts[1..], lo, hi)
  }

  function Between(lo: nat, hi: nat): seq<Tranche> -> nat { ts => SumBetween(ts, lo, hi) }

  function SumAll(ts: seq<Tranche>): nat {
    if ts == [] then 0 else ts[0].amount + SumAll(ts[1..])
  }

  function All(): seq<Tranche> -> nat { ts => SumAll(ts) }

  function Same(): nat -> nat { n => n }

  /** What the contract owes to users in exit, over all accounts. */
  ghost function Owed(b: Book): nat { SumMap(b.tranches, All()) }

  ghost function OwedBetween(b: Book, lo: nat, hi: nat): nat { SumMap(b.tranches, Between(lo, hi)) }

  /** The deposit of the action in flight, until it is staked, kept or sent back. */
  function Held(phase: Phase): nat {
    match phase
    case Ready => 0
    case Release(a, done) => if done then 0 else a.Deposit()
    case _ => phase.a.Deposit()
  }

  /** NEAR that has reached the contract from the pool but is not booked yet. */
  function Arrived(phase: Phase): nat {
    if phase.GotWithdraw? && phase.ok then phase.amount else 0
  }

  /** NEAR that has left the contract for the pool but is not booked yet. */
  function Sent(phase: Phase): nat {
    if phase.AwaitStake? || (phase.GotStake? && phase.ok) then phase.amount else 0
  }

  /** NEAR the pool has moved to its unstaked side but is not booked yet. */
  function Unbonding(phase: Phase): nat {
    if phase.GotUnstake? && phase.ok then phase.amount else 0
  }

  /** What each receipt in flight promises about the buckets it was issued for. */
  predicate PhaseFits(s: System) {
    var v := s.b.v;
    && (s.phase.Ready? <==> v.tx.Idle?)
    && match s.phase
       case GotAccount(a, reply) =>
         reply.Some? ==> reply.value.unstaked == s.pool.unstaked && reply.value.staked <= s.pool.staked
                         && v.staked <= reply.value.staked + reply.value.unstaked
       case AwaitWithdraw(a, amount) => amount == s.pool.unstaked && amount <= v.staked
       case GotWithdraw(a, amount, done) => done ==> amount == v.toWithdraw && amount <= v.staked
       case AwaitStake(a, amount) => v.toStake > v.toUnstake && amount == v.toStake - v.toUnstake
       case GotStake(a, amount, done) => v.toStake > v.toUnstake && amount == v.toStake - v.toUnstake
       case AwaitUnstake(a, amount) => v.toUnstake > v.toStake && amount == v.toUnstake - v.toStake
       case GotUnstake(a, amount, done) => v.toUnstake > v.toStake && amount == v.toUnstake - v.toStake
       case _ => true
  }

  /** User liabilities, share balances and cover, as stored. */
  ghost predicate Balanced(b: Book) {
    var v := b.v;
    && Owed(b) == v.toUnstake + v.toWithdraw + v.toClaim
    && SumMap(b.shares, Same()) == v.totalShares
    && v.staked + v.toStake >= v.toUnstake + v.toWithdraw
  }

  /** Where the NEAR is: in the contract, at the pool, or in transit between them. */
  predicate Located(s: System) {
    var v := s.b.v;
    && s.cash == v.toStake + v.toClaim + Held(s.phase) + Arrived(s.phase) - Sent(s.phase)
    && s.pool.unstaked == v.toWithdraw - Arrived(s.phase) + Unbonding(s.phase)
    && v.staked <= s.pool.staked + s.pool.unstaked + Arrived(s.phase) - (if s.phase.GotStake? then Sent(s.phase) else 0)
    && PhaseFits(s)
  }

  /** Every NEAR is accounted for, whatever is in flight. */
  ghost predicate Conserved(s: System) {
    Balanced(s.b) && Located(s)
  }
}
