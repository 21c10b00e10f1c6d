/** Pipeline safety: the chain always ends, every admitted action has exactly one outcome, and pool
    operations keep their distance. */
module StakingSafety {
  import opened StakingBook
  import opened StakingPipeline

  // ---------------------------------------------------------------------------
  // Every chain ends
  // ---------------------------------------------------------------------------

  /** Receipts that can still run before the mutex is released. */
  function Rank(phase: Phase): nat {
    match phase
    case Ready => 0
    case AwaitAccount(_) => 10
    case GotAccount(_, _) => 9
    case AwaitWithdraw(_, _) => 8
    case GotWithdraw(_, _, _) => 7
    case AfterWithdraw(_, _) => 6
    case AwaitStake(_, _) => 5
    case GotStake(_, _, _) => 4
    case AwaitUnstake(_, _) => 5
    case GotUnstake(_, _, _) => 4
    case Dispatch(_) => 3
    case Tail(_) => 2
    case Release(_, _) => 1
  }

  function Deliveries(evs: seq<Event>): nat {
    if evs == [] then 0
    else Deliveries(evs[..|evs| - 1]) + (if evs[|evs| - 1].Deliver? then 1 else 0)
  }

  predicate NoNewcomers(evs: seq<Event>) {
    forall i :: 0 <= i < |evs| ==> !evs[i].Start?
  }

  lemma DeliverDescends(s: System, ok: bool, release: nat, keep: bool, p: Params)
    requires !s.phase.Ready?
    ensures Rank(DeliverNext(s, ok, release, keep, p).phase) < Rank(s.phase)
  {
    hide RunTail, CreditWithdrawal, AfterStake, AfterUnstake, WaitingFinished, NetZeroClear;
  }

  lemma {:induction false} RankBound(s: System, evs: seq<Event>, p: Params)
    requires NoNewcomers(evs)
    ensures Run(s, evs, p).phase.Ready? || Rank(Run(s, evs, p).phase) + Deliveries(evs) <= Rank(s.phase)
  {
    if evs != [] {
      var before := evs[..|evs| - 1];
      RankBound(s, before, p);
      var mid, ev := Run(s, before, p), evs[|evs| - 1];
      if ev.Deliver? && !mid.phase.Ready? { DeliverDescends(mid, ev.ok, ev.release, ev.keep, p); }
    }
  }

  /** From any state, whatever each call and tail returns, ten receipts bring the validator back to rest. */
  lemma ChainEnds(s: System, evs: seq<Event>, p: Params)
    requires NoNewcomers(evs) && Deliveries(evs) >= 10
    ensures Run(s, evs, p).phase.Ready?
  {
    RankBound(s, evs, p);
  }

  // ---------------------------------------------------------------------------
  // Exactly one outcome per action
  // ---------------------------------------------------------------------------

  /** The action in flight has had no effect yet. */
  predicate Pending(phase: Phase) {
    !phase.Ready? && !(phase.Release? && phase.ok)
  }

  predicate RightOutcome(o: Outcome) {
    match o
    case Committed(a) => true
    case Refunded(a, amount) => a.Payable() && amount == a.deposit
    case NoEffect(a) => !a.Payable()
  }

  predicate OneOutcomeEach(s: System) {
    && (s.phase.Ready? <==> s.b.v.tx.Idle?)
    && |s.begun| == |s.done| + (if Pending(s.phase) then 1 else 0)
    && (Pending(s.phase) ==> s.begun[|s.begun| - 1] == s.phase.a)
    && (forall i :: 0 <= i < |s.done| ==> s.done[i].a == s.begun[i] && RightOutcome(s.done[i]))
  }

  lemma TailKeepsMutex(b: Book, a: Action, release: nat, keep: bool, epoch: nat, settle: nat)
    ensures var r := RunTail(b, a, release, keep, epoch, settle); r.Some? ==> r.value.0.v.tx == b.v.tx
  {
  }

  lemma ApplyKeepsOutcomes(s: System, ev: Event, p: Params)
    requires OneOutcomeEach(s)
    ensures OneOutcomeEach(Apply(s, ev, p))
  {
    if ev.Deliver? {
      hide OneOutcomeEach, DeliverNext;
      DeliverKeepsOutcomes(s, ev.ok, ev.release, ev.keep, p);
    }
  }

  /** The chain goes on: the same action is still in flight. */
  predicate GoesOn(s: System, s': System) {
    && s'.begun == s.begun && s'.done == s.done && s'.b.v.tx == s.b.v.tx
    && Pending(s.phase) && Pending(s'.phase) && s'.phase.a == s.phase.a
  }

  lemma DeliverKeepsOutcomes(s: System, ok: bool, release: nat, keep: bool, p: Params)
    requires OneOutcomeEach(s)
    ensures OneOutcomeEach(DeliverNext(s, ok, release, keep, p))
  {
    if s.phase.Ready? {
    } else if s.phase.Tail? || s.phase.Release? || s.phase.GotAccount? {
      EndKeepsOutcomes(s, ok, release, keep, p);
    } else {
      StepGoesOn(s, ok, release, keep, p);
    }
  }

  lemma StepGoesOn(s: System, ok: bool, release: nat, keep: bool, p: Params)
    requires !s.phase.Ready? && !s.phase.Tail? && !s.phase.Release? && !s.phase.GotAccount?
    ensures GoesOn(s, DeliverNext(s, ok, release, keep, p))
  {
  }

  lemma EndKeepsOutcomes(s: System, ok: bool, release: nat, keep: bool, p: Params)
    requires OneOutcomeEach(s) && (s.phase.Tail? || s.phase.Release? || s.phase.GotAccount?)
    ensures OneOutcomeEach(DeliverNext(s, ok, release, keep, p))
  {
    hide RunTail;
    if s.phase.Tail? { TailKeepsMutex(s.b, s.phase.a, release, keep, s.epoch, p.settle); }
  }

  /** On every run the admitted actions and their outcomes correspond one to one, in order, and a payable
      action either committed or was sent back exactly its deposit. */
  lemma {:induction false} EveryActionHasOneOutcome(epoch: nat, evs: seq<Event>, p: Params)
    ensures OneOutcomeEach(Run(Init(epoch), evs, p))
  {
    if evs != [] {
      EveryActionHasOneOutcome(epoch, evs[..|evs| - 1], p);
      ApplyKeepsOutcomes(Run(Init(epoch), evs[..|evs| - 1], p), evs[|evs| - 1], p);
    }
  }

  // ---------------------------------------------------------------------------
  // Pool operations keep their distance
  // ---------------------------------------------------------------------------

  /** The last pool operation has taken effect but its callback has not run. */
  predicate InFlight(phase: Phase) {
    (phase.GotStake? || phase.GotUnstake?) && phase.ok
  }

  predicate Spaced(ops: seq<PoolOp>, settle: nat) {
    forall i, j :: 0 <= i < j < |ops| ==>
      && ops[i].epoch < ops[j].epoch
      && (ops[i].unstake && ops[j].unstake ==> ops[i].epoch + settle <= ops[j].epoch)
  }

  /** The row's two epoch stamps are at or past every operation it knows of. */
  predicate Stamped(s: System, p: Params) {
    var v := s.b.v; var known := |s.ops| - (if InFlight(s.phase) then 1 else 0);
    && 0 <= known
    && v.lastSettle <= s.epoch && v.lastUnstake <= s.epoch
    && (forall i :: 0 <= i < |s.ops| ==> s.ops[i].epoch <= s.epoch)
    && (forall i :: 0 <= i < known ==> s.ops[i].epoch <= v.lastSettle)
    && (forall i :: 0 <= i < known && s.ops[i].unstake ==> s.ops[i].epoch <= v.lastUnstake && 0 < v.lastUnstake)
    && (s.phase.AwaitStake? || s.phase.AwaitUnstake? ==> v.lastSettle < s.epoch)
    && (s.phase.AwaitUnstake? ==> v.lastUnstake == 0 || v.lastUnstake + p.settle <= s.epoch)
    && (s.phase.GotUnstake? && s.phase.ok ==> s.ops[|s.ops| - 1].unstake && v.toUnstake > v.toStake)
    && (s.phase.GotStake? && s.phase.ok ==> !s.ops[|s.ops| - 1].unstake && v.toStake > v.toUnstake)
    && (s.phase.AwaitStake? ==> v.toStake > v.toUnstake)
    && (s.phase.AwaitUnstake? ==> v.toUnstake > v.toStake)
    && (InFlight(s.phase) ==> s.ops[|s.ops| - 1].epoch > v.lastSettle)
  }

  lemma TailKeepsStamps(b: Book, a: Action, release: nat, keep: bool, epoch: nat, settle: nat)
    ensures var r := RunTail(b, a, release, keep, epoch, settle);
            r.Some? ==> r.value.0.v.lastSettle == b.v.lastSettle && r.value.0.v.lastUnstake == b.v.lastUnstake
  {
  }

  lemma PoolStepKeepsSpacing(s: System, ok: bool, release: nat, keep: bool, p: Params)
    requires Stamped(s, p) && Spaced(s.ops, p.settle) && (s.phase.AwaitStake? || s.phase.AwaitUnstake?)
    ensures var s' := DeliverNext(s, ok, release, keep, p); Stamped(s', p) && Spaced(s'.ops, p.settle)
  {
    hide Spaced;
    PoolStepKeepsStamps(s, ok, release, keep, p);
    hide Stamped;
    StampsSpaceNextOp(s, p);
    SpacedAppend(s.ops, PoolOp(s.phase.AwaitUnstake?, s.epoch), p.settle);
  }

  lemma PoolStepKeepsStamps(s: System, ok: bool, release: nat, keep: bool, p: Params)
    requires Stamped(s, p) && (s.phase.AwaitStake? || s.phase.AwaitUnstake?)
    ensures Stamped(DeliverNext(s, ok, release, keep, p), p)
  {
  }

  /** An operation that is about to take effect keeps its distance from those before it. */
  lemma StampsSpaceNextOp(s: System, p: Params)
    requires Stamped(s, p) && (s.phase.AwaitStake? || s.phase.AwaitUnstake?)
    ensures forall i :: 0 <= i < |s.ops| ==>
              s.ops[i].epoch < s.epoch && (s.phase.AwaitUnstake? && s.ops[i].unstake ==>
                s.ops[i].epoch + p.settle <= s.epoch)
  {
  }

  lemma SpacedAppend(ops: seq<PoolOp>, op: PoolOp, settle: nat)
    requires Spaced(ops, settle)
    requires forall i :: 0 <= i < |ops| ==>
               ops[i].epoch < op.epoch && (op.unstake && ops[i].unstake ==> ops[i].epoch + settle <= op.epoch)
    ensures Spaced(ops + [op], settle)
  {
  }

  /** Every decision to call the pool is taken in an epoch past the stamps. */
  lemma SettleKeepsStamps(s: System, b: Book, a: Action, p: Params)
    requires Stamped(s, p) && !InFlight(s.phase)
    requires b.v.lastSettle == s.b.v.lastSettle && b.v.lastUnstake == s.b.v.lastUnstake
    ensures Stamped(Continue(s, Settle(b, a, s.epoch, p.settle)), p)
  {
  }

  /** Booking a pool operation moves the stamps up to it. */
  lemma BookingKeepsStamps(s: System, ok: bool, release: nat, keep: bool, p: Params)
    requires Stamped(s, p) && (s.phase.GotWithdraw? || s.phase.GotStake? || s.phase.GotUnstake?)
    ensures Stamped(DeliverNext(s, ok, release, keep, p), p) && DeliverNext(s, ok, release, keep, p).ops == s.ops
  {
  }

  predicate Quiet(phase: Phase) {
    !InFlight(phase) && !phase.AwaitStake? && !phase.AwaitUnstake?
  }

  lemma QuietKeepsStamps(s: System, s': System, p: Params)
    requires Stamped(s, p) && Quiet(s.phase) && Quiet(s'.phase) && s'.ops == s.ops && s'.epoch == s.epoch
    requires s'.b.v.lastSettle == s.b.v.lastSettle && s'.b.v.lastUnstake == s.b.v.lastUnstake
    ensures Stamped(s', p)
  {
  }

  lemma AccountKeepsStamps(s: System, ok: bool, release: nat, keep: bool, p: Params)
    requires Stamped(s, p) && s.phase.GotAccount? && s.phase.reply.Some?
    ensures Stamped(DeliverNext(s, ok, release, keep, p), p) && DeliverNext(s, ok, release, keep, p).ops == s.ops
  {
    var view := s.phase.reply.value;
    var b := s.b.(v := s.b.v.(staked := view.unstaked + view.staked));
    if view.unstaked > 0 && view.canWithdraw {
      QuietKeepsStamps(s, DeliverNext(s, ok, release, keep, p), p);
    } else {
      SettleKeepsStamps(s, b, s.phase.a, p);
    }
  }

  lemma DeliverKeepsStamps(s: System, ok: bool, release: nat, keep: bool, p: Params)
    requires Stamped(s, p) && !s.phase.AwaitStake? && !s.phase.AwaitUnstake?
    ensures Stamped(DeliverNext(s, ok, release, keep, p), p) && DeliverNext(s, ok, release, keep, p).ops == s.ops
  {
    if s.phase.GotWithdraw? || s.phase.GotStake? || s.phase.GotUnstake? {
      BookingKeepsStamps(s, ok, release, keep, p);
    } else if s.phase.GotAccount? && s.phase.reply.Some? {
      AccountKeepsStamps(s, ok, release, keep, p);
    } else if s.phase.AfterWithdraw? && s.phase.ok {
      SettleKeepsStamps(s, s.b, s.phase.a, p);
    } else {
      if s.phase.Tail? { TailKeepsStamps(s.b, s.phase.a, release, keep, s.epoch, p.settle); }
      QuietKeepsStamps(s, DeliverNext(s, ok, release, keep, p), p);
    }
  }

  lemma ApplyKeepsSpacing(s: System, ev: Event, p: Params)
    requires Stamped(s, p) && Spaced(s.ops, p.settle)
    requires s.phase.Ready? <==> s.b.v.tx.Idle?
    ensures Stamped(Apply(s, ev, p), p) && Spaced(Apply(s, ev, p).ops, p.settle)
  {
    if ev.Deliver? {
      if s.phase.AwaitStake? || s.phase.AwaitUnstake? {
        PoolStepKeepsSpacing(s, ev.ok, ev.release, ev.keep, p);
      } else {
        DeliverKeepsStamps(s, ev.ok, ev.release, ev.keep, p);
      }
    }
  }

  /** At most one pool stake or unstake takes effect per epoch, and unstakes are at least the settlement
      delay apart, on every run. */
  lemma {:induction false} PoolOpsAreSpaced(epoch: nat, evs: seq<Event>, p: Params)
    ensures Stamped(Run(Init(epoch), evs, p), p) && Spaced(Run(Init(epoch), evs, p).ops, p.settle)
  {
    if evs != [] {
      var before := evs[..|evs| - 1];
      PoolOpsAreSpaced(epoch, before, p);
      EveryActionHasOneOutcome(epoch, before, p);
      ApplyKeepsSpacing(Run(Init(epoch), before, p), evs[|evs| - 1], p);
    }
  }

  /** A change of plan costs exactly the one yocto attached to it; no other step keeps a fee. */
  lemma PlanChangeCostsOneYocto(s: System, ev: Event, p: Params)
    ensures var s' := Apply(s, ev, p);
            s'.fees == s.fees + if ev.Deliver? && s.phase.Tail? && s.phase.a.Update? && ev.keep
                                   && s'.phase == Release(s.phase.a, true) then 1 else 0
  {
    hide ExitShares, StakeIn, Claim;
  }
}
