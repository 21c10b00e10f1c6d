/** What a settlement achieves: pending deposits and exits are netted and the difference goes to the pool, unless an
    earlier unstake is still waiting there; on a run that settles every epoch in time nothing is left behind. */
module StakingSettlement {
  import opened StakingBook
  import opened StakingPipeline
  import opened StakingConservation
  import opened StakingExit
  import opened MapSums

  /** The next `n` receipts of a chain, all of them successful. */
  function Receipts(s: System, n: nat, p: Params): System {
    if n == 0 then s else DeliverNext(Receipts(s, n - 1, p), true, 0, false, p)
  }

  lemma ThreeReceipts(s: System, p: Params)
    ensures var s1 := DeliverNext(s, true, 0, false, p);
            var s2 := DeliverNext(s1, true, 0, false, p);
            && Receipts(s, 1, p) == s1 && Receipts(s, 3, p) == DeliverNext(s2, true, 0, false, p)
  {
    hide DeliverNext;
    assert Receipts(s, 0, p) == s;
    assert Receipts(s, 2, p) == DeliverNext(Receipts(s, 1, p), true, 0, false, p);
  }

  // ---------------------------------------------------------------------------
  // One settlement
  // ---------------------------------------------------------------------------

  /** The pool has been asked and emptied; the pending buckets come next. */
  predicate Deciding(s: System) { s.phase.AfterWithdraw? && s.phase.ok && s.b.v.lastSettle < s.epoch }

  /** An unstake of an earlier epoch keeps the next one waiting. */
  predicate Waiting(v: Validator, epoch: nat, settle: nat) { 0 < v.lastUnstake && epoch < v.lastUnstake + settle }

  /** More to stake than to unstake: the difference is staked at the pool, whether or not an unstake is waiting, the
      exits are funded from the deposits, and both buckets are empty. */
  lemma SettlementStakes(s: System, p: Params)
    requires Deciding(s) && s.b.v.toStake > s.b.v.toUnstake
    ensures var v, s' := s.b.v, Receipts(s, 3, p);
            var net := v.toStake - v.toUnstake;
            && s'.b.v == v.(staked := v.staked + net, toStake := 0, toUnstake := 0, toClaim := v.toClaim + v.toUnstake,
                            lastSettle := s.epoch)
            && s'.pool == s.pool.(staked := s.pool.staked + net) && s'.cash == s.cash - net
            && s'.phase == Dispatch(s.phase.a)
            && s'.b.shares == s.b.shares && s'.b.tranches == s.b.tranches
  {
    hide Receipts;
    ThreeReceipts(s, p);
    var net := s.b.v.toStake - s.b.v.toUnstake;
    var s1 := DeliverNext(s, true, 0, false, p);
    assert s1 == s.(phase := AwaitStake(s.phase.a, net), cash := s.cash - net);
    var s2 := DeliverNext(s1, true, 0, false, p);
    assert s2.phase == GotStake(s.phase.a, net, true) && s2.b == s.b && s2.cash == s.cash - net;
    assert s2.pool == s.pool.(staked := s.pool.staked + net) && s2.epoch == s.epoch;
  }

  lemma UnstakeFits(s: System)
    requires Conserved(s) && s.phase.AwaitUnstake?
    ensures 0 < s.phase.amount <= s.pool.staked
  {
  }

  /** More to unstake and no earlier unstake waiting: the difference is unstaked at the pool. */
  lemma SettlementUnstakes(s: System, p: Params)
    requires Conserved(s) && Deciding(s) && s.b.v.toUnstake > s.b.v.toStake && !Waiting(s.b.v, s.epoch, p.settle)
    ensures var v, s' := s.b.v, Receipts(s, 3, p);
            var net := v.toUnstake - v.toStake;
            && net <= s.pool.staked
            && s'.b.v == v.(toStake := 0, toUnstake := 0, toWithdraw := v.toWithdraw + net,
                            toClaim := v.toClaim + v.toStake, lastUnstake := s.epoch, lastSettle := s.epoch)
            && s'.pool == Pool(s.pool.staked - net, s.pool.unstaked + net, s.epoch + p.delay) && s'.cash == s.cash
            && s'.phase == Dispatch(s.phase.a)
            && s'.b.shares == s.b.shares && s'.b.tranches == s.b.tranches
  {
    hide SumMap;
    hide Receipts;
    ThreeReceipts(s, p);
    var net := s.b.v.toUnstake - s.b.v.toStake;
    var s1 := DeliverNext(s, true, 0, false, p);
    assert s1 == s.(phase := AwaitUnstake(s.phase.a, net));
    assert net <= s.pool.staked;
    hide Conserved;
    var s2 := DeliverNext(s1, true, 0, false, p);
    assert s2.phase == GotUnstake(s.phase.a, net, true) && s2.b == s.b && s2.cash == s.cash && s2.epoch == s.epoch;
    assert s2.pool == Pool(s.pool.staked - net, s.pool.unstaked + net, s.epoch + p.delay);
  }

  /** Otherwise the pool is not called: equal buckets cancel and fund the claims, a waiting unstake leaves them. */
  lemma SettlementStays(s: System, p: Params)
    requires Deciding(s) && s.b.v.toStake <= s.b.v.toUnstake
    requires s.b.v.toStake == s.b.v.toUnstake || Waiting(s.b.v, s.epoch, p.settle)
    ensures var v, s' := s.b.v, Receipts(s, 1, p);
            && s'.b == s.b.(v := s'.b.v) && s'.pool == s.pool && s'.cash == s.cash
            && s'.phase == DispatchTo(s.phase.a)
            && (v.toStake == v.toUnstake ==>
                  s'.b.v == v.(toStake := 0, toUnstake := 0, toClaim := v.toClaim + v.toUnstake, lastSettle := s.epoch))
            && (v.toStake < v.toUnstake ==> s'.b.v == v.(lastSettle := s.epoch))
  {
    hide Receipts;
    ThreeReceipts(s, p);
  }

  // ---------------------------------------------------------------------------
  // Every epoch of an on-time run
  // ---------------------------------------------------------------------------

  /** NEAR deposited, and NEAR of new tranches, in committed tails. */
  datatype Entries = Entries(deposits: nat, exits: nat)

  function Plus(a: Entries, b: Entries): Entries { Entries(a.deposits + b.deposits, a.exits + b.exits) }

  predicate Commits(s: System, ev: Event, p: Params) {
    ev.Deliver? && s.phase.Tail? && Apply(s, ev, p).phase == Release(s.phase.a, true)
  }

  /** What one step commits: a deposit unless it only changes the plan, and what the row owes more than before. */
  ghost function Committed(s: System, ev: Event, p: Params): Entries {
    if !Commits(s, ev, p) then Entries(0, 0)
    else
      var a, owed, owed' := s.phase.a, Owed(s.b), Owed(Apply(s, ev, p).b);
      Entries(if a.Update? && ev.keep then 0 else a.Deposit(), if owed' > owed then owed' - owed else 0)
  }

  /** What was committed in the epoch in which a run ends. */
  ghost function ThisEpoch(s: System, evs: seq<Event>, p: Params): Entries {
    if evs == [] then Entries(0, 0)
    else
      var ev := evs[|evs| - 1];
      if ev.NextEpoch? then Entries(0, 0)
      else
        Plus(ThisEpoch(s, evs[..|evs| - 1], p), Committed(Run(s, evs[..|evs| - 1], p), ev, p))
  }

  /** The pending buckets hold what was committed in this epoch and nothing older, unless an earlier unstake is waiting,
      and then older exits exceed older deposits. */
  predicate OnlyFresh(v: Validator, e: Entries, epoch: nat, settle: nat) {
    && e.deposits <= v.toStake && e.exits <= v.toUnstake
    && ((v.toStake == e.deposits && v.toUnstake == e.exits)
        || (v.toStake - e.deposits < v.toUnstake - e.exits && Waiting(v, epoch, settle)))
  }

  /** Where in the chain the epoch counts as settled. */
  predicate InStep(s: System) {
    var v := s.b.v;
    && v.lastSettle <= s.epoch
    && (s.phase.Dispatch? || s.phase.Tail? || s.phase.Release? ==> v.lastSettle == s.epoch)
    && (PastWithdraw(s.phase) || BeforeDecision(s.phase) ==> v.lastSettle < s.epoch)
    && (s.phase.GotAccount? ==> s.phase.reply.Some? && s.phase.reply.value.canWithdraw == (s.pool.openAt <= s.epoch))
    && (s.phase.AwaitWithdraw? ==> s.pool.openAt <= s.epoch)
    && (s.phase.GotWithdraw? || s.phase.AfterWithdraw? || s.phase.GotStake? || s.phase.GotUnstake? ==> s.phase.ok)
  }

  ghost predicate UpToDate(s: System, e: Entries, p: Params) {
    && InStep(s)
    && (s.b.v.lastSettle == s.epoch ==> OnlyFresh(s.b.v, e, s.epoch, p.settle))
    && (s.b.v.lastSettle < s.epoch ==> e == Entries(0, 0))
  }

  /** A committed tail adds its deposit and its tranche to the buckets. */
  lemma TailAdds(b: Book, a: Action, release: nat, keep: bool, epoch: nat, settle: nat)
    requires Balanced(b) && RunTail(b, a, release, keep, epoch, settle).Some?
    ensures var b' := RunTail(b, a, release, keep, epoch, settle).value.0;
            && b'.v.toStake == b.v.toStake + (if a.Update? && keep then 0 else a.Deposit())
            && b'.v.toUnstake == b.v.toUnstake + (if Owed(b') > Owed(b) then Owed(b') - Owed(b) else 0)
            && b'.v.lastSettle == b.v.lastSettle && b'.v.lastUnstake == b.v.lastUnstake
  {
    hide SumMap;
    TailConserves(b, a, release, keep, epoch, settle);
  }

  /** A committed tail as a step of the run. */
  lemma TailStep(s: System, ev: Event, p: Params)
    requires Balanced(s.b) && ev.Deliver? && s.phase.Tail?
    ensures var s', e := Apply(s, ev, p), Committed(s, ev, p);
            && s'.epoch == s.epoch && s'.phase.Release?
            && s'.b.v.toStake == s.b.v.toStake + e.deposits && s'.b.v.toUnstake == s.b.v.toUnstake + e.exits
            && s'.b.v.lastSettle == s.b.v.lastSettle && s'.b.v.lastUnstake == s.b.v.lastUnstake
  {
    hide RunTail, Owed, Balanced;
    var result := RunTail(s.b, s.phase.a, ev.release, ev.keep, s.epoch, p.settle);
    if ev.ok && result.Some? { TailAdds(s.b, s.phase.a, ev.release, ev.keep, s.epoch, p.settle); }
  }

  lemma TailKeepsUpToDate(s: System, ev: Event, e: Entries, p: Params)
    requires Balanced(s.b) && UpToDate(s, e, p) && ev.Deliver? && s.phase.Tail?
    ensures UpToDate(Apply(s, ev, p), Plus(e, Committed(s, ev, p)), p)
  {
    hide Apply, Committed, Balanced;
    TailStep(s, ev, p);
  }

  /** The decision of an epoch that is not settled yet. */
  lemma SettleKeepsUpToDate(s: System, b: Book, p: Params)
    requires b.v.(staked := 0) == s.b.v.(staked := 0) && s.b.v.lastSettle < s.epoch && InStep(s) && !s.phase.Ready?
    ensures UpToDate(Continue(s, Settle(b, s.phase.a, s.epoch, p.settle)), Entries(0, 0), p)
  {
  }

  lemma AccountKeepsUpToDate(s: System, p: Params)
    requires InStep(s) && s.phase.GotAccount?
    ensures UpToDate(Continue(s, OnPoolAccount(s.b, s.phase.a, s.phase.reply.value, s.epoch, p.settle)),
                     Entries(0, 0), p)
  {
    var view := s.phase.reply.value;
    var b := s.b.(v := s.b.v.(staked := view.unstaked + view.staked));
    if !(view.unstaked > 0 && view.canWithdraw) { SettleKeepsUpToDate(s, b, p); }
  }

  /** The receipts around the decision: pool calls succeed, callbacks book what they were sent for. */
  lemma OtherKeepsUpToDate(s: System, ev: Event, e: Entries, p: Params)
    requires Located(s) && Balanced(s.b) && UpToDate(s, e, p) && ev.Deliver? && OnTime(s, ev)
    requires !s.phase.Tail? && !s.phase.GotAccount? && !s.phase.AfterWithdraw?
    ensures UpToDate(Apply(s, ev, p), e, p)
  {
    hide SumMap;
    if s.phase.AwaitUnstake? { UnstakeFits(s); }
  }

  /** Entries, epochs and rewards. */
  lemma QuietKeepsUpToDate(s: System, ev: Event, e: Entries, p: Params)
    requires PhaseFits(s) && UpToDate(s, e, p) && OnTime(s, ev) && !ev.Deliver?
    ensures UpToDate(Apply(s, ev, p), if ev.NextEpoch? then Entries(0, 0) else e, p)
  {
  }

  lemma DeliverKeepsUpToDate(s: System, ev: Event, e: Entries, p: Params)
    requires Balanced(s.b) && Located(s) && UpToDate(s, e, p) && OnTime(s, ev) && ev.Deliver? && !s.phase.Tail?
    ensures UpToDate(Apply(s, ev, p), e, p)
  {
    hide Balanced, Located, OnlyFresh, Settle, OnPoolAccount;
    if s.phase.GotAccount? {
      AccountKeepsUpToDate(s, p);
    } else if s.phase.AfterWithdraw? {
      SettleKeepsUpToDate(s, s.b, p);
    } else {
      OtherKeepsUpToDate(s, ev, e, p);
    }
  }

  lemma NothingCommitted(s: System, ev: Event, e: Entries, p: Params)
    requires !ev.Deliver? || !s.phase.Tail?
    ensures Plus(e, Committed(s, ev, p)) == e
  {
    hide Apply, Owed;
  }

  lemma ApplyKeepsUpToDate(s: System, ev: Event, e: Entries, p: Params)
    requires Conserved(s) && UpToDate(s, e, p) && OnTime(s, ev)
    ensures UpToDate(Apply(s, ev, p), if ev.NextEpoch? then Entries(0, 0) else Plus(e, Committed(s, ev, p)), p)
  {
    hide UpToDate, Balanced, Committed, Apply, OnTime, Plus;
    if ev.Deliver? && s.phase.Tail? {
      TailKeepsUpToDate(s, ev, e, p);
    } else {
      NothingCommitted(s, ev, e, p);
      if ev.Deliver? { DeliverKeepsUpToDate(s, ev, e, p); } else { QuietKeepsUpToDate(s, ev, e, p); }
    }
  }

  lemma {:induction false} RunKeepsUpToDate(epoch: nat, evs: seq<Event>, p: Params)
    requires OnTimeRun(Init(epoch), evs, p)
    ensures UpToDate(Run(Init(epoch), evs, p), ThisEpoch(Init(epoch), evs, p), p)
  {
    hide SumMap, Owed, Committed, Apply, Conserved;
    if evs != [] {
      var before, ev := evs[..|evs| - 1], evs[|evs| - 1];
      RunKeepsUpToDate(epoch, before, p);
      RunConserves(epoch, before, p);
      ApplyKeepsUpToDate(Run(Init(epoch), before, p), ev, ThisEpoch(Init(epoch), before, p), p);
    }
  }

  /** On every on-time run, whatever the parameters: once the epoch is settled the pending buckets hold what was
      deposited and exited in this epoch. All that is older is at the pool or was netted; only while an earlier unstake
      is waiting may older exits remain, together with fewer older deposits. */
  lemma NothingIsLeftBehind(epoch: nat, evs: seq<Event>, p: Params)
    requires OnTimeRun(Init(epoch), evs, p)
    ensures var s := Run(Init(epoch), evs, p);
            s.b.v.lastSettle == s.epoch ==> OnlyFresh(s.b.v, ThisEpoch(Init(epoch), evs, p), s.epoch, p.settle)
  {
    hide SumMap, ThisEpoch, InStep, OnlyFresh;
    RunKeepsUpToDate(epoch, evs, p);
  }
}
