/** The exit promise: on a run where every epoch is settled in time, the claim bucket covers every tranche
    whose epoch has come. */
module StakingExit {
  import opened StakingBook
  import opened StakingPipeline
  import opened StakingConservation
  import opened MapSums

  /** Pool calls succeed, no pipeline straddles an epoch, and no epoch passes unsettled. */
  predicate OnTime(s: System, ev: Event) {
    match ev
    case Deliver(ok, _, _) =>
      s.phase.AwaitAccount? || s.phase.AwaitWithdraw? || s.phase.AwaitStake? || s.phase.AwaitUnstake? ==> ok
    case NextEpoch => s.phase.Ready? && s.b.v.lastSettle == s.epoch
    case _ => true
  }

  predicate OnTimeRun(s: System, evs: seq<Event>, p: Params) {
    evs == [] || (OnTimeRun(s, evs[..|evs| - 1], p) && OnTime(Run(s, evs[..|evs| - 1], p), evs[|evs| - 1]))
  }

  /** Sum of all tranches that may be withdrawn in the current epoch. */
  ghost function Eligible(s: System): nat { OwedBetween(s.b, 0, s.epoch + 1) }

  /** The promise: once the epoch is settled the bucket covers all of them. */
  ghost predicate PromiseKept(s: System) {
    s.b.v.lastSettle == s.epoch ==> Eligible(s) <= s.b.v.toClaim
  }

  // ---------------------------------------------------------------------------
  // Tranche sums under the user tails
  // ---------------------------------------------------------------------------

  lemma {:induction false} SumBetweenAppend(ts: seq<Tranche>, t: Tranche, lo: nat, hi: nat)
    ensures SumBetween(ts + [t], lo, hi) == SumBetween(ts, lo, hi) + (if lo <= t.available < hi then t.amount else 0)
  {
    if ts != [] {
      assert (ts + [t])[1..] == ts[1..] + [t];
      SumBetweenAppend(ts[1..], t, lo, hi);
    }
  }

  /** Claiming touches no tranche that is still waiting. */
  lemma {:induction false} ClaimKeepsLater(ts: seq<Tranche>, epoch: nat, lo: nat, hi: nat)
    requires epoch < lo
    ensures SumBetween(Unclaimable(ts, epoch), lo, hi) == SumBetween(ts, lo, hi)
  {
    if ts != [] {
      ClaimKeepsLater(ts[1..], epoch, lo, hi);
      if epoch < ts[0].available {
        assert Unclaimable(ts, epoch)[1..] == Unclaimable(ts[1..], epoch);
      }
    }
  }

  lemma {:induction false} ClaimableIsBetween(ts: seq<Tranche>, epoch: nat)
    ensures Claimable(ts, epoch) == SumBetween(ts, 0, epoch + 1)
  {
    if ts != [] { ClaimableIsBetween(ts[1..], epoch); }
  }

  lemma {:induction false} DisjointRanges(ts: seq<Tranche>, a: nat, b: nat, c: nat, x: nat)
    requires a <= b <= c <= x
    ensures SumBetween(ts, 0, a) + SumBetween(ts, b, c) + SumBetween(ts, x, x + 1) <= SumAll(ts)
  {
    if ts != [] { DisjointRanges(ts[1..], a, b, c, x); }
  }

  lemma OwedRanges(b: Book, lo: nat, mid: nat, hi: nat, x: nat)
    requires lo <= mid <= hi <= x
    ensures OwedBetween(b, 0, lo) + OwedBetween(b, mid, hi) + OwedBetween(b, x, x + 1) <= Owed(b)
  {
    forall ts ensures Between(0, lo)(ts) + Between(mid, hi)(ts) + Between(x, x + 1)(ts) <= All()(ts) {
      DisjointRanges(ts, lo, mid, hi, x);
    }
    SumMapThree(b.tranches, Between(0, lo), Between(mid, hi), Between(x, x + 1), All());
  }

  lemma ExitOwes(b: Book, account: AccountId, n: nat, epoch: nat, settle: nat, lo: nat, hi: nat)
    requires ExitShares(b, account, n, epoch, settle).Some?
    ensures var b' := ExitShares(b, account, n, epoch, settle).value;
            OwedBetween(b', lo, hi) == OwedBetween(b, lo, hi)
              + (if lo <= AvailableEpoch(b.v, epoch, settle) < hi then b'.v.toUnstake - b.v.toUnstake else 0)
  {
    var amount := NearFromShares(n, b.v.NetStake(), b.v.totalShares);
    var ts := TranchesOf(b, account);
    var t := Tranche(amount, AvailableEpoch(b.v, epoch, settle));
    SumBetweenAppend(ts, t, lo, hi);
    SumMapUpdate(b.tranches, Between(lo, hi), account, ts + [t]);
  }

  lemma ClaimOwes(b: Book, account: AccountId, epoch: nat, lo: nat, hi: nat)
    requires Claim(b, account, epoch).Some? && epoch < lo
    ensures OwedBetween(Claim(b, account, epoch).value.0, lo, hi) == OwedBetween(b, lo, hi)
  {
    var ts := TranchesOf(b, account);
    ClaimKeepsLater(ts, epoch, lo, hi);
    SumMapRemove(b.tranches, Between(lo, hi), account);
    SumMapUpdate(b.tranches, Between(lo, hi), account, Unclaimable(ts, epoch));
  }

  /** A committed tail adds to the range of new tranches what it adds to the unstake bucket, and takes
      nothing from a range still to come. */
  lemma TailOwes(b: Book, a: Action, release: nat, keep: bool, epoch: nat, settle: nat, lo: nat, hi: nat)
    requires RunTail(b, a, release, keep, epoch, settle).Some? && epoch < lo
    ensures var b' := RunTail(b, a, release, keep, epoch, settle).value.0;
            && b'.v.toUnstake >= b.v.toUnstake
            && OwedBetween(b', lo, hi) >= OwedBetween(b, lo, hi)
            && (lo <= AvailableEpoch(b.v, epoch, settle) < hi ==>
                  OwedBetween(b', lo, hi) == OwedBetween(b, lo, hi) + b'.v.toUnstake - b.v.toUnstake)
  {
    match a
    case Lock(buyer, _) => if release > 0 { ExitOwes(b, buyer, release, epoch, settle, lo, hi); }
    case Update(buyer, _) => if release > 0 { ExitOwes(b, buyer, release, epoch, settle, lo, hi); }
    case Exit(account, shares) => ExitOwes(b, account, shares, epoch, settle, lo, hi);
    case Withdraw(account) => ClaimOwes(b, account, epoch, lo, hi);
  }

  // ---------------------------------------------------------------------------
  // The invariant of on-time runs
  // ---------------------------------------------------------------------------

  /** The epoch of the next settlement: this one, or the next if this one is settled. */
  function NextSettlement(s: System): nat {
    if s.b.v.lastSettle == s.epoch then s.epoch + 1 else s.epoch
  }

  /** All queued exits become available in this one epoch. */
  function QueueDue(s: System, p: Params): nat {
    Max(NextSettlement(s), s.b.v.lastUnstake + p.settle) + p.settle
  }

  /** The pool is being asked, or NEAR withdrawn, before the settlement decision. */
  predicate BeforeDecision(phase: Phase) {
    phase.AwaitAccount? || phase.GotAccount? || phase.AwaitWithdraw? || phase.GotWithdraw?
  }

  /** The settlement of this epoch has passed the point where it would withdraw. */
  predicate PastWithdraw(phase: Phase) {
    phase.AfterWithdraw? || phase.AwaitStake? || phase.GotStake? || phase.AwaitUnstake? || phase.GotUnstake?
  }

  /** Where in the chain the epoch counts as settled, and what the last unstake implies for the pool. */
  predicate Timely(s: System, p: Params) {
    var v := s.b.v;
    && v.lastSettle <= s.epoch
    && (s.phase.Dispatch? || s.phase.Tail? || s.phase.Release? ==> v.lastSettle == s.epoch)
    && (PastWithdraw(s.phase) || BeforeDecision(s.phase) ==> v.lastSettle < s.epoch)
    && (s.phase.GotAccount? ==> s.phase.reply.Some? && s.phase.reply.value.canWithdraw == (s.pool.openAt <= s.epoch))
    && (s.phase.AwaitWithdraw? ==> s.pool.openAt <= s.epoch)
    && (s.phase.GotWithdraw? || s.phase.AfterWithdraw? || s.phase.GotStake? || s.phase.GotUnstake? ==> s.phase.ok)
    && (s.phase.GotUnstake? ==> s.pool.openAt == s.epoch + p.delay)
    && (s.phase.AwaitUnstake? || s.phase.GotUnstake? ==> v.lastUnstake == 0 || v.lastUnstake + p.settle <= s.epoch)
    && (v.toWithdraw > 0 ==>
          && 0 < v.lastUnstake
          && s.pool.openAt <= v.lastUnstake + p.settle
          && s.epoch <= v.lastUnstake + p.settle
          && (v.lastSettle == s.epoch || PastWithdraw(s.phase) ==> s.epoch < v.lastUnstake + p.settle))
  }

  /** The buckets outside the contract are owed only to tranches that are not yet available. */
  ghost predicate Backed(s: System, p: Params) {
    var v := s.b.v;
    && v.toUnstake <= OwedBetween(s.b, QueueDue(s, p), QueueDue(s, p) + 1)
    && v.toWithdraw <= OwedBetween(s.b, v.lastUnstake + p.settle, v.lastUnstake + 2 * p.settle)
  }

  ghost predicate Punctual(s: System, p: Params) {
    Conserved(s) && Timely(s, p) && Backed(s, p)
  }

  lemma TailKeepsBacked(s: System, b: Book, release: nat, keep: bool, p: Params)
    requires Balanced(s.b) && Timely(s, p) && Backed(s, p) && p.settle >= 1 && s.phase.Tail?
    requires RunTail(s.b, s.phase.a, release, keep, s.epoch, p.settle).Some?
    requires b == RunTail(s.b, s.phase.a, release, keep, s.epoch, p.settle).value.0
    ensures Backed(s.(b := b), p) && Timely(s.(b := b), p)
  {
    hide SumMap;
    var v, a := s.b.v, s.phase.a;
    TailConserves(s.b, a, release, keep, s.epoch, p.settle);
    TailOwes(s.b, a, release, keep, s.epoch, p.settle, QueueDue(s, p), QueueDue(s, p) + 1);
    if v.toWithdraw > 0 {
      TailOwes(s.b, a, release, keep, s.epoch, p.settle, v.lastUnstake + p.settle, v.lastUnstake + 2 * p.settle);
    }
  }

  lemma TailKeepsPunctual(s: System, ok: bool, release: nat, keep: bool, p: Params)
    requires Punctual(s, p) && p.settle >= 1 && s.phase.Tail?
    ensures Timely(DeliverNext(s, ok, release, keep, p), p) && Backed(DeliverNext(s, ok, release, keep, p), p)
  {
    hide SumMap;
    hide RunTail;
    var result := RunTail(s.b, s.phase.a, release, keep, s.epoch, p.settle);
    if ok && result.Some? { TailKeepsBacked(s, result.value.0, release, keep, p); }
  }

  /** Settlement either clears the queue or leaves it waiting for an epoch it was always due in. */
  lemma SettleKeepsPunctual(s: System, b: Book, p: Params)
    requires b.tranches == s.b.tranches && b.v.(staked := 0) == s.b.v.(staked := 0)
    requires Backed(s, p) && s.b.v.lastSettle < s.epoch && p.settle >= 1
    requires s.b.v.toWithdraw > 0 ==> s.epoch < s.b.v.lastUnstake + p.settle
    requires !s.phase.Ready?
    ensures Backed(Continue(s, Settle(b, s.phase.a, s.epoch, p.settle)), p)
  {
    var s' := Continue(s, Settle(b, s.phase.a, s.epoch, p.settle));
    assert s'.b.tranches == s.b.tranches;
  }

  /** A pool unstake hands the whole queue over to the withdraw bucket, due within the settlement delay. */
  lemma UnstakeKeepsPunctual(s: System, p: Params)
    requires Punctual(s, p) && s.phase.GotUnstake? && p.settle >= 1 && p.delay <= p.settle
    ensures var s' := Continue(s, OnUnstaked(s.b, s.phase.a, s.phase.ok, s.epoch)); Timely(s', p) && Backed(s', p)
  {
    var v := s.b.v;
    assert v.toWithdraw == 0;
    var x, lo, hi := QueueDue(s, p), s.epoch + p.settle, s.epoch + 2 * p.settle;
    assert lo <= x < hi;
    WiderOwes(s.b, x, x + 1, lo, hi);
  }

  lemma {:induction false} WiderSum(ts: seq<Tranche>, lo: nat, hi: nat, lo': nat, hi': nat)
    requires lo' <= lo && hi <= hi'
    ensures SumBetween(ts, lo, hi) <= SumBetween(ts, lo', hi')
  {
    if ts != [] { WiderSum(ts[1..], lo, hi, lo', hi'); }
  }

  function Nothing(): seq<Tranche> -> nat { ts => 0 }

  lemma WiderOwes(b: Book, lo: nat, hi: nat, lo': nat, hi': nat)
    requires lo' <= lo && hi <= hi'
    ensures OwedBetween(b, lo, hi) <= OwedBetween(b, lo', hi')
  {
    forall ts ensures Between(lo, hi)(ts) + Nothing()(ts) + Nothing()(ts) <= Between(lo', hi')(ts) {
      WiderSum(ts, lo, hi, lo', hi');
    }
    SumMapThree(b.tranches, Between(lo, hi), Nothing(), Nothing(), Between(lo', hi'));
  }

  lemma AccountKeepsPunctual(s: System, p: Params)
    requires Punctual(s, p) && s.phase.GotAccount? && p.settle >= 1
    ensures var s' := Continue(s, OnPoolAccount(s.b, s.phase.a, s.phase.reply.value, s.epoch, p.settle));
            Timely(s', p) && Backed(s', p)
  {
    hide SumMap;
    var view := s.phase.reply.value;
    var b := s.b.(v := s.b.v.(staked := view.unstaked + view.staked));
    if !(view.unstaked > 0 && view.canWithdraw) { SettleKeepsPunctual(s, b, p); }
  }

  /** Every other receipt leaves tranches, queue and stamps alone, or empties the withdraw bucket. */
  lemma OtherKeepsPunctual(s: System, ok: bool, release: nat, keep: bool, p: Params)
    requires Punctual(s, p) && p.settle >= 1 && OnTime(s, Deliver(ok, release, keep))
    requires !s.phase.GotAccount? && !s.phase.AfterWithdraw? && !s.phase.GotUnstake? && !s.phase.Tail?
    ensures Timely(DeliverNext(s, ok, release, keep, p), p) && Backed(DeliverNext(s, ok, release, keep, p), p)
  {
    hide SumMap;
    var s' := DeliverNext(s, ok, release, keep, p);
    assert s'.b.tranches == s.b.tranches;
    assert s'.b.v.lastUnstake == s.b.v.lastUnstake;
  }

  lemma DeliverKeepsPunctual(s: System, ok: bool, release: nat, keep: bool, p: Params)
    requires Punctual(s, p) && p.settle >= 1 && p.delay <= p.settle
    requires OnTime(s, Deliver(ok, release, keep))
    ensures Timely(DeliverNext(s, ok, release, keep, p), p) && Backed(DeliverNext(s, ok, release, keep, p), p)
  {
    hide SumMap;
    if s.phase.GotAccount? {
      AccountKeepsPunctual(s, p);
    } else if s.phase.AfterWithdraw? {
      AfterWithdrawKeepsPunctual(s, p);
    } else if s.phase.GotUnstake? {
      UnstakeKeepsPunctual(s, p);
    } else if s.phase.Tail? {
      TailKeepsPunctual(s, ok, release, keep, p);
    } else {
      OtherKeepsPunctual(s, ok, release, keep, p);
    }
  }

  lemma AfterWithdrawKeepsPunctual(s: System, p: Params)
    requires Punctual(s, p) && p.settle >= 1 && s.phase.AfterWithdraw?
    ensures var s' := Continue(s, OnAfterWithdraw(s.b, s.phase.a, s.phase.ok, s.epoch, p.settle));
            Timely(s', p) && Backed(s', p)
  {
    hide SumMap;
    SettleKeepsPunctual(s, s.b, p);
  }

  lemma ApplyKeepsPunctual(s: System, ev: Event, p: Params)
    requires Punctual(s, p) && p.settle >= 1 && p.delay <= p.settle && OnTime(s, ev)
    ensures Punctual(Apply(s, ev, p), p)
  {
    hide SumMap;
    ApplyConserves(s, ev, p);
    if ev.Deliver? { DeliverKeepsPunctual(s, ev.ok, ev.release, ev.keep, p); }
  }

  lemma InitTimely(s: System, epoch: nat, p: Params)
    requires s == Init(epoch)
    ensures Timely(s, p)
  {
  }

  lemma NothingBacked(s: System, p: Params)
    requires s.b.v.toUnstake == s.b.v.toWithdraw == 0
    ensures Backed(s, p)
  {
    hide SumMap;
  }

  lemma InitPunctual(s: System, epoch: nat, p: Params)
    requires s == Init(epoch) && Conserved(s)
    ensures Punctual(s, p)
  {
    hide SumMap;
    InitTimely(s, epoch, p);
    NothingBacked(s, p);
  }

  lemma {:induction false} RunKeepsPunctual(epoch: nat, evs: seq<Event>, p: Params)
    requires p.settle >= 1 && p.delay <= p.settle && OnTimeRun(Init(epoch), evs, p)
    ensures Punctual(Run(Init(epoch), evs, p), p)
  {
    hide SumMap;
    RunConserves(epoch, [], p);
    InitPunctual(Init(epoch), epoch, p);
    if evs != [] {
      RunKeepsPunctual(epoch, evs[..|evs| - 1], p);
      ApplyKeepsPunctual(Run(Init(epoch), evs[..|evs| - 1], p), evs[|evs| - 1], p);
    }
  }

  // ---------------------------------------------------------------------------
  // The promise
  // ---------------------------------------------------------------------------

  lemma PunctualKeepsPromise(s: System, p: Params)
    requires Punctual(s, p) && p.settle >= 1
    ensures PromiseKept(s)
  {
    var v := s.b.v;
    if v.lastSettle == s.epoch {
      if v.toWithdraw > 0 {
        OwedRanges(s.b, s.epoch + 1, v.lastUnstake + p.settle, v.lastUnstake + 2 * p.settle, QueueDue(s, p));
      } else {
        OwedRanges(s.b, s.epoch + 1, s.epoch + 1, s.epoch + 1, QueueDue(s, p));
      }
    }
  }

  /** Exit promise: on every on-time run the bucket covers all eligible tranches once the epoch is settled. */
  lemma ExitPromise(epoch: nat, evs: seq<Event>, p: Params)
    requires p.settle >= 1 && p.delay <= p.settle && OnTimeRun(Init(epoch), evs, p)
    ensures PromiseKept(Run(Init(epoch), evs, p))
  {
    RunKeepsPunctual(epoch, evs, p);
    PunctualKeepsPromise(Run(Init(epoch), evs, p), p);
  }

  /** A claim goes through exactly when something has come due and the bucket covers it; it then pays all of that and
      leaves the tranches that are still to come. */
  lemma ClaimIff(b: Book, account: AccountId, epoch: nat, hi: nat)
    ensures var due := SumBetween(TranchesOf(b, account), 0, epoch + 1);
            && (Claim(b, account, epoch).Some? <==> 0 < due <= b.v.toClaim)
            && (Claim(b, account, epoch).Some? ==>
                  var (b', paid) := Claim(b, account, epoch).value;
                  && paid == due
                  && SumBetween(TranchesOf(b', account), 0, epoch + 1) == 0
                  && SumBetween(TranchesOf(b', account), epoch + 1, hi)
                     == SumBetween(TranchesOf(b, account), epoch + 1, hi))
  {
    var ts := TranchesOf(b, account);
    ClaimableIsBetween(ts, epoch);
    ClaimKeepsLater(ts, epoch, epoch + 1, hi);
    NothingDueIsKept(ts, epoch);
  }

  lemma {:induction false} NothingDueIsKept(ts: seq<Tranche>, epoch: nat)
    ensures SumBetween(Unclaimable(ts, epoch), 0, epoch + 1) == 0
  {
    if ts != [] { NothingDueIsKept(ts[1..], epoch); }
  }

  lemma PromisePays(s: System, account: AccountId)
    requires s.b.v.lastSettle == s.epoch && PromiseKept(s) && Claimable(TranchesOf(s.b, account), s.epoch) > 0
    ensures Claim(s.b, account, s.epoch).Some?
  {
    hide SumMap;
    ClaimableIsBetween(TranchesOf(s.b, account), s.epoch);
    ValueAtMost(s.b.tranches, Between(0, s.epoch + 1), account);
  }

  /** So a user whose tranches have come due is paid in full: `withdraw` never finds the bucket short. */
  lemma WithdrawPays(epoch: nat, evs: seq<Event>, p: Params, account: AccountId)
    requires p.settle >= 1 && p.delay <= p.settle && OnTimeRun(Init(epoch), evs, p)
    ensures var s := Run(Init(epoch), evs, p); var due := Claimable(TranchesOf(s.b, account), s.epoch);
            s.phase == Tail(Withdraw(account)) && due > 0 ==>
              && Claim(s.b, account, s.epoch).Some?
              && Claim(s.b, account, s.epoch).value.1 == due
  {
    hide SumMap;
    ExitPromise(epoch, evs, p);
    RunKeepsPunctual(epoch, evs, p);
    var s := Run(Init(epoch), evs, p);
    if s.phase == Tail(Withdraw(account)) && Claimable(TranchesOf(s.b, account), s.epoch) > 0 {
      PromisePays(s, account);
    }
  }
}
