/** Subscriptions and their locks: updates that fall due are applied lazily, and the views show them beforehand. */
module Subscription {
  import opened Options
  import opened Calendar
  import opened Arith
  import opened StakingBook
  import StakingPrice

  type SubscriptionId = string
  type LockId = string
  type PriceId = string
  type ProductId = string
  type ValidatorId = string

  datatype SubscriptionStatus = Active | Cancelled | Expired

  /** A plan change and/or a stake decrease that takes effect at a billing boundary. */
  datatype PendingUpdate = PendingUpdate(targetPrice: Option<PriceId>, targetAmount: Option<nat>, applyNs: nat)

  datatype Subscription = Subscription(
    id: SubscriptionId, account: AccountId, product: ProductId, price: PriceId,
    start: nat, end: nat, anchor: nat, lastLock: LockId,
    status: SubscriptionStatus, cancelAtPeriodEnd: bool, pending: Option<PendingUpdate>)

  datatype LockStatus = Locked | UnlockRequested | Withdrawn

  datatype Order =
    | ProductPurchase(product: ProductId, price: PriceId)
    | SubscriptionPeriod(subscription: SubscriptionId, price: PriceId, start: nat, end: nat)

  datatype Lock = Lock(
    id: LockId, account: AccountId, validator: ValidatorId, shares: nat, amount: nat,
    start: nat, end: nat, status: LockStatus, order: Order)

  // ---------------------------------------------------------------------------
  // Views
  // ---------------------------------------------------------------------------

  predicate IsDue(s: Subscription, now: nat) {
    s.status == Active && !s.cancelAtPeriodEnd && s.pending.Some? && now >= s.pending.value.applyNs
  }

  /** The price catalogue gives each price its product. */
  predicate PriceKnown(s: Subscription, catalog: map<PriceId, ProductId>) {
    s.pending.Some? && s.pending.value.targetPrice.Some? ==> s.pending.value.targetPrice.value in catalog
  }

  function WithDueFields(s: Subscription, catalog: map<PriceId, ProductId>): Subscription
    requires s.pending.Some? && PriceKnown(s, catalog)
  {
    var target := s.pending.value.targetPrice;
    if target.Some? then s.(product := catalog[target.value], price := target.value, pending := None)
    else s.(pending := None)
  }

  /** `project_subscription_view_now`. */
  function Projected(s: Subscription, catalog: map<PriceId, ProductId>, now: nat): Subscription
    requires PriceKnown(s, catalog) && now < U64_MAX
  {
    if s.status != Active then s
    else if s.cancelAtPeriodEnd then (if now >= s.end then s.(status := Expired) else s)
    else
      var due := IsDue(s, now);
      var from := if due then s.pending.value.applyNs else s.start;
      var t := if due then WithDueFields(s, catalog) else s;
      var w := WindowFrom(s.anchor, from, now);
      t.(start := w.start, end := w.end)
  }

  /** Shares to release when a lock is to be worth no more than `target`, priced by the validator's row. */
  function SurplusShares(lock: Lock, target: nat, v: Validator): nat {
    var surplus := if lock.amount > target then lock.amount - target else 0;
    var value := NearFromShares(lock.shares, v.NetStake(), v.totalShares);
    if surplus == 0 || value == 0 then 0
    else
      var released := lock.shares * (if surplus < value then surplus else value) / value;
      if released < lock.shares then released else lock.shares
  }

  /** `project_scheduled_stake_decrease_lock`. */
  function DecreasedLock(lock: Lock, target: nat, v: Validator): Lock {
    var released := SurplusShares(lock, target, v);
    if released == 0 then lock else Released(lock, released, NearFromShares(released, v.NetStake(), v.totalShares))
  }

  function Released(lock: Lock, shares: nat, near: nat): Lock {
    lock.(shares := if lock.shares > shares then lock.shares - shares else 0,
          amount := if lock.amount > near then lock.amount - near else 0,
          status := if lock.shares <= shares then UnlockRequested else lock.status)
  }

  /** The lock follows the subscription's period and price. */
  function WithWindow(lock: Lock, id: SubscriptionId, price: PriceId, w: Window): Lock {
    lock.(start := w.start, end := w.end,
          order := if lock.order.SubscriptionPeriod? && lock.order.subscription == id
                   then SubscriptionPeriod(id, price, w.start, w.end) else lock.order)
  }

  /** The lock is the one a due update of `s` changes. */
  predicate IsOwnLock(lock: Lock, s: Subscription) {
    lock.order.SubscriptionPeriod? && s.lastLock == lock.id && s.account == lock.account && lock.status == Locked
  }

  /** `project_lock_view_now`, with the stored subscription of the lock's order. */
  function EffectiveLock(lock: Lock, s: Subscription, v: Validator, now: nat): Lock
    requires now < U64_MAX
  {
    if !IsOwnLock(lock, s) || !IsDue(s, now) then lock
    else
      var pending := s.pending.value;
      var decreased := if pending.targetAmount.Some? then DecreasedLock(lock, pending.targetAmount.value, v) else lock;
      if decreased.status != Locked then decreased
      else
        var price := if pending.targetPrice.Some? then pending.targetPrice.value else s.price;
        WithWindow(decreased, s.id, price, WindowFrom(s.anchor, pending.applyNs, now))
  }

  // ---------------------------------------------------------------------------
  // What the views show
  // ---------------------------------------------------------------------------

  /** An active subscription that goes on, and one of its updates that has been reached. */
  predicate GoesOn(s: Subscription) { s.status == Active && !s.cancelAtPeriodEnd }

  /** A subscription as it is shown: a plan change that has been reached brings its price together with that price's
      product, an update that has been reached is gone, and nothing else about the plan changes. */
  lemma ProjectedPlan(s: Subscription, catalog: map<PriceId, ProductId>, now: nat)
    requires PriceKnown(s, catalog) && now < U64_MAX
    ensures var q := Projected(s, catalog, now);
            var reached := GoesOn(s) && s.pending.Some? && s.pending.value.applyNs <= now;
            && (reached && s.pending.value.targetPrice.Some? ==>
                  q.price == s.pending.value.targetPrice.value && q.product == catalog[q.price])
            && (!reached || s.pending.value.targetPrice.None? ==> q.price == s.price && q.product == s.product)
            && q.pending == (if reached then None else s.pending)
            && (q.id, q.account, q.anchor, q.lastLock) == (s.id, s.account, s.anchor, s.lastLock)
            && q.cancelAtPeriodEnd == s.cancelAtPeriodEnd
  {
    hide WindowFrom;
  }

  /** A subscription cancelled at the end of its period expires exactly then; no other one changes its status. */
  lemma ExpiresAtPeriodEnd(s: Subscription, catalog: map<PriceId, ProductId>, now: nat)
    requires PriceKnown(s, catalog) && now < U64_MAX
    ensures var q := Projected(s, catalog, now);
            && (s.status == Active && s.cancelAtPeriodEnd ==>
                  q == s.(status := if now < s.end then Active else Expired))
            && (s.status != Active ==> q == s)
            && (GoesOn(s) ==> q.status == Active)
  {
    hide WindowFrom;
  }

  /** The period shown for a subscription that goes on is the month that contains `now`, a whole number of months after
      its start, or after the boundary of an update that has been reached. */
  lemma ProjectedPeriod(s: Subscription, catalog: map<PriceId, ProductId>, now: nat) returns (months: nat)
    requires PriceKnown(s, catalog) && now < U64_MAX && GoesOn(s) && s.start <= U64_MAX
    requires s.pending.Some? ==> s.pending.value.applyNs <= U64_MAX
    ensures var q := Projected(s, catalog, now);
            var from := if s.pending.Some? && s.pending.value.applyNs <= now then s.pending.value.applyNs else s.start;
            && q.start == AddMonths(s.anchor, months, from) && q.end == AddMonths(s.anchor, 1, q.start)
            && now < q.end && (q.start <= now || months == 0)
  {
    hide AddMonths, WindowFrom;
    var from := if s.pending.Some? && s.pending.value.applyNs <= now then s.pending.value.applyNs else s.start;
    months := WindowContainsNow(s.anchor, from, now);
  }

  /** A price stays with its product. */
  predicate OnCatalog(s: Subscription, catalog: map<PriceId, ProductId>) {
    s.price in catalog && s.product == catalog[s.price]
  }

  lemma ProjectedOnCatalog(s: Subscription, catalog: map<PriceId, ProductId>, now: nat)
    requires PriceKnown(s, catalog) && now < U64_MAX && OnCatalog(s, catalog)
    ensures OnCatalog(Projected(s, catalog, now), catalog)
  {
    hide WindowFrom, Projected;
    ProjectedPlan(s, catalog, now);
  }

  /** The lock that a reached update changes shows the subscription's period and price, or has been given up with all
      its shares; every other lock is shown as stored. */
  lemma LockFollowsSubscription(lock: Lock, s: Subscription, catalog: map<PriceId, ProductId>, v: Validator, now: nat)
    requires PriceKnown(s, catalog) && now < U64_MAX
    ensures var q, p := EffectiveLock(lock, s, v, now), Projected(s, catalog, now);
            var own := lock.status == Locked && lock.id == s.lastLock && lock.account == s.account
                    && lock.order.SubscriptionPeriod?;
            var reached := GoesOn(s) && s.pending.Some? && s.pending.value.applyNs <= now;
            && (!own || !reached ==> q == lock)
            && (own && reached && q.status == Locked ==>
                  && q.start == p.start && q.end == p.end
                  && (lock.order.subscription == s.id ==> q.order == SubscriptionPeriod(s.id, p.price, p.start, p.end))
                  && (s.pending.value.targetAmount.None? ==> q.shares == lock.shares && q.amount == lock.amount))
            && (q.status == Locked || q.status == lock.status || (q.status == UnlockRequested && q.shares == 0))
            && (q.id, q.account, q.validator) == (lock.id, lock.account, lock.validator)
  {
    hide WindowFrom, SurplusShares, NearFromShares;
  }

  // ---------------------------------------------------------------------------
  // Looking twice
  // ---------------------------------------------------------------------------

  /** Projecting to an earlier time first does not change what is seen later. */
  lemma ProjectTwice(s: Subscription, catalog: map<PriceId, ProductId>, t1: nat, t2: nat)
    requires PriceKnown(s, catalog) && t1 <= t2 < U64_MAX
    ensures PriceKnown(Projected(s, catalog, t1), catalog)
    ensures Projected(Projected(s, catalog, t1), catalog, t2) == Projected(s, catalog, t2)
  {
    hide WindowFrom;
    WindowTwice(s.anchor, s.start, t1, t2);
    if s.pending.Some? { WindowTwice(s.anchor, s.pending.value.applyNs, t1, t2); }
  }

  /** Whether a due update leaves the lock open, to follow the billing periods. */
  predicate StaysLocked(lock: Lock, s: Subscription, v: Validator) {
    lock.status == Locked &&
    (s.pending.Some? && s.pending.value.targetAmount.Some? ==>
       DecreasedLock(lock, s.pending.value.targetAmount.value, v).status == Locked)
  }

  /** A lock seen at `t1` and then at `t2` is the lock seen at `t2`, unless an update that was due by `t1` left it
      open and `t2` lies in a later billing period: once the update is cleared the lock keeps the period of `t1`.
      The row the second view is priced by matters only while the update is still pending. */
  lemma LockTwiceIff(lock: Lock, s: Subscription, catalog: map<PriceId, ProductId>, v: Validator, v': Validator,
                     t1: nat, t2: nat)
    requires PriceKnown(s, catalog) && t1 <= t2 < U64_MAX
    requires IsDue(s, t1) || v' == v
    ensures EffectiveLock(EffectiveLock(lock, s, v, t1), Projected(s, catalog, t1), v', t2)
         == EffectiveLock(lock, s, v, t2)
       <==> !(IsDue(s, t1) && IsOwnLock(lock, s) && StaysLocked(lock, s, v)
              && WindowFrom(s.anchor, s.pending.value.applyNs, t1).end <= t2)
  {
    hide WindowFrom, SurplusShares;
    if IsDue(s, t1) {
      SameWindowIff(s.anchor, s.pending.value.applyNs, t1, t2);
    }
  }

  /** Every plan change goes stale: applied at its own boundary and looked at again when that period ends, the lock
      still shows the period in which the change was applied, and the view without the commit shows the next one. */
  lemma LockViewGoesStale(lock: Lock, s: Subscription, catalog: map<PriceId, ProductId>, v: Validator, v': Validator)
    requires PriceKnown(s, catalog) && s.status == Active && !s.cancelAtPeriodEnd && IsOwnLock(lock, s)
    requires s.pending.Some? && s.pending.value.targetPrice.Some? && s.pending.value.targetAmount.None?
    requires s.pending.value.applyNs < U64_MAX
    requires WindowFrom(s.anchor, s.pending.value.applyNs, s.pending.value.applyNs).end < U64_MAX
    ensures var t1 := s.pending.value.applyNs;
            var w := WindowFrom(s.anchor, t1, t1);
            && t1 < w.end
            && EffectiveLock(EffectiveLock(lock, s, v, t1), Projected(s, catalog, t1), v', w.end).end == w.end
            && EffectiveLock(lock, s, v, w.end).end > w.end
  {
    hide WindowFrom, SurplusShares;
    var t1 := s.pending.value.applyNs;
    WindowEnds(s.anchor, t1, t1);
    WindowEnds(s.anchor, t1, WindowFrom(s.anchor, t1, t1).end);
  }

  // ---------------------------------------------------------------------------
  // A decrease stops at its target
  // ---------------------------------------------------------------------------

  lemma Rearrange(a: nat, b: nat, c: nat)
    ensures a * b * c == a * c * b && a * b * c == b * (a * c)
  {
  }

  /** What the released shares are worth is at most the surplus they were computed from. */
  lemma ReleasedIsWorth(shares: nat, surplus: nat, value: nat, net: nat, total: nat, released: nat, near: nat)
    requires total > 0 && value > 0 && surplus < value
    requires shares * net < (value + 1) * total
    requires released * value <= shares * surplus
    requires near * total <= released * net
    ensures near <= surplus
  {
    if near > surplus {
      MulMono(value, near * total, released * net);
      Rearrange(released, net, value);
      MulMono(net, released * value, shares * surplus);
      Rearrange(shares, net, surplus);
      Rearrange(net, shares, surplus);
      MulMono(surplus, shares * net, (value + 1) * total);
      assert value * (near * total) <= surplus * ((value + 1) * total);
      TooMuch(near, surplus, value, total);
      assert false;
    }
  }

  lemma TooMuch(near: nat, surplus: nat, value: nat, total: nat)
    requires total > 0 && surplus < value && near > surplus
    ensures value * (near * total) > surplus * ((value + 1) * total)
  {
    MulMono(value, surplus + 1, near);
    Expand(value, surplus);
    MulPositive(total, value * near - surplus * (value + 1));
    Factor(total, value, near, surplus);
  }

  lemma Expand(value: int, surplus: int)
    ensures value * (surplus + 1) == value * surplus + value && surplus * (value + 1) == value * surplus + surplus
  {
  }

  lemma Factor(total: int, value: int, near: int, surplus: int)
    ensures total * (value * near - surplus * (value + 1)) == value * (near * total) - surplus * ((value + 1) * total)
  {
    var a, b := value * near, surplus * (value + 1);
    assert total * (a - b) == total * a - total * b;
    assert total * a == value * (near * total);
    assert total * b == surplus * ((value + 1) * total);
  }

  /** A scheduled decrease never takes a lock below its target. */
  lemma DecreaseStopsAtTarget(lock: Lock, target: nat, v: Validator)
    requires target <= lock.amount
    ensures target <= DecreasedLock(lock, target, v).amount <= lock.amount
  {
    var released := SurplusShares(lock, target, v);
    var surplus := lock.amount - target;
    var net, total := v.NetStake(), v.totalShares;
    var value := NearFromShares(lock.shares, net, total);
    var near := NearFromShares(released, net, total);
    if released > 0 && surplus < value {
      Quot(value, lock.shares * net, total);
      Quot(lock.shares * surplus / value, lock.shares * surplus, value);
      Quot(near, released * net, total);
      MulMono(value, released, lock.shares * surplus / value);
      assert (value + 1) * total == value * total + total;
      hide NearFromShares, SurplusShares;
      ReleasedIsWorth(lock.shares, surplus, value, net, total, released, near);
    } else if released > 0 {
      WholeLock(lock.shares, value);
    }
  }

  lemma Below(k: nat, a: int, b: int)
    requires k > 0 && a < b
    ensures k * a < k * b
  {
    MulPositive(k, b - a);
  }

  /** What the released shares are worth, rounded twice, falls short of the surplus by less than a share and a yocto. */
  lemma ReleasedComesClose(shares: nat, surplus: nat, value: nat, net: nat, total: nat, released: nat, near: nat)
    requires total > 0 && value > 0 && net > 0
    requires value * total <= shares * net
    requires shares * surplus < (released + 1) * value
    requires released * net < (near + 1) * total
    ensures (surplus - near - 1) * total < net
  {
    assert (released + 1) * net == released * net + net;
    assert (surplus - near - 1) * total == surplus * total - (near + 1) * total;
    if surplus * total > (released + 1) * net {
      Below(value, (released + 1) * net, surplus * total);
      Below(net, shares * surplus, (released + 1) * value);
      MulMono(surplus, value * total, shares * net);
      Rearrange(shares, surplus, net);
      Regroup(net, released + 1, value);
      Regroup(surplus, value, total);
      assert false;
    }
  }

  lemma Regroup(a: int, b: int, c: int)
    ensures a * (b * c) == c * (b * a) && a * (b * c) == b * (a * c)
  {
  }

  /** The shares released for part of the lock, as a quotient. */
  lemma ReleasedIsQuotient(lock: Lock, target: nat, v: Validator)
    requires var value := NearFromShares(lock.shares, v.NetStake(), v.totalShares);
             0 < lock.amount - target < value
    ensures var value := NearFromShares(lock.shares, v.NetStake(), v.totalShares);
            var released, surplus := SurplusShares(lock, target, v), lock.amount - target;
            lock.shares * surplus < (released + 1) * value
  {
    var value := NearFromShares(lock.shares, v.NetStake(), v.totalShares);
    var surplus := lock.amount - target;
    hide NearFromShares;
    var q := lock.shares * surplus / value;
    Quot(q, lock.shares * surplus, value);
    assert (q + 1) * value == q * value + value;
    if q > lock.shares {
      MulMono(value, lock.shares + 1, q);
      MulMono(lock.shares, surplus, value);
      assert false;
    }
  }

  lemma ValuedRow(shares: nat, v: Validator)
    requires NearFromShares(shares, v.NetStake(), v.totalShares) > 0
    ensures v.totalShares > 0 && v.NetStake() > 0
  {
  }

  lemma WholeReleased(lock: Lock, target: nat, v: Validator)
    requires 0 < NearFromShares(lock.shares, v.NetStake(), v.totalShares) <= lock.amount - target
    ensures SurplusShares(lock, target, v) == lock.shares > 0
  {
    ValuedHasShares(lock, v);
    hide NearFromShares;
    WholeLock(lock.shares, NearFromShares(lock.shares, v.NetStake(), v.totalShares));
  }

  /** A scheduled decrease of a lock that is worth something comes within a share and a yocto of its target, and gives
      up the whole lock when the surplus is all it is worth. */
  lemma DecreaseComesClose(lock: Lock, target: nat, v: Validator)
    requires target < lock.amount && NearFromShares(lock.shares, v.NetStake(), v.totalShares) > 0
    ensures var value := NearFromShares(lock.shares, v.NetStake(), v.totalShares);
            var q := DecreasedLock(lock, target, v);
            && (value <= lock.amount - target ==> q.shares == 0 && q.status == UnlockRequested)
            && (value > lock.amount - target ==> (q.amount - target - 1) * v.totalShares < v.NetStake())
  {
    hide NearFromShares, SurplusShares;
    var net, total := v.NetStake(), v.totalShares;
    var value, surplus := NearFromShares(lock.shares, net, total), lock.amount - target;
    if value <= surplus {
      WholeReleased(lock, target, v);
    } else {
      var released := SurplusShares(lock, target, v);
      var near := NearFromShares(released, net, total);
      ValuedRow(lock.shares, v);
      NothingIsWorthless(v);
      StakingPrice.NearIsFloor(value, lock.shares, net, total);
      StakingPrice.NearIsFloor(near + 1, released, net, total);
      ReleasedIsQuotient(lock, target, v);
      DecreaseStopsAtTarget(lock, target, v);
      ReleasedComesClose(lock.shares, surplus, value, net, total, released, near);
      assert lock.amount >= near ==> DecreasedLock(lock, target, v).amount - target - 1 == surplus - near - 1;
    }
  }

  /** A decrease does nothing exactly when there is no surplus or it is worth less than one share. */
  lemma DecreaseIdleIff(lock: Lock, target: nat, v: Validator)
    ensures var value := NearFromShares(lock.shares, v.NetStake(), v.totalShares);
            DecreasedLock(lock, target, v) == lock <==>
              (lock.amount <= target || value == 0
               || (lock.amount - target < value && lock.shares * (lock.amount - target) < value))
  {
    var value := NearFromShares(lock.shares, v.NetStake(), v.totalShares);
    if lock.amount > target && value > 0 {
      var surplus := lock.amount - target;
      hide NearFromShares;
      if surplus < value {
        Quotient(1, lock.shares * surplus, value);
      } else {
        WholeLock(lock.shares, value);
        ValuedHasShares(lock, v);
      }
    }
  }

  /** Projecting a decrease twice is projecting it once exactly when the first pass leaves no surplus, or one worth less
      than a share. The shares it releases and what they are worth are read off the lock and the row. */
  lemma DecreaseTwiceIff(lock: Lock, target: nat, v: Validator)
    ensures var released := SurplusShares(lock, target, v);
            var shares := lock.shares - released;
            var near := NearFromShares(released, v.NetStake(), v.totalShares);
            var surplus := lock.amount - near - target;
            var value := NearFromShares(shares, v.NetStake(), v.totalShares);
            DecreasedLock(DecreasedLock(lock, target, v), target, v) == DecreasedLock(lock, target, v) <==>
              (surplus <= 0 || value == 0 || (surplus < value && shares * surplus < value))
  {
    hide NearFromShares, SurplusShares;
    ReleasesAtMost(lock, target, v);
    DecreaseIdleIff(DecreasedLock(lock, target, v), target, v);
    if SurplusShares(lock, target, v) == 0 { NothingIsWorthless(v); }
  }

  lemma ReleasesAtMost(lock: Lock, target: nat, v: Validator)
    ensures SurplusShares(lock, target, v) <= lock.shares
  {
  }

  lemma NothingIsWorthless(v: Validator)
    ensures NearFromShares(0, v.NetStake(), v.totalShares) == 0
  {
  }

  lemma ValuedHasShares(lock: Lock, v: Validator)
    requires NearFromShares(lock.shares, v.NetStake(), v.totalShares) > 0
    ensures lock.shares > 0
  {
  }

  /** Projecting a decrease twice can release more than projecting it once: nine shares worth 17 with target 14. */
  lemma DecreaseTwiceReleasesMore(lock: Lock, v: Validator)
    requires v.staked == 19 && v.toStake == v.toUnstake == v.toWithdraw == 0 && v.totalShares == 10
    requires lock.shares == 9 && lock.amount == 17
    ensures var once := DecreasedLock(lock, 14, v);
            once.shares == 8 && once.amount == 16 && DecreasedLock(once, 14, v).shares == 7
  {
  }

  lemma WholeLock(shares: nat, value: nat)
    requires value > 0
    ensures shares * value / value == shares
  {
    Quotient(shares, shares * value, value);
    Quot(shares * value / value, shares * value, value);
    Cancel(value, shares * value / value, shares);
  }

  // ---------------------------------------------------------------------------
  // Committing
  // ---------------------------------------------------------------------------

  datatype Outcome = NotDue | Applied | Panicked

  class Billing {
    var subscriptions: map<SubscriptionId, Subscription>
    var locks: map<LockId, Lock>
    var books: map<ValidatorId, Book>
    const catalog: map<PriceId, ProductId>

    /** The records a call on `id` relies on: its price is known, its last lock is its own, the validator exists. */
    ghost predicate Linked(id: SubscriptionId)
      reads this
    {
      id in subscriptions ==>
        && subscriptions[id].id == id && PriceKnown(subscriptions[id], catalog)
        && (subscriptions[id].lastLock in locks ==>
              var lock := locks[subscriptions[id].lastLock];
              && lock.id == subscriptions[id].lastLock && lock.validator in books
              && lock.order.SubscriptionPeriod? && lock.order.subscription == id)
    }

    /** A due decrease waits for the validator's settlement in this epoch and needs an exit that goes through. */
    ghost predicate Refuses(id: SubscriptionId, epoch: nat, settle: nat)
      requires Linked(id) && id in subscriptions && subscriptions[id].pending.Some?
      reads this
    {
      var s := subscriptions[id];
      && s.lastLock in locks
      && var lock := locks[s.lastLock];
         (s.pending.value.targetAmount.Some? && books[lock.validator].v.lastSettle < epoch)
         || BooksAfter(books, lock, s, epoch, settle).None?
    }

    /** `apply_due_subscription_update`: stores exactly what the views showed for `now`. */
    method ApplyDue(id: SubscriptionId, now: nat, epoch: nat, settle: nat) returns (outcome: Outcome)
      requires Linked(id) && now < U64_MAX
      modifies this
      ensures outcome == NotDue <==> id !in old(subscriptions) || !IsDue(old(subscriptions)[id], now)
      ensures outcome == Panicked <==>
        id in old(subscriptions) && IsDue(old(subscriptions)[id], now) && old(Refuses(id, epoch, settle))
      ensures outcome != Applied ==> unchanged(this)
      ensures outcome == Applied ==>
        subscriptions == old(subscriptions)[id := Projected(old(subscriptions)[id], catalog, now)]
      ensures outcome == Applied && OnCatalog(old(subscriptions)[id], catalog) ==> OnCatalog(subscriptions[id], catalog)
      ensures outcome == Applied ==>
        var s := old(subscriptions)[id];
        if s.lastLock !in old(locks) then locks == old(locks) && books == old(books)
        else
          var lock := old(locks)[s.lastLock];
          var book := old(books)[lock.validator];
          && locks == old(locks)[s.lastLock := EffectiveLock(lock, s, book.v, now)]
          && Some(books) == BooksAfter(old(books), lock, s, epoch, settle)
    {
      hide SurplusShares, ExitShares, NearFromShares, WindowFrom, Released;
      if id !in subscriptions || !IsDue(subscriptions[id], now) { return NotDue; }
      var s := subscriptions[id];
      var w := ProjectWindow(s.anchor, s.pending.value.applyNs, now);
      var updated := WithDueFields(s, catalog).(start := w.start, end := w.end);
      if s.lastLock in locks {
        var lock := locks[s.lastLock];
        if s.pending.value.targetAmount.Some? && books[lock.validator].v.lastSettle < epoch { return Panicked; }
        var renewed, lock', books' := Renew(s, updated.price, lock, books, w, now, epoch, settle);
        if !renewed { return Panicked; }
        locks, books := locks[s.lastLock := lock'], books';
      }
      if OnCatalog(s, catalog) { ProjectedOnCatalog(s, catalog, now); }
      subscriptions := subscriptions[id := updated];
      outcome := Applied;
    }
  }

  /** The validator rows after a due decrease released the lock's surplus; `None` is a panic of the exit. */
  function BooksAfter(books: map<ValidatorId, Book>, lock: Lock, s: Subscription, epoch: nat, settle: nat)
    : Option<map<ValidatorId, Book>>
    requires lock.validator in books && s.pending.Some?
  {
    if s.pending.value.targetAmount.None? || lock.account != s.account || lock.status != Locked then Some(books)
    else
      var book := books[lock.validator];
      var released := SurplusShares(lock, s.pending.value.targetAmount.value, book.v);
      if released == 0 then Some(books)
      else
        match ExitShares(book, s.account, released, epoch, settle)
        case None => None
        case Some(book') => Some(books[lock.validator := book'])
  }

  /** What a reached decrease takes out of the lock it takes out of the account's shares in that validator's row, and
      out of no other row. */
  lemma RowFollowsLock(books: map<ValidatorId, Book>, lock: Lock, s: Subscription, now: nat, epoch: nat, settle: nat,
                       other: ValidatorId)
    requires now < U64_MAX && IsDue(s, now) && IsOwnLock(lock, s) && lock.validator in books
    requires BooksAfter(books, lock, s, epoch, settle).Some?
    ensures var books' := BooksAfter(books, lock, s, epoch, settle).value;
            var after := EffectiveLock(lock, s, books[lock.validator].v, now);
            && books'.Keys == books.Keys
            && SharesOf(books'[lock.validator], s.account) + lock.shares
               == SharesOf(books[lock.validator], s.account) + after.shares
            && (other in books && other != lock.validator ==> books'[other] == books[other])
  {
    hide SurplusShares, NearFromShares, WindowFrom;
    if s.pending.value.targetAmount.Some? {
      ReleasesAtMost(lock, s.pending.value.targetAmount.value, books[lock.validator].v);
    }
  }

  /** `apply_scheduled_stake_decrease_at_renewal`, then the lock's window; `false` is a panic of the exit. */
  method Renew(s: Subscription, price: PriceId, lock: Lock, books: map<ValidatorId, Book>, w: Window, now: nat,
               epoch: nat, settle: nat)
    returns (ok: bool, lock': Lock, books': map<ValidatorId, Book>)
    requires now < U64_MAX && IsDue(s, now) && w == WindowFrom(s.anchor, s.pending.value.applyNs, now)
    requires price == if s.pending.value.targetPrice.Some? then s.pending.value.targetPrice.value else s.price
    requires lock.validator in books && lock.id == s.lastLock
    requires lock.order.SubscriptionPeriod? && lock.order.subscription == s.id
    ensures ok <==> BooksAfter(books, lock, s, epoch, settle).Some?
    ensures ok ==> lock' == EffectiveLock(lock, s, books[lock.validator].v, now)
    ensures ok ==> Some(books') == BooksAfter(books, lock, s, epoch, settle)
  {
    hide SurplusShares, ExitShares, NearFromShares, WindowFrom;
    ok, lock', books' := true, lock, books;
    if lock.account != s.account || lock.status != Locked { return; }
    if s.pending.value.targetAmount.Some? {
      var v := books[lock.validator].v;
      var released := SurplusShares(lock, s.pending.value.targetAmount.value, v);
      if released > 0 {
        var exited := ExitShares(books[lock.validator], s.account, released, epoch, settle);
        if exited.None? { return false, lock, books; }
        var near := NearFromShares(released, v.NetStake(), v.totalShares);
        lock', books' := Released(lock, released, near), books[lock.validator := exited.value];
      }
    }
    if lock'.status == Locked { lock' := WithWindow(lock', s.id, price, w); }
  }
}
