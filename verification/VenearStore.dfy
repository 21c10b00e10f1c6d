/** The veNEAR contract's stored state: accounts in tree order, their internal records and the global total;
    the invariant it keeps, and the loops that post contributions to delegates' pools. */
module VenearStore {
  import opened Options
  import opened VenearBalance
  import opened VenearLedger
  import opened VenearSupply

  datatype Internal = Internal(deposit: nat, nonce: nat)

  /** Account ids are compared character by character. */
  predicate Less(a: AccountId, b: AccountId) {
    b != [] && (a == [] || a[0] < b[0] || (a[0] == b[0] && Less(a[1..], b[1..])))
  }

  /** What `set_delegations` accepts. */
  predicate EntriesValid(es: seq<Entry>, owner: AccountId, maxDelegations: nat) {
    && |es| <= maxDelegations
    && (forall i :: 0 <= i < |es| ==> es[i].bps != 0 && es[i].id != owner)
    && (forall i :: 0 < i < |es| ==> Less(es[i - 1].id, es[i].id))
    && SumBps(es) <= MAX_BPS
  }

  lemma {:induction false} LessIsTransitive(a: AccountId, b: AccountId, c: AccountId)
    requires Less(a, b) && Less(b, c)
    ensures Less(a, c)
  {
    if a != [] && a[0] == b[0] == c[0] { LessIsTransitive(a[1..], b[1..], c[1..]); }
  }

  lemma {:induction false} LessIsIrreflexive(a: AccountId)
    ensures !Less(a, a)
  {
    if a != [] { LessIsIrreflexive(a[1..]); }
  }

  /** Checking neighbours is enough: an accepted list is sorted throughout and names nobody twice. */
  lemma {:induction false} AcceptedIsSorted(es: seq<Entry>, owner: AccountId, maxDelegations: nat, i: nat, j: nat)
    requires EntriesValid(es, owner, maxDelegations) && i < j < |es|
    ensures Less(es[i].id, es[j].id) && es[i].id != es[j].id
    decreases j
  {
    if i < j - 1 {
      AcceptedIsSorted(es, owner, maxDelegations, i, j - 1);
      LessIsTransitive(es[i].id, es[j - 1].id, es[j].id);
    }
    LessIsIrreflexive(es[i].id);
  }

  lemma {:induction false} SumBpsAppend(es: seq<Entry>, e: Entry)
    ensures SumBps(es + [e]) == SumBps(es) + e.bps
  {
    if es != [] {
      assert (es + [e])[1..] == es[1..] + [e];
      SumBpsAppend(es[1..], e);
    }
  }

  method ValidateDelegations(es: seq<Entry>, owner: AccountId, maxDelegations: nat) returns (valid: bool)
    ensures valid <==> EntriesValid(es, owner, maxDelegations)
  {
    if |es| > maxDelegations { return false; }
    var sum := 0;
    for i := 0 to |es|
      invariant sum == SumBps(es[..i])
      invariant forall j :: 0 <= j < i ==> es[j].bps != 0 && es[j].id != owner
      invariant forall j :: 0 < j < i ==> Less(es[j - 1].id, es[j].id)
    {
      if es[i].bps == 0 || es[i].id == owner { return false; }
      if i > 0 && !Less(es[i - 1].id, es[i].id) { return false; }
      assert es[..i + 1] == es[..i] + [es[i]];
      SumBpsAppend(es[..i], es[i]);
      sum := sum + es[i].bps;
    }
    assert es[..|es|] == es;
    valid := sum <= MAX_BPS;
  }

  /** `Account::update`, with the growth of both balances; `None` is a panic. */
  function UpdateAccount(a: Account, now: nat, rate: Rate): Option<Account> {
    var own := Calculate(rate, a.stamp * SECOND, now * SECOND, a.balance.near);
    var pooled := Calculate(rate, a.stamp * SECOND, now * SECOND, a.pool.near);
    if own.None? || pooled.None? then None
    else Some(a.(stamp := now, balance := Balance(a.balance.near, a.balance.extra + own.value),
                 pool := Balance(a.pool.near, a.pool.extra + pooled.value)))
  }

  lemma UpdateAccountIs(a: Account, now: nat, rate: Rate)
    requires Exact(rate) && a.stamp <= now
    ensures UpdateAccount(a, now, rate) == Some(Updated(a, now, PerUnit(rate)))
  {
    CalculateIsLinear(rate, a.stamp, now, a.balance.near);
    CalculateIsLinear(rate, a.stamp, now, a.pool.near);
  }

  /** `internal_expect_account_updated` on an account found in the tree: with an exact rate it cannot panic. */
  function Refreshed(a: Account, now: nat, rate: Rate): (r: Account)
    requires Exact(rate) && a.stamp <= now
    ensures r == Updated(a, now, PerUnit(rate))
  {
    UpdateAccountIs(a, now, rate);
    UpdateAccount(a, now, rate).value
  }

  /** The same accounts, seen at time `t` with the same balances and delegations; pools may differ. */
  predicate SameOwners(d0: seq<Account>, d: seq<Account>, t: nat, k: nat)
    requires Stamped(d0, t)
  {
    && |d| == |d0|
    && Stamped(d, t)
    && forall i :: 0 <= i < |d| ==>
         && d[i].id == d0[i].id && d[i].delegations == d0[i].delegations
         && d[i].balance.near == d0[i].balance.near
         && BalanceAt(d[i], t, k) == BalanceAt(d0[i], t, k)
  }

  predicate Indexed(d: seq<Account>, index: map<AccountId, nat>) {
    && (forall id :: id in index ==> index[id] < |d| && d[index[id]].id == id)
    && (forall i :: 0 <= i < |d| ==> d[i].id in index && index[d[i].id] == i)
  }

  /** Every delegation list is one the contract would accept, and every delegate is registered. */
  predicate ListsValid(d: seq<Account>, index: map<AccountId, nat>) {
    forall i :: 0 <= i < |d| ==>
      && BpsValid(d[i].delegations)
      && forall j :: 0 <= j < |d[i].delegations| ==>
           d[i].delegations[j].id in index && d[i].delegations[j].id != d[i].id
  }

  /** Index, internal records and delegation lists agree with the leaves. */
  predicate Shape(d: seq<Account>, index: map<AccountId, nat>, internals: map<AccountId, Internal>) {
    && Indexed(d, index)
    && internals.Keys == index.Keys
    && (forall i :: 0 <= i < |d| ==> internals[d[i].id].deposit <= d[i].balance.near)
    && ListsValid(d, index)
  }

  lemma ShapeAppend(d: seq<Account>, index: map<AccountId, nat>, internals: map<AccountId, Internal>, a: Account)
    requires Shape(d, index, internals) && a.id !in index && a.delegations == []
    ensures Shape(d + [a], index[a.id := |d|], internals[a.id := Internal(a.balance.near, 0)])
    ensures forall i, j :: 0 <= i < |d| && 0 <= j < |d[i].delegations| ==> d[i].delegations[j].id != a.id
  {
  }

  /** `GlobalState::update`; `None` is a panic. */
  function UpdateTotal(total: Balance, stamp: nat, now: nat, rate: Rate): Option<Balance> {
    match Calculate(rate, stamp * SECOND, now * SECOND, total.near)
    case Some(growth) => Some(Balance(total.near, total.extra + growth))
    case None => None
  }

  lemma UpdateTotalIs(total: Balance, stamp: nat, now: nat, rate: Rate)
    requires Exact(rate) && stamp <= now
    ensures UpdateTotal(total, stamp, now, rate) == Some(Grow(total, now - stamp, PerUnit(rate)))
  {
    CalculateIsLinear(rate, stamp, now, total.near);
  }

  /** The stored state as a value. */
  datatype Store = Store(
    data: seq<Account>,                    // the tree's leaves
    index: map<AccountId, nat>,
    internals: map<AccountId, Internal>,
    total: Balance,                        // total_venear_balance
    totalStamp: nat)

  /** Everything but the delegation ledger, as seen at time `t`. */
  predicate WellFormed(s: Store, t: nat, k: nat) {
    && Shape(s.data, s.index, s.internals)
    && Stamped(s.data, t) && s.totalStamp <= t
    && Grow(s.total, t - s.totalStamp, k) == SumPooled(s.data, t, k)
  }

  predicate Sound(s: Store, t: nat, k: nat) {
    WellFormed(s, t, k) && Ledger(s.data, t, k)
  }

  /** The invariant carries over to any later time without touching an account. */
  lemma TimePasses(s: Store, t: nat, t': nat, k: nat)
    requires WellFormed(s, t, k) && t <= t'
    ensures WellFormed(s, t', k)
    ensures Sound(s, t, k) ==> Sound(s, t', k)
  {
    hide Grow, SumPooled, Due, Shape;
    PooledGrows(s.data, t, t', k);
    GrowTwice(s.total, t - s.totalStamp, t' - t, k);
    if Sound(s, t, k) { LedgerOverTime(s.data, t, t', k); }
  }

  lemma ShapeIsRegistered(d: seq<Account>, index: map<AccountId, nat>)
    requires Indexed(d, index) && ListsValid(d, index)
    ensures AllBpsValid(d) && Distinct(Ids(d)) && Registered(d, Ids(d))
  {
    hide BpsValid;
    forall i, j | 0 <= i < |d| && 0 <= j < |d[i].delegations| ensures d[i].delegations[j].id in Ids(d) {
      var id := d[i].delegations[j].id;
      assert Ids(d)[index[id]] == id;
    }
  }

  /** The stored total, brought up to any later time, is the voting power of all accounts at that time. */
  lemma SupplyIsVotingPower(s: Store, t: nat, rate: Rate)
    requires Exact(rate) && Sound(s, t, PerUnit(rate))
    ensures AllBpsValid(s.data) && UpdateTotal(s.total, s.totalStamp, t, rate).Some?
    ensures SumPower(s.data, t, PerUnit(rate)) == UpdateTotal(s.total, s.totalStamp, t, rate).value.Total()
  {
    hide Grow, SumPooled, SumPower, Ledger, UpdateTotal, Exact, PerUnit;
    ShapeIsRegistered(s.data, s.index);
    UpdateTotalIs(s.total, s.totalStamp, t, rate);
    PowerIsConserved(s.data, t, PerUnit(rate));
  }

  // ---------------------------------------------------------------------------
  // Registration
  // ---------------------------------------------------------------------------

  function AfterRegister(s: Store, a: Account, k: nat): Store
    requires s.totalStamp <= a.stamp
  {
    Store(s.data + [a], s.index[a.id := |s.data|], s.internals[a.id := Internal(a.balance.near, 0)],
          Plus(Grow(s.total, a.stamp - s.totalStamp, k), Pooled(a.balance)), a.stamp)
  }

  lemma RegisteredIsSound(s: Store, a: Account, k: nat)
    requires Sound(s, a.stamp, k) && a.id !in s.index && a.delegations == [] && a.pool == Zero()
    ensures Sound(AfterRegister(s, a, k), a.stamp, k)
  {
    hide Grow, Pooled, SumPooled, Due, Shape;
    var s' := AfterRegister(s, a, k);
    ShapeAppend(s.data, s.index, s.internals, a);
    GrowNot(a.balance, k);
    GrowNot(a.pool, k);
    GrowNot(s'.total, k);
    PooledAppend(s.data, a, a.stamp, k);
    NotDelegatedTo(s.data, a.id, a.stamp, k);
    forall i | 0 <= i < |s'.data| ensures PoolAt(s'.data[i], a.stamp, k) == Due(s'.data, s'.data[i].id, a.stamp, k) {
      DueAppend(s.data, a, s'.data[i].id, a.stamp, k);
      OwesNothing(a, s'.data[i].id, a.stamp, k);
    }
  }

  lemma OwesNothing(a: Account, to: AccountId, t: nat, k: nat)
    requires a.stamp <= t && a.delegations == []
    ensures IsZero(OwnerDue(a, to, t, k))
  {
  }

  lemma {:induction false} NotDelegatedTo(d: seq<Account>, id: AccountId, t: nat, k: nat)
    requires Stamped(d, t)
    requires forall i, j :: 0 <= i < |d| && 0 <= j < |d[i].delegations| ==> d[i].delegations[j].id != id
    ensures IsZero(Due(d, id, t, k))
  {
    if d != [] {
      NotDelegatedTo(d[1..], id, t, k);
      NoCreditTo(Credits(BalanceAt(d[0], t, k), d[0].delegations), id);
    }
  }

  lemma {:induction false} NoCreditTo(cs: seq<Credit>, id: AccountId)
    requires forall i :: 0 <= i < |cs| ==> cs[i].entry.id != id
    ensures IsZero(CreditsTo(cs, id))
  {
    if cs != [] { NoCreditTo(cs[1..], id); }
  }

  // ---------------------------------------------------------------------------
  // Rewriting one owner: its old contributions are taken back, the new ones granted
  // ---------------------------------------------------------------------------

  /** `d` has the owners of `d0`, and account `o` has not been touched at all. */
  predicate Posted(d0: seq<Account>, d: seq<Account>, o: nat, t: nat, k: nat): (same: bool)
    requires Stamped(d0, t) && o < |d0|
    ensures same ==> |d| == |d0| && Stamped(d, t)
  {
    SameOwners(d0, d, t, k) && d[o] == d0[o]
  }

  lemma PostedAtFirst(d: seq<Account>, o: nat, t: nat, k: nat)
    requires Stamped(d, t) && o < |d|
    ensures Posted(d, d, o, t, k)
  {
  }

  lemma WithPoolKeepsOwners(d0: seq<Account>, d: seq<Account>, o: nat, j: nat, pool: Balance, t: nat, k: nat)
    requires Stamped(d0, t) && o < |d0| && j < |d0| && j != o && Posted(d0, d, o, t, k)
    ensures Posted(d0, WithPool(d, j, pool, t, k), o, t, k)
  {
    hide Grow;
    UpdatedLooksTheSame(d[j], t, k);
    UpdatedKeepsNear(d[j], t, k);
  }

  lemma UpdatedKeepsNear(a: Account, t: nat, k: nat)
    requires a.stamp <= t
    ensures Updated(a, t, k).balance.near == a.balance.near
  {
  }

  lemma IndexedIsDistinct(d: seq<Account>, index: map<AccountId, nat>)
    requires Indexed(d, index)
    ensures DistinctIds(d) && Distinct(Ids(d))
  {
  }

  lemma SameOwnersKeepIndexed(d0: seq<Account>, d: seq<Account>, index: map<AccountId, nat>, t: nat, k: nat)
    requires Stamped(d0, t) && SameOwners(d0, d, t, k) && Indexed(d0, index)
    ensures Indexed(d, index) && DistinctIds(d)
  {
    hide Grow;
    IndexedIsDistinct(d, index);
  }

  lemma Found(d0: seq<Account>, d: seq<Account>, index: map<AccountId, nat>, o: nat, id: AccountId, t: nat, k: nat)
    requires Stamped(d0, t) && o < |d0| && Indexed(d0, index) && Posted(d0, d, o, t, k)
    requires id in index && id != d0[o].id
    ensures DistinctIds(d) && index[id] < |d| && index[id] != o && d[index[id]].id == id && d[index[id]].stamp <= t
  {
    SameOwnersKeepIndexed(d0, d, index, t, k);
  }

  lemma TakeBackOne(d0: seq<Account>, d: seq<Account>, o: nat, j: nat, cs: seq<Credit>, t: nat, k: nat)
    requires Stamped(d0, t) && o < |d0| && Posted(d0, d, o, t, k) && DistinctIds(d)
    requires cs != [] && Owes(d, o, cs, t, k) && j < |d| && j != o && d[j].id == cs[0].entry.id
    ensures Fits(Value(cs[0]), PoolAt(d[j], t, k))
    ensures var d' := WithPool(d, j, Minus(PoolAt(d[j], t, k), Value(cs[0])), t, k);
            Posted(d0, d', o, t, k) && Owes(d', o, cs[1..], t, k)
  {
    hide Grow, Due, Contribution, Owes, CreditsTo;
    DebitStep(d, o, cs, j, t, k);
    WithPoolKeepsOwners(d0, d, o, j, Minus(PoolAt(d[j], t, k), Value(cs[0])), t, k);
  }

  lemma GrantOne(d0: seq<Account>, d: seq<Account>, o: nat, j: nat, cs: seq<Credit>, c: Credit, t: nat, k: nat)
    requires Stamped(d0, t) && o < |d0| && Posted(d0, d, o, t, k) && DistinctIds(d)
    requires Owes(d, o, cs, t, k) && j < |d| && j != o && d[j].id == c.entry.id
    ensures var d' := WithPool(d, j, Plus(PoolAt(d[j], t, k), Value(c)), t, k);
            Posted(d0, d', o, t, k) && Owes(d', o, cs + [c], t, k)
  {
    hide Grow, Due, Contribution, Owes, CreditsTo;
    CreditStep(d, o, cs, c, j, t, k);
    WithPoolKeepsOwners(d0, d, o, j, Plus(PoolAt(d[j], t, k), Value(c)), t, k);
  }

  lemma RebaseOne(d0: seq<Account>, d: seq<Account>, o: nat, j: nat, cs: seq<Credit>, i: nat, c: Credit, t: nat, k: nat)
    requires Stamped(d0, t) && o < |d0| && Posted(d0, d, o, t, k) && DistinctIds(d)
    requires i < |cs| && Owes(d, o, cs, t, k) && j < |d| && j != o && d[j].id == cs[i].entry.id == c.entry.id
    ensures Fits(Value(cs[i]), PoolAt(d[j], t, k))
    ensures var d' := WithPool(d, j, Plus(Minus(PoolAt(d[j], t, k), Value(cs[i])), Value(c)), t, k);
            Posted(d0, d', o, t, k) && Owes(d', o, cs[i := c], t, k)
  {
    hide Grow, Due, Contribution, Owes, CreditsTo;
    RebaseStep(d, o, cs, i, c, j, t, k);
    WithPoolKeepsOwners(d0, d, o, j, Plus(Minus(PoolAt(d[j], t, k), Value(cs[i])), Value(c)), t, k);
  }

  /** First loop of `set_delegations`: every old contribution is subtracted, and none underflows. */
  method TakeBackAll(d0: seq<Account>, index: map<AccountId, nat>, o: nat, now: nat, rate: Rate)
    returns (d: seq<Account>)
    requires Exact(rate) && Stamped(d0, now) && o < |d0| && Indexed(d0, index) && ListsValid(d0, index)
    requires Ledger(d0, now, PerUnit(rate))
    ensures Posted(d0, d, o, now, PerUnit(rate)) && Owes(d, o, [], now, PerUnit(rate))
  {
    hide Grow, Due, Contribution, Exact, PerUnit, CreditsTo, UpdateAccount, Owes, Ledger, Posted, Indexed, DistinctIds;
    ghost var k := PerUnit(rate);
    var owner, es := Refreshed(d0[o], now, rate), d0[o].delegations;
    d := d0;
    PostedAtFirst(d0, o, now, k);
    ghost var cs := Credits(owner.balance, es);
    LedgerIsOwes(d, o, now, k);
    assert cs[0..] == cs;
    for i := 0 to |es|
      invariant Posted(d0, d, o, now, k)
      invariant Owes(d, o, cs[i..], now, k)
    {
      Found(d0, d, index, o, es[i].id, now, k);
      var j := index[es[i].id];
      var delegate := Refreshed(d[j], now, rate);
      TakeBackOne(d0, d, o, j, cs[i..], now, k);
      var pool := Minus(delegate.pool, Contribution(owner.balance, es[i].bps));
      d := d[j := delegate.(pool := pool)];
      assert cs[i..][1..] == cs[i + 1..];
    }
  }

  /** Every delegate on the list is registered. */
  predicate AllKnown(es: seq<Entry>, index: map<AccountId, nat>) {
    forall i :: 0 <= i < |es| ==> es[i].id in index
  }

  /** The list does not name `id`. */
  predicate NotAmong(es: seq<Entry>, id: AccountId) {
    forall i :: 0 <= i < |es| ==> es[i].id != id
  }

  /** Second loop of `set_delegations`: `ok` is false when some delegate is not registered. */
  method GrantAll(d0: seq<Account>, index: map<AccountId, nat>, o: nat, es: seq<Entry>, now: nat, rate: Rate)
    returns (ok: bool, d: seq<Account>)
    requires Exact(rate) && Stamped(d0, now) && o < |d0| && Indexed(d0, index)
    requires NotAmong(es, d0[o].id)
    requires Owes(d0, o, [], now, PerUnit(rate))
    ensures ok == AllKnown(es, index)
    ensures ok ==>
      && Posted(d0, d, o, now, PerUnit(rate))
      && Owes(d, o, Credits(BalanceAt(d0[o], now, PerUnit(rate)), es), now, PerUnit(rate))
  {
    hide Grow, Due, Contribution, Exact, PerUnit, CreditsTo, UpdateAccount, Owes, Ledger, Posted, Indexed, DistinctIds;
    ghost var k := PerUnit(rate);
    var owner := Refreshed(d0[o], now, rate);
    d := d0;
    PostedAtFirst(d0, o, now, k);
    ghost var cs := Credits(owner.balance, es);
    assert cs[..0] == [];
    for i := 0 to |es|
      invariant forall j :: 0 <= j < i ==> es[j].id in index
      invariant Posted(d0, d, o, now, k)
      invariant Owes(d, o, cs[..i], now, k)
    {
      if es[i].id !in index { return false, d0; }
      Found(d0, d, index, o, es[i].id, now, k);
      var j := index[es[i].id];
      var delegate := Refreshed(d[j], now, rate);
      GrantOne(d0, d, o, j, cs[..i], cs[i], now, k);
      var pool := Plus(delegate.pool, Contribution(owner.balance, es[i].bps));
      d := d[j := delegate.(pool := pool)];
      assert cs[..i] + [cs[i]] == cs[..i + 1];
    }
    assert cs[..|es|] == cs;
    ok := true;
  }

  /** An owner's credits when the first `n` of them have been moved to the new balance. */
  function Mixed(b0: Balance, b1: Balance, es: seq<Entry>, n: nat): (cs: seq<Credit>)
    requires n <= |es|
    ensures |cs| == |es|
    ensures n < |es| ==> cs[n] == Credit(es[n], b0) && cs[n := Credit(es[n], b1)] == Mixed(b0, b1, es, n + 1)
    ensures n == 0 ==> cs == Credits(b0, es)
    ensures n == |es| ==> cs == Credits(b1, es)
    decreases |es| - n
  {
    if n < |es| then
      JoinMoves(Credits(b1, es), Credits(b0, es), n);
      Join(Credits(b1, es), Credits(b0, es), n)
    else Join(Credits(b1, es), Credits(b0, es), n)
  }

  /** The first `n` of one list and the others of another. */
  function Join(a: seq<Credit>, b: seq<Credit>, n: nat): (c: seq<Credit>)
    requires n <= |a| == |b|
    ensures |c| == |a| && (n == 0 ==> c == b) && (n == |a| ==> c == a)
  {
    a[..n] + b[n..]
  }

  lemma JoinMoves(a: seq<Credit>, b: seq<Credit>, n: nat)
    requires n < |a| == |b|
    ensures Join(a, b, n)[n] == b[n] && Join(a, b, n)[n := a[n]] == Join(a, b, n + 1)
  {
  }

  /** The loop of `internal_lockup_update`: every pool is moved from the old balance's share to the new one's. */
  method RebaseAll(d0: seq<Account>, index: map<AccountId, nat>, o: nat, balance: Balance, now: nat, rate: Rate)
    returns (d: seq<Account>)
    requires Exact(rate) && Stamped(d0, now) && o < |d0| && Indexed(d0, index) && ListsValid(d0, index)
    requires Ledger(d0, now, PerUnit(rate))
    ensures Posted(d0, d, o, now, PerUnit(rate))
    ensures Owes(d, o, Credits(balance, d0[o].delegations), now, PerUnit(rate))
  {
    hide Grow, Due, Contribution, Exact, PerUnit, CreditsTo, UpdateAccount, Owes, Ledger, Posted, Indexed, DistinctIds;
    ghost var k := PerUnit(rate);
    var owner, es := Refreshed(d0[o], now, rate), d0[o].delegations;
    d := d0;
    PostedAtFirst(d0, o, now, k);
    hide Mixed, Credits;
    ghost var b := owner.balance;
    LedgerIsOwes(d, o, now, k);
    for i := 0 to |es|
      invariant Posted(d0, d, o, now, k)
      invariant Owes(d, o, Mixed(b, balance, es, i), now, k)
    {
      Found(d0, d, index, o, es[i].id, now, k);
      var j := index[es[i].id];
      var delegate := Refreshed(d[j], now, rate);
      RebaseOne(d0, d, o, j, Mixed(b, balance, es, i), i, Credit(es[i], balance), now, k);
      var pool := Plus(Minus(delegate.pool, Contribution(owner.balance, es[i].bps)), Contribution(balance, es[i].bps));
      d := d[j := delegate.(pool := pool)];
    }
  }

  // ---------------------------------------------------------------------------
  // Writing the owner back
  // ---------------------------------------------------------------------------

  lemma {:induction false} SamePooled(d0: seq<Account>, d: seq<Account>, t: nat, k: nat)
    requires Stamped(d0, t) && SameOwners(d0, d, t, k)
    ensures SumPooled(d, t, k) == SumPooled(d0, t, k)
  {
    hide Pooled, Grow;
    if d != [] { SamePooled(d0[1..], d[1..], t, k); }
  }

  /** `a` can replace account `o`: same id and pool, an acceptable delegation list, its deposit still covered. */
  predicate Replaces(s: Store, o: nat, a: Account, t: nat, k: nat)
    requires Stamped(s.data, t) && o < |s.data|
  {
    && a.id == s.data[o].id && a.stamp == t && a.pool == PoolAt(s.data[o], t, k)
    && BpsValid(a.delegations)
    && (forall j :: 0 <= j < |a.delegations| ==> a.delegations[j].id in s.index && a.delegations[j].id != a.id)
    && a.id in s.internals && s.internals[a.id].deposit <= a.balance.near
  }

  lemma ShapeRewritten(s: Store, d: seq<Account>, o: nat, a: Account, nonce: nat, t: nat, k: nat)
    requires Shape(s.data, s.index, s.internals) && Stamped(s.data, t) && o < |s.data|
    requires Posted(s.data, d, o, t, k) && Replaces(s, o, a, t, k)
    ensures Shape(d[o := a], s.index, s.internals[a.id := s.internals[a.id].(nonce := nonce)])
  {
    hide Grow, BpsValid;
  }

  /** The ledger and the global total after account `o` is replaced by `a` and its credits were posted in `d`. */
  lemma RewrittenKeeps(s: Store, d: seq<Account>, o: nat, a: Account, t: nat, k: nat)
    requires WellFormed(s, t, k) && o < |s.data| && Posted(s.data, d, o, t, k) && Replaces(s, o, a, t, k)
    requires Owes(d, o, Credits(a.balance, a.delegations), t, k)
    ensures Stamped(d[o := a], t) && Ledger(d[o := a], t, k)
    ensures Plus(SumPooled(d[o := a], t, k), Pooled(BalanceAt(s.data[o], t, k)))
         == Plus(SumPooled(s.data, t, k), Pooled(a.balance))
  {
    hide Grow, Pooled, Due, CreditsTo, SumPooled, Owes, Shape, Ledger;
    GrowNot(a.balance, k);
    GrowNot(a.pool, k);
    CloseLedger(d, o, a, t, k);
    SamePooled(s.data, d, t, k);
    PooledReplace(d, o, a, t, k);
  }

  lemma SummandsFit(a: Balance, b: Balance)
    ensures Fits(a, Plus(a, b)) && Fits(b, Plus(a, b))
  {
  }

  /** The pooled balance of one account is part of the sum, so the global subtraction cannot underflow. */
  lemma {:induction false} PooledPartFits(d: seq<Account>, o: nat, t: nat, k: nat)
    requires Stamped(d, t) && o < |d|
    ensures Fits(Pooled(BalanceAt(d[o], t, k)), SumPooled(d, t, k))
  {
    hide Pooled, Grow;
    SummandsFit(Pooled(BalanceAt(d[0], t, k)), SumPooled(d[1..], t, k));
    if o > 0 {
      PooledPartFits(d[1..], o - 1, t, k);
      assert d[1..][o - 1] == d[o];
    }
  }

  /** After `set_delegations` the store is sound; the global total is not touched. */
  lemma DelegatedIsSound(s: Store, d: seq<Account>, o: nat, a: Account, t: nat, k: nat)
    requires WellFormed(s, t, k) && o < |s.data| && Posted(s.data, d, o, t, k) && Replaces(s, o, a, t, k)
    requires Owes(d, o, Credits(a.balance, a.delegations), t, k)
    requires a.balance == BalanceAt(s.data[o], t, k)
    ensures Sound(s.(data := d[o := a]), t, k)
  {
    hide Grow, Pooled, Due, CreditsTo, SumPooled, Owes, Shape, Ledger, Posted;
    RewrittenKeeps(s, d, o, a, t, k);
    ShapeRewritten(s, d, o, a, s.internals[a.id].nonce, t, k);
    assert s.internals[a.id := s.internals[a.id].(nonce := s.internals[a.id].nonce)] == s.internals;
    assert SumPooled(d[o := a], t, k) == SumPooled(s.data, t, k);
  }

  /** After `internal_lockup_update` the store is sound, with the global total moved by the account's change. */
  lemma LockedIsSound(s: Store, d: seq<Account>, o: nat, a: Account, nonce: nat, t: nat, k: nat)
    requires WellFormed(s, t, k) && o < |s.data| && Posted(s.data, d, o, t, k) && Replaces(s, o, a, t, k)
    requires Owes(d, o, Credits(a.balance, a.delegations), t, k)
    ensures Fits(Pooled(BalanceAt(s.data[o], t, k)), Grow(s.total, t - s.totalStamp, k))
    ensures var total := Plus(Minus(Grow(s.total, t - s.totalStamp, k), Pooled(BalanceAt(s.data[o], t, k))),
                              Pooled(a.balance));
            Sound(Store(d[o := a], s.index, s.internals[a.id := s.internals[a.id].(nonce := nonce)], total, t), t, k)
  {
    hide Grow, Pooled, Due, CreditsTo, SumPooled, Owes, Shape, Ledger, Posted;
    PooledPartFits(s.data, o, t, k);
    RewrittenKeeps(s, d, o, a, t, k);
    ShapeRewritten(s, d, o, a, nonce, t, k);
    GrowNot(Plus(Minus(Grow(s.total, t - s.totalStamp, k), Pooled(BalanceAt(s.data[o], t, k))), Pooled(a.balance)), k);
  }

  lemma {:induction false} OneBpsAtMost(es: seq<Entry>, i: nat)
    requires i < |es|
    ensures es[i].bps <= SumBps(es)
  {
    if i > 0 { OneBpsAtMost(es[1..], i - 1); }
  }

  lemma ValidEntriesHaveValidBps(es: seq<Entry>)
    requires SumBps(es) <= MAX_BPS
    ensures BpsValid(es)
  {
    forall i | 0 <= i < |es| ensures es[i].bps <= MAX_BPS { OneBpsAtMost(es, i); }
  }

  /** Only the delegation list of account `o` has changed, as seen at time `t`; pools are left to the ledger. */
  predicate Delegated(d0: seq<Account>, d: seq<Account>, o: nat, es: seq<Entry>, t: nat, k: nat)
  {
    && |d| == |d0|
    && Stamped(d, t) && Stamped(d0, t)
    && forall i :: 0 <= i < |d| ==>
         && d[i].id == d0[i].id && d[i].balance.near == d0[i].balance.near
         && BalanceAt(d[i], t, k) == BalanceAt(d0[i], t, k)
         && d[i].delegations == if i == o then es else d0[i].delegations
  }

  lemma PostedIsDelegated(d0: seq<Account>, d: seq<Account>, o: nat, es: seq<Entry>, t: nat, k: nat)
    requires Stamped(d0, t) && o < |d0| && Posted(d0, d, o, t, k)
    ensures Delegated(d0, d[o := Updated(d0[o], t, k).(delegations := es)], o, es, t, k)
  {
    hide Grow;
    UpdatedLooksTheSame(d0[o], t, k);
    UpdatedKeepsNear(d0[o], t, k);
  }

  lemma ShapeParts(s: Store)
    requires Shape(s.data, s.index, s.internals)
    ensures Indexed(s.data, s.index) && ListsValid(s.data, s.index) && s.internals.Keys == s.index.Keys
    ensures forall i :: 0 <= i < |s.data| ==> s.internals[s.data[i].id].deposit <= s.data[i].balance.near
  {
  }

  lemma PostedShape(d0: seq<Account>, d: seq<Account>, index: map<AccountId, nat>, o: nat, t: nat, k: nat)
    requires Stamped(d0, t) && o < |d0| && Posted(d0, d, o, t, k) && Indexed(d0, index)
    ensures Indexed(d, index) && d[o] == d0[o]
  {
    SameOwnersKeepIndexed(d0, d, index, t, k);
  }

  lemma PostedTwice(d0: seq<Account>, d1: seq<Account>, d2: seq<Account>, o: nat, t: nat, k: nat)
    requires Stamped(d0, t) && o < |d0| && Posted(d0, d1, o, t, k) && Posted(d1, d2, o, t, k)
    ensures Posted(d0, d2, o, t, k)
  {
    hide Grow;
  }

  lemma SoundLater(s: Store, t: nat, t': nat, k: nat)
    requires Sound(s, t, k) && t <= t'
    ensures Sound(s, t', k)
  {
    TimePasses(s, t, t', k);
  }

  /** When `set_delegations` goes through. */
  predicate Delegable(s: Store, caller: AccountId, entries: seq<Entry>, maxDelegations: nat): (ok: bool)
    ensures ok ==> caller in s.index
  {
    && EntriesValid(entries, caller, maxDelegations)
    && caller in s.index
    && AllKnown(entries, s.index)
  }

  /** The body of `set_delegations`, returning the accounts to store. */
  method Redelegate(s: Store, caller: AccountId, entries: seq<Entry>, maxDelegations: nat, now: nat, rate: Rate)
    returns (ok: bool, d: seq<Account>)
    requires Exact(rate) && Sound(s, now, PerUnit(rate))
    ensures ok == Delegable(s, caller, entries, maxDelegations)
    ensures ok ==> Sound(s.(data := d), now, PerUnit(rate))
    ensures ok ==> Delegated(s.data, d, s.index[caller], entries, now, PerUnit(rate))
  {
    hide Grow, SumPooled, Due, Exact, Owes, Ledger, Shape, Posted, PerUnit, Delegated, BpsValid;
    d := s.data;
    var valid := ValidateDelegations(entries, caller, maxDelegations);
    if !valid || caller !in s.index { return false, d; }
    ghost var k := PerUnit(rate);
    ShapeParts(s);
    var o := s.index[caller];
    var owner := Refreshed(s.data[o], now, rate);
    d := TakeBackAll(s.data, s.index, o, now, rate);
    ghost var d1 := d;
    PostedShape(s.data, d, s.index, o, now, k);
    ok, d := GrantAll(d, s.index, o, entries, now, rate);
    if ok {
      PostedTwice(s.data, d1, d, o, now, k);
      ValidEntriesHaveValidBps(entries);
      UpdatedKeepsNear(s.data[o], now, k);
      DelegatedIsSound(s, d, o, owner.(delegations := entries), now, k);
      PostedIsDelegated(s.data, d, o, entries, now, k);
      d := d[o := owner.(delegations := entries)];
    }
  }

  // ---------------------------------------------------------------------------
  // Lockup updates
  // ---------------------------------------------------------------------------

  /** The balance a lockup update leaves: less locked NEAR than before forfeits everything earned. */
  function LockedBalance(b: Balance, deposit: nat, locked: nat): Balance
    requires deposit <= b.near
  {
    Balance(locked + deposit, if locked < b.near - deposit then 0 else b.extra)
  }

  /** As seen at time `t`, only the balance of account `o` has changed; pools are left to the ledger. */
  predicate Relocked(d0: seq<Account>, d: seq<Account>, o: nat, b: Balance, t: nat, k: nat) {
    && |d| == |d0|
    && Stamped(d, t) && Stamped(d0, t)
    && forall i :: 0 <= i < |d| ==>
         && d[i].id == d0[i].id && d[i].delegations == d0[i].delegations
         && BalanceAt(d[i], t, k) == if i == o then b else BalanceAt(d0[i], t, k)
  }

  lemma PostedIsRelocked(d0: seq<Account>, d: seq<Account>, o: nat, b: Balance, t: nat, k: nat)
    requires Stamped(d0, t) && o < |d0| && Posted(d0, d, o, t, k)
    ensures Relocked(d0, d[o := Updated(d0[o], t, k).(balance := b)], o, b, t, k)
  {
    hide Grow;
    GrowNot(b, k);
  }

  /** When a lockup update is accepted: a registered account and a fresh nonce. */
  predicate Lockable(s: Store, id: AccountId, nonce: nat) {
    id in s.internals && nonce > s.internals[id].nonce
  }

  /** The balance of a registered account after a lockup update at time `t`. */
  function BalanceAfterLock(s: Store, id: AccountId, locked: nat, t: nat, k: nat): Balance
    requires Shape(s.data, s.index, s.internals) && Stamped(s.data, t) && id in s.index
  {
    UpdatedKeepsNear(s.data[s.index[id]], t, k);
    LockedBalance(BalanceAt(s.data[s.index[id]], t, k), s.internals[id].deposit, locked)
  }

  /** What an accepted lockup update changes; the total and the pools then follow from soundness. */
  predicate Locked(s: Store, s': Store, id: AccountId, locked: nat, nonce: nat, t: nat, k: nat) {
    && Shape(s.data, s.index, s.internals) && Stamped(s.data, t) && id in s.index
    && s'.index == s.index && s'.totalStamp == t
    && s'.internals == s.internals[id := s.internals[id].(nonce := nonce)]
    && Relocked(s.data, s'.data, s.index[id], BalanceAfterLock(s, id, locked, t, k), t, k)
  }

  /** The body of `internal_lockup_update`, returning the state to store. */
  method Relock(s: Store, id: AccountId, locked: nat, nonce: nat, now: nat, rate: Rate) returns (ok: bool, s': Store)
    requires Exact(rate) && Sound(s, now, PerUnit(rate))
    ensures ok == Lockable(s, id, nonce)
    ensures ok ==> Sound(s', now, PerUnit(rate)) && Locked(s, s', id, locked, nonce, now, PerUnit(rate))
  {
    hide Grow, SumPooled, Due, Exact, Owes, Ledger, Shape, Posted, PerUnit, Relocked, BpsValid, Pooled, UpdateTotal;
    s' := s;
    if id !in s.internals || nonce <= s.internals[id].nonce { return false, s; }
    ghost var k := PerUnit(rate);
    ShapeParts(s);
    var o := s.index[id];
    var owner := Refreshed(s.data[o], now, rate);
    UpdatedKeepsNear(s.data[o], now, k);
    UpdateTotalIs(s.total, s.totalStamp, now, rate);
    var grown := UpdateTotal(s.total, s.totalStamp, now, rate).value;
    var balance := LockedBalance(owner.balance, s.internals[id].deposit, locked);
    var d := RebaseAll(s.data, s.index, o, balance, now, rate);
    LockedIsSound(s, d, o, owner.(balance := balance), nonce, now, k);
    PostedIsRelocked(s.data, d, o, balance, now, k);
    var total := Plus(Minus(grown, Pooled(owner.balance)), Pooled(balance));
    s' := Store(d[o := owner.(balance := balance)], s.index, s.internals[id := s.internals[id].(nonce := nonce)],
                total, now);
    ok := true;
  }

  /** What a lockup update does to the balances: the account is worth what is locked and its deposit; if that is less
      than before all it has earned is forfeited, otherwise it keeps it. Nobody else's balance changes. */
  lemma LockupSets(s: Store, s': Store, id: AccountId, locked: nat, nonce: nat, t: nat, k: nat)
    requires Locked(s, s', id, locked, nonce, t, k)
    ensures Stamped(s.data, t) && Stamped(s'.data, t) && id in s.index && s.index[id] < |s.data| == |s'.data|
    ensures s'.internals[id] == Internal(s.internals[id].deposit, nonce)
    ensures var o := s.index[id];
            var before, after := BalanceAt(s.data[o], t, k), BalanceAt(s'.data[o], t, k);
            && after.near == locked + s.internals[id].deposit
            && (after.near < before.near ==> after.extra == 0)
            && (after.near >= before.near ==> after.extra == before.extra)
            && forall i :: 0 <= i < |s.data| && i != o ==> BalanceAt(s'.data[i], t, k) == BalanceAt(s.data[i], t, k)
  {
    hide Grow, ListsValid;
    UpdatedKeepsNear(s.data[s.index[id]], t, k);
  }

  /** After an accepted lockup update exactly the later nonces are accepted: no message is applied twice. */
  lemma ReplayIsRefused(s: Store, s': Store, id: AccountId, locked: nat, nonce: nat, t: nat, k: nat, n: nat)
    requires Locked(s, s', id, locked, nonce, t, k)
    ensures Lockable(s', id, n) <==> n > nonce
  {
    hide Relocked, BalanceAfterLock, Shape;
  }

  /** A list can always be emptied, and one delegate can be given any part up to the whole. */
  lemma SimpleDelegations(s: Store, caller: AccountId, to: AccountId, bps: nat, maxDelegations: nat)
    ensures Delegable(s, caller, [], maxDelegations) <==> caller in s.index
    ensures Delegable(s, caller, [Entry(to, bps)], maxDelegations) <==>
      caller in s.index && to in s.index && to != caller && 0 < bps <= MAX_BPS && maxDelegations >= 1
  {
    var es := [Entry(to, bps)];
    assert es[1..] == [] && SumBps(es) == bps;
    assert es[0].id == to && es[0].bps == bps;
  }
}
