/** The state migration recomputes every delegation pool from scratch. */
module VenearMigration {
  import opened VenearBalance
  import opened VenearLedger
  import opened VenearSupply
  import opened VenearStore

  type Pools = map<AccountId, Balance>

  function Get(pools: Pools, id: AccountId): Balance {
    if id in pools then pools[id] else Zero()
  }

  function Touch(pools: Pools, id: AccountId): Pools {
    if id in pools then pools else pools[id := Zero()]
  }

  /** The map holds exactly what the first `n` owners owe, plus the credits of the owner in hand. */
  ghost predicate Tallied(pools: Pools, d: seq<Account>, n: nat, cs: seq<Credit>, t: nat, k: nat)
    requires Stamped(d, t) && n <= |d|
  {
    forall to :: Get(pools, to) == Plus(Due(d[..n], to, t, k), CreditsTo(cs, to))
  }

  lemma TallyCredit(pools: Pools, d: seq<Account>, n: nat, cs: seq<Credit>, c: Credit, t: nat, k: nat)
    requires Stamped(d, t) && n <= |d| && Tallied(pools, d, n, cs, t, k)
    ensures Tallied(pools[c.entry.id := Plus(Get(pools, c.entry.id), Value(c))], d, n, cs + [c], t, k)
  {
    hide Contribution, Due, CreditsTo;
    var pools' := pools[c.entry.id := Plus(Get(pools, c.entry.id), Value(c))];
    forall to ensures Get(pools', to) == Plus(Due(d[..n], to, t, k), CreditsTo(cs + [c], to)) {
      CreditsAppend(cs, c, to);
      assert Get(pools, to) == Plus(Due(d[..n], to, t, k), CreditsTo(cs, to));
    }
  }

  lemma TallyOwner(pools: Pools, d: seq<Account>, n: nat, t: nat, k: nat)
    requires Stamped(d, t) && n < |d|
    requires Tallied(pools, d, n, Credits(BalanceAt(d[n], t, k), d[n].delegations), t, k)
    ensures Tallied(pools, d, n + 1, [], t, k)
  {
    hide Due, Contribution, Grow;
    assert d[..n + 1] == d[..n] + [d[n]];
    forall to ensures Get(pools, to) == Plus(Due(d[..n + 1], to, t, k), CreditsTo([], to)) {
      DueAppend(d[..n], d[n], to, t, k);
    }
  }

  /** First loop: the contributions of all owners, gathered per delegate. */
  method Recompute(d: seq<Account>, index: map<AccountId, nat>, now: nat, rate: Rate) returns (pools: Pools)
    requires Exact(rate) && Stamped(d, now) && Indexed(d, index) && ListsValid(d, index)
    ensures forall id :: id in pools ==> id in index
    ensures forall to :: Get(pools, to) == Due(d, to, now, PerUnit(rate))
    ensures forall i :: 0 <= i < |d| && d[i].pool != Zero() ==> d[i].id in pools
  {
    hide Grow, Due, Contribution, Exact, PerUnit, CreditsTo, UpdateAccount, Tallied, BpsValid, Get;
    ghost var k := PerUnit(rate);
    pools := map[];
    NothingTallied(d, now, k);
    for i := 0 to |d|
      invariant forall id :: id in pools ==> id in index
      invariant Tallied(pools, d, i, [], now, k)
      invariant forall j :: 0 <= j < i && d[j].pool != Zero() ==> d[j].id in pools
    {
      if d[i].pool != Zero() {
        TouchTallies(pools, d[i].id, d, i, now, k);
        pools := Touch(pools, d[i].id);
      }
      var owner := Refreshed(d[i], now, rate);
      ghost var cs := Credits(owner.balance, owner.delegations);
      assert cs[..0] == [];
      for j := 0 to |owner.delegations|
        invariant forall id :: id in pools ==> id in index
        invariant Tallied(pools, d, i, cs[..j], now, k)
        invariant forall j :: 0 <= j <= i && d[j].pool != Zero() ==> d[j].id in pools
      {
        var entry := owner.delegations[j];
        TallyCredit(pools, d, i, cs[..j], cs[j], now, k);
        pools := pools[entry.id := Plus(Get(pools, entry.id), Contribution(owner.balance, entry.bps))];
        assert cs[..j] + [cs[j]] == cs[..j + 1];
      }
      assert cs[..|owner.delegations|] == cs;
      TallyOwner(pools, d, i, now, k);
    }
    AllTallied(pools, d, now, k);
  }

  lemma NothingTallied(d: seq<Account>, t: nat, k: nat)
    requires Stamped(d, t)
    ensures Tallied(map[], d, 0, [], t, k)
  {
  }

  lemma TouchTallies(pools: Pools, id: AccountId, d: seq<Account>, n: nat, t: nat, k: nat)
    requires Stamped(d, t) && n <= |d| && Tallied(pools, d, n, [], t, k)
    ensures Tallied(Touch(pools, id), d, n, [], t, k)
  {
    hide Due;
    forall to ensures Get(Touch(pools, id), to) == Plus(Due(d[..n], to, t, k), CreditsTo([], to)) {
      assert Get(Touch(pools, id), to) == Get(pools, to);
    }
  }

  lemma AllTallied(pools: Pools, d: seq<Account>, t: nat, k: nat)
    requires Stamped(d, t) && Tallied(pools, d, |d|, [], t, k)
    ensures forall to :: Get(pools, to) == Due(d, to, t, k)
  {
    hide Due;
    assert d[..|d|] == d;
  }

  // ---------------------------------------------------------------------------
  // Writing the pools back
  // ---------------------------------------------------------------------------

  /** Account `j` has been brought to its recomputed pool, or has not been visited yet. */
  predicate Settled(d0: seq<Account>, d: seq<Account>, pools: Pools, left: set<AccountId>, j: nat, t: nat, k: nat)
    requires Stamped(d0, t) && Stamped(d, t) && j < |d0| == |d|
  {
    if d[j].id in left || d[j].id !in pools then d[j] == d0[j]
    else PoolAt(d[j], t, k) == pools[d[j].id]
  }

  /** No pool differs from its recomputed value. */
  predicate Agrees(d: seq<Account>, pools: Pools, t: nat, k: nat)
    requires Stamped(d, t)
  {
    forall j :: 0 <= j < |d| && d[j].id in pools ==> PoolAt(d[j], t, k) == pools[d[j].id]
  }

  lemma LedgerAgrees(d: seq<Account>, pools: Pools, t: nat, k: nat)
    requires Stamped(d, t) && Ledger(d, t, k)
    requires forall to :: Get(pools, to) == Due(d, to, t, k)
    ensures Agrees(d, pools, t, k)
  {
    hide Grow, Due;
    forall j | 0 <= j < |d| && d[j].id in pools ensures PoolAt(d[j], t, k) == pools[d[j].id] {
      assert Get(pools, d[j].id) == Due(d, d[j].id, t, k);
    }
  }

  lemma {:induction false} SameDue(d0: seq<Account>, d: seq<Account>, to: AccountId, t: nat, k: nat)
    requires Stamped(d0, t) && SameOwners(d0, d, t, k)
    ensures Due(d, to, t, k) == Due(d0, to, t, k)
  {
    hide Grow, Contribution;
    if d != [] { SameDue(d0[1..], d[1..], to, t, k); }
  }

  /** Second loop: pools that differ are overwritten; the keys may be visited in any order. */
  method WriteBack(d0: seq<Account>, index: map<AccountId, nat>, pools: Pools, now: nat, rate: Rate)
    returns (d: seq<Account>)
    requires Exact(rate) && Stamped(d0, now) && Indexed(d0, index)
    requires forall id :: id in pools ==> id in index
    ensures SameOwners(d0, d, now, PerUnit(rate))
    ensures forall j :: 0 <= j < |d| ==> Settled(d0, d, pools, {}, j, now, PerUnit(rate))
    ensures Agrees(d0, pools, now, PerUnit(rate)) ==> d == d0
  {
    hide Grow, Exact, PerUnit, UpdateAccount, Settled, Agrees;
    ghost var k := PerUnit(rate);
    d := d0;
    NoneSettled(d0, pools, now, k);
    var left := pools.Keys;
    while left != {}
      invariant left <= pools.Keys
      invariant SameOwners(d0, d, now, k)
      invariant forall j :: 0 <= j < |d| ==> Settled(d0, d, pools, left, j, now, k)
      invariant Agrees(d0, pools, now, k) ==> d == d0
    {
      var id :| id in left;
      SameOwnersKeepIndexed(d0, d, index, now, k);
      var j := index[id];
      var delegate := Refreshed(d[j], now, rate);
      VisitSettles(d0, d, pools, left, j, now, k);
      if delegate.pool != pools[id] {
        d := d[j := delegate.(pool := pools[id])];
      }
      left := left - {id};
    }
  }

  /** Visiting one key, whether or not its pool has to be written. */
  lemma VisitSettles(d0: seq<Account>, d: seq<Account>, pools: Pools, left: set<AccountId>, j: nat, t: nat, k: nat)
    requires Stamped(d0, t) && SameOwners(d0, d, t, k) && DistinctIds(d) && j < |d| && d[j].id in left
         && left <= pools.Keys
    requires forall i :: 0 <= i < |d| ==> Settled(d0, d, pools, left, i, t, k)
    ensures var id := d[j].id;
            var d' := if PoolAt(d[j], t, k) == pools[id] then d else WithPool(d, j, pools[id], t, k);
            && SameOwners(d0, d', t, k)
            && (forall i :: 0 <= i < |d'| ==> Settled(d0, d', pools, left - {id}, i, t, k))
            && (Agrees(d0, pools, t, k) && d == d0 ==> d' == d0)
  {
    hide Grow;
    PoolSet(d0, d, j, pools[d[j].id], t, k);
    var d' := if PoolAt(d[j], t, k) == pools[d[j].id] then d else WithPool(d, j, pools[d[j].id], t, k);
    forall i | 0 <= i < |d'| ensures Settled(d0, d', pools, left - {d[j].id}, i, t, k) {
      assert Settled(d0, d, pools, left, i, t, k);
    }
  }

  lemma NoneSettled(d: seq<Account>, pools: Pools, t: nat, k: nat)
    requires Stamped(d, t)
    ensures forall i :: 0 <= i < |d| ==> Settled(d, d, pools, pools.Keys, i, t, k)
  {
  }

  lemma PoolSet(d0: seq<Account>, d: seq<Account>, j: nat, pool: Balance, t: nat, k: nat)
    requires Stamped(d0, t) && SameOwners(d0, d, t, k) && j < |d|
    ensures SameOwners(d0, WithPool(d, j, pool, t, k), t, k)
    ensures PoolAt(WithPool(d, j, pool, t, k)[j], t, k) == pool
  {
    hide Grow;
    UpdatedLooksTheSame(d[j], t, k);
    UpdatedKeepsNear(d[j], t, k);
    GrowNot(pool, k);
  }

  lemma SameOwnersKeepShape(s: Store, d: seq<Account>, t: nat, k: nat)
    requires Shape(s.data, s.index, s.internals) && Stamped(s.data, t) && SameOwners(s.data, d, t, k)
    ensures Shape(d, s.index, s.internals)
  {
    hide Grow, BpsValid;
  }

  lemma SettledIsLedger(d0: seq<Account>, d: seq<Account>, pools: Pools, t: nat, k: nat)
    requires Stamped(d0, t) && SameOwners(d0, d, t, k)
    requires forall to :: Get(pools, to) == Due(d0, to, t, k)
    requires forall i :: 0 <= i < |d0| && d0[i].pool != Zero() ==> d0[i].id in pools
    requires forall j :: 0 <= j < |d| ==> Settled(d0, d, pools, {}, j, t, k)
    ensures Ledger(d, t, k)
  {
    hide Grow, Due;
    forall j | 0 <= j < |d| ensures PoolAt(d[j], t, k) == Due(d, d[j].id, t, k) {
      assert Settled(d0, d, pools, {}, j, t, k);
      assert Get(pools, d[j].id) == Due(d0, d[j].id, t, k);
      SameDue(d0, d, d[j].id, t, k);
      GrowZero(t - d[j].stamp, k);
    }
  }

  lemma MigratedIsSound(s: Store, d: seq<Account>, pools: Pools, t: nat, k: nat)
    requires WellFormed(s, t, k) && SameOwners(s.data, d, t, k)
    requires forall to :: Get(pools, to) == Due(s.data, to, t, k)
    requires forall i :: 0 <= i < |s.data| && s.data[i].pool != Zero() ==> s.data[i].id in pools
    requires forall j :: 0 <= j < |d| ==> Settled(s.data, d, pools, {}, j, t, k)
    ensures Sound(s.(data := d), t, k)
  {
    hide Grow, Due, SumPooled, Settled, Ledger, Shape, Get;
    SettledIsLedger(s.data, d, pools, t, k);
    SameOwnersKeepShape(s, d, t, k);
    SamePooled(s.data, d, t, k);
  }

  /** `migrate_state`: any well-formed store becomes sound, and a sound one is not changed at all. */
  method Migrate(s: Store, now: nat, rate: Rate) returns (s': Store)
    requires Exact(rate) && WellFormed(s, now, PerUnit(rate))
    ensures Sound(s', now, PerUnit(rate))
    ensures s' == s.(data := s'.data) && SameOwners(s.data, s'.data, now, PerUnit(rate))
    ensures Ledger(s.data, now, PerUnit(rate)) ==> s' == s
  {
    hide Grow, Due, SumPooled, Exact, PerUnit, Settled, Agrees, Ledger, Shape, Get, Sound;
    ghost var k := PerUnit(rate);
    ShapeParts(s);
    var pools := Recompute(s.data, s.index, now, rate);
    var d := WriteBack(s.data, s.index, pools, now, rate);
    MigratedIsSound(s, d, pools, now, k);
    if Ledger(s.data, now, k) { LedgerAgrees(s.data, pools, now, k); }
    s' := s.(data := d);
  }
}
