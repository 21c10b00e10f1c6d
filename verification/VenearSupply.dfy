/** Voting power is conserved: summed over all accounts it is the total supply, at every time. */
module VenearSupply {
  import opened VenearBalance
  import opened VenearLedger

  predicate BpsValid(es: seq<Entry>) {
    && (forall i :: 0 <= i < |es| ==> es[i].bps <= MAX_BPS)
    && SumBps(es) <= MAX_BPS
  }

  /** Voting power of an account whose balances are up to date: its pool plus what it keeps for itself. */
  function OwnedPower(a: Account): nat
    requires BpsValid(a.delegations)
  {
    GivenAwayFits(a.balance, a.delegations);
    a.pool.Total() + Minus(a.balance, GivenAway(a.balance, a.delegations)).Total()
  }

  lemma {:induction false} GivenAwayAppend(b: Balance, es: seq<Entry>, e: Entry)
    ensures GivenAway(b, es + [e]) == Plus(GivenAway(b, es), Contribution(b, e.bps))
  {
    if es != [] {
      assert (es + [e])[1..] == es[1..] + [e];
      GivenAwayAppend(b, es[1..], e);
    } else {
      assert (es + [e])[1..] == [];
    }
  }

  /** A prefix of the entries gives away no more than all of them. */
  lemma {:induction false} PrefixGivesLess(b: Balance, es: seq<Entry>, n: nat)
    requires n <= |es|
    ensures Fits(GivenAway(b, es[..n]), GivenAway(b, es))
  {
    if n > 0 {
      assert es[..n][1..] == es[1..][..n - 1];
      PrefixGivesLess(b, es[1..], n - 1);
    }
  }

  /** `owned_total`: the loop subtracts one contribution after another and never underflows. */
  method OwnedTotal(a: Account) returns (power: nat)
    requires BpsValid(a.delegations)
    ensures power == OwnedPower(a)
  {
    var retained := a.balance;
    GivenAwayFits(a.balance, a.delegations);
    for i := 0 to |a.delegations|
      invariant Plus(retained, GivenAway(a.balance, a.delegations[..i])) == a.balance
    {
      assert a.delegations[..i + 1] == a.delegations[..i] + [a.delegations[i]];
      GivenAwayAppend(a.balance, a.delegations[..i], a.delegations[i]);
      PrefixGivesLess(a.balance, a.delegations, i + 1);
      retained := Minus(retained, Contribution(a.balance, a.delegations[i].bps));
    }
    assert a.delegations[..|a.delegations|] == a.delegations;
    power := a.pool.Total() + retained.Total();
  }

  // ---------------------------------------------------------------------------
  // Sums over all accounts
  // ---------------------------------------------------------------------------

  predicate AllBpsValid(d: seq<Account>) {
    forall i :: 0 <= i < |d| ==> BpsValid(d[i].delegations)
  }

  /** Sum of voting power at time `t`. */
  function SumPower(d: seq<Account>, t: nat, k: nat): nat
    requires Stamped(d, t) && AllBpsValid(d)
  {
    if d == [] then 0 else OwnedPower(Updated(d[0], t, k)) + SumPower(d[1..], t, k)
  }

  /** What the global total must be at time `t`. */
  function SumPooled(d: seq<Account>, t: nat, k: nat): Balance
    requires Stamped(d, t)
  {
    if d == [] then Zero() else Plus(Pooled(BalanceAt(d[0], t, k)), SumPooled(d[1..], t, k))
  }

  function SumPools(d: seq<Account>, t: nat, k: nat): Balance
    requires Stamped(d, t)
  {
    if d == [] then Zero() else Plus(PoolAt(d[0], t, k), SumPools(d[1..], t, k))
  }

  function SumGiven(d: seq<Account>, t: nat, k: nat): Balance
    requires Stamped(d, t)
  {
    if d == [] then Zero() else Plus(GivenAway(BalanceAt(d[0], t, k), d[0].delegations), SumGiven(d[1..], t, k))
  }

  lemma {:induction false} PowerSplits(d: seq<Account>, t: nat, k: nat)
    requires Stamped(d, t) && AllBpsValid(d)
    ensures SumPower(d, t, k) + SumGiven(d, t, k).Total() == SumPools(d, t, k).Total() + SumPooled(d, t, k).Total()
  {
    hide Contribution, Grow;
    if d != [] {
      PowerSplits(d[1..], t, k);
      GivenAwayFits(BalanceAt(d[0], t, k), d[0].delegations);
    }
  }

  // ---------------------------------------------------------------------------
  // Every contribution lands in exactly one pool
  // ---------------------------------------------------------------------------

  predicate Distinct(ids: seq<AccountId>) {
    forall i, j :: 0 <= i < j < |ids| ==> ids[i] != ids[j]
  }

  function CreditsToAll(cs: seq<Credit>, ids: seq<AccountId>): Balance {
    if ids == [] then Zero() else Plus(CreditsTo(cs, ids[0]), CreditsToAll(cs, ids[1..]))
  }

  function DueToAll(d: seq<Account>, ids: seq<AccountId>, t: nat, k: nat): Balance
    requires Stamped(d, t)
  {
    if ids == [] then Zero() else Plus(Due(d, ids[0], t, k), DueToAll(d, ids[1..], t, k))
  }

  lemma {:induction false} FirstCreditLandsOnce(cs: seq<Credit>, ids: seq<AccountId>)
    requires cs != [] && Distinct(ids)
    ensures var others := CreditsToAll(cs[1..], ids);
            CreditsToAll(cs, ids) == if cs[0].entry.id in ids then Plus(Value(cs[0]), others) else others
  {
    if ids != [] { FirstCreditLandsOnce(cs, ids[1..]); }
  }

  lemma {:induction false} CreditsAllLand(b: Balance, es: seq<Entry>, ids: seq<AccountId>)
    requires Distinct(ids) && forall i :: 0 <= i < |es| ==> es[i].id in ids
    ensures CreditsToAll(Credits(b, es), ids) == GivenAway(b, es)
  {
    var cs := Credits(b, es);
    if es == [] {
      NoCredits(ids);
    } else {
      assert cs[1..] == Credits(b, es[1..]);
      FirstCreditLandsOnce(cs, ids);
      CreditsAllLand(b, es[1..], ids);
    }
  }

  lemma {:induction false} NoCredits(ids: seq<AccountId>)
    ensures IsZero(CreditsToAll([], ids))
  {
    if ids != [] { NoCredits(ids[1..]); }
  }

  lemma {:induction false} DueToAllSplits(d: seq<Account>, ids: seq<AccountId>, t: nat, k: nat)
    requires Stamped(d, t) && d != []
    ensures DueToAll(d, ids, t, k)
         == Plus(CreditsToAll(Credits(BalanceAt(d[0], t, k), d[0].delegations), ids), DueToAll(d[1..], ids, t, k))
  {
    if ids != [] { DueToAllSplits(d, ids[1..], t, k); }
  }

  /** Every delegate of every owner in `d` is in `ids`. */
  predicate Registered(d: seq<Account>, ids: seq<AccountId>) {
    forall i, j :: 0 <= i < |d| && 0 <= j < |d[i].delegations| ==> d[i].delegations[j].id in ids
  }

  lemma {:induction false} AllGivenIsDue(d: seq<Account>, ids: seq<AccountId>, t: nat, k: nat)
    requires Stamped(d, t) && Distinct(ids) && Registered(d, ids)
    ensures DueToAll(d, ids, t, k) == SumGiven(d, t, k)
  {
    if d == [] {
      NothingDue(ids, t, k);
    } else {
      DueToAllSplits(d, ids, t, k);
      CreditsAllLand(BalanceAt(d[0], t, k), d[0].delegations, ids);
      assert Registered(d[1..], ids) by {
        forall i, j | 0 <= i < |d[1..]| && 0 <= j < |d[1..][i].delegations| ensures d[1..][i].delegations[j].id in ids {
          assert d[1..][i] == d[i + 1];
        }
      }
      AllGivenIsDue(d[1..], ids, t, k);
    }
  }

  lemma {:induction false} NothingDue(ids: seq<AccountId>, t: nat, k: nat)
    ensures IsZero(DueToAll([], ids, t, k))
  {
    if ids != [] { NothingDue(ids[1..], t, k); }
  }

  function Ids(d: seq<Account>): (ids: seq<AccountId>)
    ensures |ids| == |d| && forall i :: 0 <= i < |d| ==> ids[i] == d[i].id
  {
    if d == [] then [] else [d[0].id] + Ids(d[1..])
  }

  /** Under the ledger the pools of the accounts in `tail` hold what is due to them. */
  lemma {:induction false} PoolsAreDue(d: seq<Account>, tail: seq<Account>, t: nat, k: nat)
    requires Stamped(d, t) && Stamped(tail, t)
    requires forall i :: 0 <= i < |tail| ==> PoolAt(tail[i], t, k) == Due(d, tail[i].id, t, k)
    ensures SumPools(tail, t, k) == DueToAll(d, Ids(tail), t, k)
  {
    if tail != [] {
      assert Ids(tail)[1..] == Ids(tail[1..]);
      PoolsAreDue(d, tail[1..], t, k);
    }
  }

  /** Voting-power conservation: at any common time the sum of `owned_total` is the pooled total. */
  lemma PowerIsConserved(d: seq<Account>, t: nat, k: nat)
    requires Stamped(d, t) && AllBpsValid(d) && Distinct(Ids(d)) && Registered(d, Ids(d)) && Ledger(d, t, k)
    ensures SumPower(d, t, k) == SumPooled(d, t, k).Total()
  {
    PowerSplits(d, t, k);
    PoolsAreDue(d, d, t, k);
    AllGivenIsDue(d, Ids(d), t, k);
  }

  // ---------------------------------------------------------------------------
  // The global total as accounts change
  // ---------------------------------------------------------------------------

  lemma {:induction false} PooledGrows(d: seq<Account>, t: nat, t': nat, k: nat)
    requires Stamped(d, t) && t <= t'
    ensures SumPooled(d, t', k) == Grow(SumPooled(d, t, k), t' - t, k)
    ensures SumPooled(d, t, k).near % MILLI == 0
  {
    hide Pooled, Grow;
    GrowZero(t' - t, k);
    if d != [] {
      PooledGrows(d[1..], t, t', k);
      GrowTwice(d[0].balance, t - d[0].stamp, t' - t, k);
      PooledCommutesWithGrowth(BalanceAt(d[0], t, k), t' - t, k);
      GrowAdds(Pooled(BalanceAt(d[0], t, k)), SumPooled(d[1..], t, k), t' - t, k);
    }
  }

  lemma {:induction false} PooledReplace(d: seq<Account>, i: nat, a: Account, t: nat, k: nat)
    requires Stamped(d, t) && i < |d| && a.stamp <= t
    ensures Plus(SumPooled(d[i := a], t, k), Pooled(BalanceAt(d[i], t, k)))
         == Plus(SumPooled(d, t, k), Pooled(BalanceAt(a, t, k)))
  {
    if i == 0 {
      assert d[i := a][1..] == d[1..];
    } else {
      assert d[i := a][1..] == d[1..][i - 1 := a];
      PooledReplace(d[1..], i - 1, a, t, k);
    }
  }

  lemma {:induction false} PooledAppend(d: seq<Account>, a: Account, t: nat, k: nat)
    requires Stamped(d, t) && a.stamp <= t
    ensures SumPooled(d + [a], t, k) == Plus(SumPooled(d, t, k), Pooled(BalanceAt(a, t, k)))
  {
    if d != [] {
      assert (d + [a])[1..] == d[1..] + [a];
      PooledAppend(d[1..], a, t, k);
    } else {
      assert (d + [a])[1..] == [];
    }
  }
}
