/** The delegation ledger: what every delegate's pool must hold, summed over owners that were last touched
    at different times, and why the sum of voting power is the total supply. */
module VenearLedger {
  import opened Arith
  import opened VenearBalance

  type AccountId = string

  datatype Entry = Entry(id: AccountId, bps: nat)

  /** An account in the tree. `stamp` is `update_timestamp` in whole seconds. */
  datatype Account = Account(id: AccountId, stamp: nat, balance: Balance, pool: Balance, delegations: seq<Entry>)

  predicate Stamped(d: seq<Account>, t: nat) {
    forall i :: 0 <= i < |d| ==> d[i].stamp <= t
  }

  function BalanceAt(a: Account, t: nat, k: nat): Balance
    requires a.stamp <= t
  {
    Grow(a.balance, t - a.stamp, k)
  }

  function PoolAt(a: Account, t: nat, k: nat): Balance
    requires a.stamp <= t
  {
    Grow(a.pool, t - a.stamp, k)
  }

  /** The account brought up to time `t`. */
  function Updated(a: Account, t: nat, k: nat): Account
    requires a.stamp <= t
  {
    a.(stamp := t, balance := BalanceAt(a, t, k), pool := PoolAt(a, t, k))
  }

  lemma GrowNot(b: Balance, k: nat)
    ensures Grow(b, 0, k) == b
  {
  }

  lemma UpdatedLooksTheSame(a: Account, t: nat, k: nat)
    requires a.stamp <= t
    ensures BalanceAt(Updated(a, t, k), t, k) == BalanceAt(a, t, k)
    ensures PoolAt(Updated(a, t, k), t, k) == PoolAt(a, t, k)
  {
  }

  // ---------------------------------------------------------------------------
  // What is owed to a delegate
  // ---------------------------------------------------------------------------

  /** A delegation entry together with the owner's balance it was computed from. */
  datatype Credit = Credit(entry: Entry, balance: Balance)

  function Credits(b: Balance, es: seq<Entry>): (cs: seq<Credit>)
    ensures |cs| == |es|
    ensures forall i :: 0 <= i < |es| ==> cs[i] == Credit(es[i], b)
  {
    if es == [] then [] else [Credit(es[0], b)] + Credits(b, es[1..])
  }

  function Value(c: Credit): Balance { Contribution(c.balance, c.entry.bps) }

  /** The part of a list of credits that goes to `to`. */
  function CreditsTo(cs: seq<Credit>, to: AccountId): Balance {
    if cs == [] then Zero()
    else if cs[0].entry.id == to then Plus(Value(cs[0]), CreditsTo(cs[1..], to))
    else CreditsTo(cs[1..], to)
  }

  function OwnerDue(a: Account, to: AccountId, t: nat, k: nat): Balance
    requires a.stamp <= t
  {
    CreditsTo(Credits(BalanceAt(a, t, k), a.delegations), to)
  }

  /** What all owners together delegate to `to` at time `t`. */
  function Due(d: seq<Account>, to: AccountId, t: nat, k: nat): Balance
    requires Stamped(d, t)
  {
    if d == [] then Zero()
    else Plus(OwnerDue(d[0], to, t, k), Due(d[1..], to, t, k))
  }

  /** Every pool holds exactly what is owed to it. */
  predicate Ledger(d: seq<Account>, t: nat, k: nat)
    requires Stamped(d, t)
  {
    forall i :: 0 <= i < |d| ==> PoolAt(d[i], t, k) == Due(d, d[i].id, t, k)
  }

  // ---------------------------------------------------------------------------
  // Time passes
  // ---------------------------------------------------------------------------

  lemma {:induction false} CreditsGrow(b: Balance, es: seq<Entry>, to: AccountId, secs: nat, k: nat)
    ensures CreditsTo(Credits(Grow(b, secs, k), es), to) == Grow(CreditsTo(Credits(b, es), to), secs, k)
    ensures CreditsTo(Credits(b, es), to).near % MILLI == 0
  {
    hide Contribution, Grow;
    GrowZero(secs, k);
    if es != [] {
      var cs, cs' := Credits(b, es), Credits(Grow(b, secs, k), es);
      assert cs[1..] == Credits(b, es[1..]) && cs'[1..] == Credits(Grow(b, secs, k), es[1..]);
      CreditsGrow(b, es[1..], to, secs, k);
      if es[0].id == to {
        ContributionCommutesWithGrowth(b, es[0].bps, secs, k);
        ContributionIsWhole(b, es[0].bps);
        GrowAdds(Value(cs[0]), CreditsTo(cs[1..], to), secs, k);
      }
    }
  }

  lemma {:induction false} DueGrows(d: seq<Account>, to: AccountId, t: nat, t': nat, k: nat)
    requires Stamped(d, t) && t <= t'
    ensures Due(d, to, t', k) == Grow(Due(d, to, t, k), t' - t, k)
  {
    if d != [] {
      DueGrows(d[1..], to, t, t', k);
      GrowTwice(d[0].balance, t - d[0].stamp, t' - t, k);
      CreditsGrow(BalanceAt(d[0], t, k), d[0].delegations, to, t' - t, k);
      GrowAdds(OwnerDue(d[0], to, t, k), Due(d[1..], to, t, k), t' - t, k);
    }
  }

  /** The ledger holds at every later time once it holds at one. */
  lemma LedgerOverTime(d: seq<Account>, t: nat, t': nat, k: nat)
    requires Stamped(d, t) && t <= t' && Ledger(d, t, k)
    ensures Ledger(d, t', k)
  {
    forall i | 0 <= i < |d| ensures PoolAt(d[i], t', k) == Due(d, d[i].id, t', k) {
      DueGrows(d, d[i].id, t, t', k);
      GrowTwice(d[i].pool, t - d[i].stamp, t' - t, k);
    }
  }

  // ---------------------------------------------------------------------------
  // One account changes
  // ---------------------------------------------------------------------------

  lemma {:induction false} DueReplace(d: seq<Account>, i: nat, a: Account, to: AccountId, t: nat, k: nat)
    requires Stamped(d, t) && i < |d| && a.stamp <= t
    ensures Plus(Due(d[i := a], to, t, k), OwnerDue(d[i], to, t, k)) == Plus(Due(d, to, t, k), OwnerDue(a, to, t, k))
  {
    if i == 0 {
      assert d[i := a][1..] == d[1..];
    } else {
      assert d[i := a][1..] == d[1..][i - 1 := a];
      DueReplace(d[1..], i - 1, a, to, t, k);
    }
  }

  lemma {:induction false} DueAppend(d: seq<Account>, a: Account, to: AccountId, t: nat, k: nat)
    requires Stamped(d, t) && a.stamp <= t
    ensures Due(d + [a], to, t, k) == Plus(Due(d, to, t, k), OwnerDue(a, to, t, k))
  {
    if d != [] {
      assert (d + [a])[1..] == d[1..] + [a];
      DueAppend(d[1..], a, to, t, k);
    } else {
      assert (d + [a])[1..] == [];
    }
  }

  /** What the others owe, with owner `o` left out. */
  function Rest(d: seq<Account>, o: nat, to: AccountId, t: nat, k: nat): Balance
    requires Stamped(d, t) && o < |d|
  {
    Due(d[o := d[o].(delegations := [])], to, t, k)
  }

  lemma DueSplits(d: seq<Account>, o: nat, to: AccountId, t: nat, k: nat)
    requires Stamped(d, t) && o < |d|
    ensures Due(d, to, t, k) == Plus(Rest(d, o, to, t, k), OwnerDue(d[o], to, t, k))
  {
    DueReplace(d, o, d[o].(delegations := []), to, t, k);
  }

  /** The pools while owner `o` is being rewritten: its credits are the list `cs`. */
  predicate Owes(d: seq<Account>, o: nat, cs: seq<Credit>, t: nat, k: nat)
    requires Stamped(d, t) && o < |d|
  {
    forall i :: 0 <= i < |d| ==> PoolAt(d[i], t, k) == Plus(Rest(d, o, d[i].id, t, k), CreditsTo(cs, d[i].id))
  }

  lemma LedgerIsOwes(d: seq<Account>, o: nat, t: nat, k: nat)
    requires Stamped(d, t) && o < |d|
    ensures Ledger(d, t, k) <==> Owes(d, o, Credits(BalanceAt(d[o], t, k), d[o].delegations), t, k)
  {
    forall i | 0 <= i < |d|
      ensures Due(d, d[i].id, t, k)
           == Plus(Rest(d, o, d[i].id, t, k), CreditsTo(Credits(BalanceAt(d[o], t, k), d[o].delegations), d[i].id))
    {
      DueSplits(d, o, d[i].id, t, k);
    }
  }

  /** Changing the pool of account `j` does not change what anyone owes. */
  lemma RestKeepsUnderPool(d: seq<Account>, o: nat, j: nat, pool: Balance, to: AccountId, t: nat, k: nat)
    requires Stamped(d, t) && o < |d| && j < |d|
    ensures var d' := d[j := Updated(d[j], t, k).(pool := pool)];
            Stamped(d', t) && Rest(d', o, to, t, k) == Rest(d, o, to, t, k)
  {
    var a := Updated(d[j], t, k).(pool := pool);
    var d' := d[j := a];
    var e, e' := d[o := d[o].(delegations := [])], d'[o := d'[o].(delegations := [])];
    UpdatedLooksTheSame(d[j], t, k);
    if j == o {
      assert e' == e[o := a.(delegations := [])];
      DueReplace(e, o, a.(delegations := []), to, t, k);
    } else {
      assert e' == e[j := a];
      DueReplace(e, j, a, to, t, k);
    }
  }

  /** Posting to delegate `j` the change from credits `cs` to `cs'` keeps the books, if only `j` is concerned. */
  lemma PostKeepsOwes(d: seq<Account>, o: nat, j: nat, cs: seq<Credit>, cs': seq<Credit>, pool: Balance, t: nat, k: nat)
    requires Stamped(d, t) && o < |d| && j < |d| && Owes(d, o, cs, t, k)
    requires forall i, i' :: 0 <= i < i' < |d| ==> d[i].id != d[i'].id
    requires forall to :: to != d[j].id ==> CreditsTo(cs', to) == CreditsTo(cs, to)
    requires Plus(pool, CreditsTo(cs, d[j].id)) == Plus(PoolAt(d[j], t, k), CreditsTo(cs', d[j].id))
    ensures var d' := d[j := Updated(d[j], t, k).(pool := pool)]; Stamped(d', t) && Owes(d', o, cs', t, k)
  {
    hide Due, CreditsTo, Grow;
    var d' := d[j := Updated(d[j], t, k).(pool := pool)];
    GrowNot(pool, k);
    forall i | 0 <= i < |d'|
      ensures PoolAt(d'[i], t, k) == Plus(Rest(d', o, d'[i].id, t, k), CreditsTo(cs', d'[i].id))
    {
      RestKeepsUnderPool(d, o, j, pool, d[i].id, t, k);
    }
  }

  /** Taking one credit out of a list takes its value from its delegate and from no one else. */
  lemma {:induction false} CreditsWithout(cs: seq<Credit>, i: nat, to: AccountId)
    requires i < |cs|
    ensures var without := CreditsTo(cs[..i] + cs[i + 1..], to);
            CreditsTo(cs, to) == if cs[i].entry.id == to then Plus(without, Value(cs[i])) else without
  {
    if i == 0 {
      assert cs[..i] + cs[i + 1..] == cs[1..];
    } else {
      assert (cs[..i] + cs[i + 1..])[1..] == cs[1..][..i - 1] + cs[1..][i..];
      CreditsWithout(cs[1..], i - 1, to);
    }
  }

  /** Adding one credit to a list gives its value to its delegate and to no one else. */
  lemma CreditsAppend(cs: seq<Credit>, c: Credit, to: AccountId)
    ensures CreditsTo(cs + [c], to) == if c.entry.id == to then Plus(CreditsTo(cs, to), Value(c)) else CreditsTo(cs, to)
  {
    hide Contribution, CreditsTo;
    CreditsWithout(cs + [c], |cs|, to);
    assert (cs + [c])[..|cs|] + (cs + [c])[|cs| + 1..] == cs;
  }

  lemma PartFits(a: Balance, b: Balance, c: Balance)
    ensures Fits(c, Plus(a, Plus(b, c)))
  {
  }

  /** A credit is never more than the pool it sits in, so debiting it cannot underflow. */
  lemma CreditFits(d: seq<Account>, o: nat, cs: seq<Credit>, i: nat, j: nat, t: nat, k: nat)
    requires Stamped(d, t) && o < |d| && j < |d| && i < |cs| && Owes(d, o, cs, t, k)
    requires cs[i].entry.id == d[j].id
    ensures Fits(Value(cs[i]), PoolAt(d[j], t, k))
  {
    hide Contribution, Grow, Due;
    CreditsWithout(cs, i, d[j].id);
    PartFits(Rest(d, o, d[j].id, t, k), CreditsTo(cs[..i] + cs[i + 1..], d[j].id), Value(cs[i]));
  }

  predicate DistinctIds(d: seq<Account>) {
    forall i, i' :: 0 <= i < i' < |d| ==> d[i].id != d[i'].id
  }

  /** The delegate's account after its pool is set, as the contract writes it back. */
  function WithPool(d: seq<Account>, j: nat, pool: Balance, t: nat, k: nat): seq<Account>
    requires j < |d| && d[j].stamp <= t
  {
    d[j := Updated(d[j], t, k).(pool := pool)]
  }

  /** Rebasing credit `i` from one balance to another. */
  lemma RebaseStep(d: seq<Account>, o: nat, cs: seq<Credit>, i: nat, c: Credit, j: nat, t: nat, k: nat)
    requires Stamped(d, t) && DistinctIds(d) && o < |d| && j < |d| && i < |cs| && Owes(d, o, cs, t, k)
    requires cs[i].entry.id == c.entry.id == d[j].id
    ensures Fits(Value(cs[i]), PoolAt(d[j], t, k))
    ensures var d' := WithPool(d, j, Plus(Minus(PoolAt(d[j], t, k), Value(cs[i])), Value(c)), t, k);
            Stamped(d', t) && Owes(d', o, cs[i := c], t, k)
  {
    hide Contribution, Grow, Due;
    CreditFits(d, o, cs, i, j, t, k);
    var pool := Plus(Minus(PoolAt(d[j], t, k), Value(cs[i])), Value(c));
    forall to ensures
      var without := CreditsTo(cs[..i] + cs[i + 1..], to);
      && CreditsTo(cs, to) == (if cs[i].entry.id == to then Plus(without, Value(cs[i])) else without)
      && CreditsTo(cs[i := c], to) == (if c.entry.id == to then Plus(without, Value(c)) else without)
    {
      CreditsWithout(cs, i, to);
      CreditsWithout(cs[i := c], i, to);
      assert cs[i := c][..i] + cs[i := c][i + 1..] == cs[..i] + cs[i + 1..];
    }
    PostKeepsOwes(d, o, j, cs, cs[i := c], pool, t, k);
  }

  /** Withdrawing the first credit from its delegate. */
  lemma DebitStep(d: seq<Account>, o: nat, cs: seq<Credit>, j: nat, t: nat, k: nat)
    requires Stamped(d, t) && DistinctIds(d) && o < |d| && j < |d| && cs != [] && Owes(d, o, cs, t, k)
    requires cs[0].entry.id == d[j].id
    ensures Fits(Value(cs[0]), PoolAt(d[j], t, k))
    ensures var d' := WithPool(d, j, Minus(PoolAt(d[j], t, k), Value(cs[0])), t, k);
            Stamped(d', t) && Owes(d', o, cs[1..], t, k)
  {
    hide Contribution, Grow, Due;
    CreditFits(d, o, cs, 0, j, t, k);
    PostKeepsOwes(d, o, j, cs, cs[1..], Minus(PoolAt(d[j], t, k), Value(cs[0])), t, k);
  }

  /** Granting one more credit to its delegate. */
  lemma CreditStep(d: seq<Account>, o: nat, cs: seq<Credit>, c: Credit, j: nat, t: nat, k: nat)
    requires Stamped(d, t) && DistinctIds(d) && o < |d| && j < |d| && Owes(d, o, cs, t, k)
    requires c.entry.id == d[j].id
    ensures var d' := WithPool(d, j, Plus(PoolAt(d[j], t, k), Value(c)), t, k);
            Stamped(d', t) && Owes(d', o, cs + [c], t, k)
  {
    hide Contribution, Grow, Due;
    forall to ensures CreditsTo(cs + [c], to)
                   == (if c.entry.id == to then Plus(CreditsTo(cs, to), Value(c)) else CreditsTo(cs, to))
    {
      CreditsAppend(cs, c, to);
    }
    PostKeepsOwes(d, o, j, cs, cs + [c], Plus(PoolAt(d[j], t, k), Value(c)), t, k);
  }

  /** Writing the owner back with the credits that were posted closes the ledger again. */
  lemma CloseLedger(d: seq<Account>, o: nat, a: Account, t: nat, k: nat)
    requires Stamped(d, t) && o < |d| && a.stamp <= t && a.id == d[o].id && PoolAt(a, t, k) == PoolAt(d[o], t, k)
    requires Owes(d, o, Credits(BalanceAt(a, t, k), a.delegations), t, k)
    ensures Stamped(d[o := a], t) && Ledger(d[o := a], t, k)
  {
    var d' := d[o := a];
    var cs := Credits(BalanceAt(a, t, k), a.delegations);
    assert Owes(d', o, cs, t, k) by {
      forall i | 0 <= i < |d'|
        ensures PoolAt(d'[i], t, k) == Plus(Rest(d', o, d'[i].id, t, k), CreditsTo(cs, d'[i].id))
      {
        RestIgnoresOwner(d, o, a, d'[i].id, t, k);
      }
    }
    LedgerIsOwes(d', o, t, k);
  }

  lemma RestIgnoresOwner(d: seq<Account>, o: nat, a: Account, to: AccountId, t: nat, k: nat)
    requires Stamped(d, t) && o < |d| && a.stamp <= t
    ensures Stamped(d[o := a], t) && Rest(d[o := a], o, to, t, k) == Rest(d, o, to, t, k)
  {
    var e := d[o := d[o].(delegations := [])];
    assert d[o := a][o := a.(delegations := [])] == e[o := a.(delegations := [])];
    DueReplace(e, o, a.(delegations := []), to, t, k);
  }

  // ---------------------------------------------------------------------------
  // An owner never delegates more than it has
  // ---------------------------------------------------------------------------

  function SumBps(es: seq<Entry>): nat {
    if es == [] then 0 else es[0].bps + SumBps(es[1..])
  }

  /** All contributions of one owner, whoever receives them. */
  function GivenAway(b: Balance, es: seq<Entry>): Balance {
    if es == [] then Zero() else Plus(Contribution(b, es[0].bps), GivenAway(b, es[1..]))
  }

  function MillisGiven(near: nat, es: seq<Entry>): nat {
    if es == [] then 0 else SharedMillis(near, es[0].bps) + MillisGiven(near, es[1..])
  }

  lemma BpsAtMost(bps: nat, near: nat)
    requires bps <= MAX_BPS
    ensures SharedMillis(near, bps) * MILLI * MAX_BPS <= near * bps
  {
    Floor(near * bps, MAX_BPS);
    assert BpsOf(bps, near) * MAX_BPS <= near * bps;
  }

  lemma {:induction false} MillisGivenAtMost(near: nat, es: seq<Entry>)
    requires forall i :: 0 <= i < |es| ==> es[i].bps <= MAX_BPS
    ensures MillisGiven(near, es) * MILLI * MAX_BPS <= near * SumBps(es)
  {
    if es != [] {
      hide SharedMillis;
      MillisGivenAtMost(near, es[1..]);
      BpsAtMost(es[0].bps, near);
      Distribute(near, es[0].bps, SumBps(es[1..]));
    }
  }

  lemma Distribute(a: int, b: int, c: int)
    ensures a * (b + c) == a * b + a * c
  {
  }

  lemma SharesAdd(extra: nat, c: nat, rest: nat, m: nat, y: nat)
    requires m > 0 && y * m <= extra * rest
    ensures (extra * c / m + y) * m <= extra * (c + rest)
  {
    var x := extra * c / m;
    Quot(x, extra * c, m);
    Distribute(m, x, y);
    Distribute(extra, c, rest);
  }

  /** Rounded shares of one quantity add up to at most the share of the sum. */
  lemma {:induction false} GivenInMillis(b: Balance, es: seq<Entry>)
    requires b.near >= MILLI
    ensures GivenAway(b, es).near == MillisGiven(b.near, es) * MILLI
    ensures GivenAway(b, es).extra * (b.near / MILLI) <= b.extra * MillisGiven(b.near, es)
  {
    if es != [] {
      hide SharedMillis, Contribution;
      GivenInMillis(b, es[1..]);
      ContributionInMillis(b, es[0].bps);
      SharesAdd(b.extra, SharedMillis(b.near, es[0].bps), MillisGiven(b.near, es[1..]), b.near / MILLI,
                GivenAway(b, es[1..]).extra);
    }
  }

  lemma ShareAtMost(given: nat, extra: nat, g: nat, m: nat)
    requires m > 0 && g <= m && given * m <= extra * g
    ensures given <= extra
  {
    MulMono(extra, g, m);
    Cancel(m, given, extra);
  }

  lemma MillisFit(g: nat, near: nat, sum: nat)
    requires g * MILLI * MAX_BPS <= near * sum && sum <= MAX_BPS
    ensures g <= near / MILLI
  {
    MulMono(near, sum, MAX_BPS);
  }

  /** What an owner gives away fits in its balance, in both components, whenever the bps total at most 100%. */
  lemma GivenAwayFits(b: Balance, es: seq<Entry>)
    requires forall i :: 0 <= i < |es| ==> es[i].bps <= MAX_BPS
    requires SumBps(es) <= MAX_BPS
    ensures Fits(GivenAway(b, es), b)
  {
    hide GivenAway, MillisGiven, SumBps;
    if b.near >= MILLI {
      GivenInMillis(b, es);
      MillisGivenAtMost(b.near, es);
      MillisFit(MillisGiven(b.near, es), b.near, SumBps(es));
      ShareAtMost(GivenAway(b, es).extra, b.extra, MillisGiven(b.near, es), b.near / MILLI);
    } else {
      NothingGiven(b, es);
    }
  }

  lemma {:induction false} NothingGiven(b: Balance, es: seq<Entry>)
    requires b.near < MILLI
    ensures IsZero(GivenAway(b, es))
  {
    if es != [] { NothingGiven(b, es[1..]); }
  }
}
