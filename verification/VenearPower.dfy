/** What a delegation is worth: the share of a balance that a delegate is credited with, and how voting power moves when
    an owner changes its list. */
module VenearPower {
  import opened Arith
  import opened VenearBalance
  import opened VenearLedger
  import opened VenearSupply
  import opened VenearStore

  /** A delegate is credited with its part of the NEAR, down to whole milliNEAR, and with the part of what was earned
      that this is of the owner's whole milliNEAR, rounded down. */
  lemma ContributionIsShare(b: Balance, bps: nat)
    requires bps <= MAX_BPS
    ensures var c, base := Contribution(b, bps), b.near - b.near % MILLI;
            && c.near % MILLI == 0
            && c.near * MAX_BPS <= b.near * bps < (c.near + MILLI) * MAX_BPS
            && c.extra * base <= b.extra * c.near
            && (if base == 0 then c.extra == 0 else b.extra * c.near < (c.extra + 1) * base)
  {
    var base, part := Truncate(b.near), BpsOf(bps, b.near);
    BpsBounds(bps, b.near);
    if base > 0 {
      var near := Truncate(part);
      Quot(Portion(b.extra, near, base), b.extra * near, base);
    } else {
      SmallShare(b.near, bps);
    }
  }

  lemma BpsBounds(bps: nat, near: nat)
    requires bps <= MAX_BPS
    ensures BpsOf(bps, near) * MAX_BPS <= near * bps < (BpsOf(bps, near) + 1) * MAX_BPS
  {
    Quot(near * bps / MAX_BPS, near * bps, MAX_BPS);
  }

  lemma SmallShare(near: nat, bps: nat)
    requires near < MILLI && bps <= MAX_BPS
    ensures near * bps < MILLI * MAX_BPS
  {
    MulMono(near, bps, MAX_BPS);
  }

  /** A full delegation hands over everything but what is below a milliNEAR. */
  lemma FullShare(b: Balance)
    requires b.near >= MILLI
    ensures Contribution(b, MAX_BPS) == Balance(b.near - b.near % MILLI, b.extra)
  {
    var base := Truncate(b.near);
    QuotientIs(b.extra, b.extra * base, base);
  }

  // ---------------------------------------------------------------------------
  // Changing a list
  // ---------------------------------------------------------------------------

  /** Each delegate of a list is credited with its own entry; the others with nothing. */
  lemma {:induction false} CreditOfEntry(b: Balance, es: seq<Entry>, to: AccountId)
    requires forall i, j :: 0 <= i < j < |es| ==> es[i].id != es[j].id
    ensures forall i :: 0 <= i < |es| && es[i].id == to ==>
              CreditsTo(Credits(b, es), to) == Contribution(b, es[i].bps)
    ensures (forall i :: 0 <= i < |es| ==> es[i].id != to) ==> CreditsTo(Credits(b, es), to) == Zero()
  {
    hide Contribution;
    if es != [] {
      assert Credits(b, es)[1..] == Credits(b, es[1..]);
      CreditOfEntry(b, es[1..], to);
      assert forall i :: 0 < i < |es| ==> es[1..][i - 1] == es[i];
    }
  }

  /** What is owed depends on balances and lists alone. */
  lemma {:induction false} DueFrame(d: seq<Account>, d': seq<Account>, to: AccountId, t: nat, k: nat)
    requires Stamped(d, t) && Stamped(d', t) && |d'| == |d|
    requires forall i :: 0 <= i < |d| ==>
               BalanceAt(d'[i], t, k) == BalanceAt(d[i], t, k) && d'[i].delegations == d[i].delegations
    ensures Due(d', to, t, k) == Due(d, to, t, k)
  {
    hide BalanceAt;
    if d != [] { DueFrame(d[1..], d'[1..], to, t, k); }
  }

  /** The pools, when one owner's balance or list changes and the ledger is kept. */
  lemma PoolsMove(d: seq<Account>, d': seq<Account>, o: nat, i: nat, t: nat, k: nat)
    requires Stamped(d, t) && Stamped(d', t) && |d'| == |d| && o < |d| && i < |d| && d'[i].id == d[i].id
    requires Ledger(d, t, k) && Ledger(d', t, k)
    requires forall j :: 0 <= j < |d| && j != o ==>
               BalanceAt(d'[j], t, k) == BalanceAt(d[j], t, k) && d'[j].delegations == d[j].delegations
    ensures Plus(PoolAt(d'[i], t, k), OwnerDue(d[o], d[i].id, t, k))
         == Plus(PoolAt(d[i], t, k), OwnerDue(d'[o], d[i].id, t, k))
  {
    hide BalanceAt, PoolAt, OwnerDue, Due;
    DueFrame(d[o := d'[o]], d', d[i].id, t, k);
    DueReplace(d, o, d'[o], d[i].id, t, k);
  }

  function PowerAt(a: Account, t: nat, k: nat): nat
    requires a.stamp <= t && BpsValid(a.delegations)
  {
    OwnedPower(Updated(a, t, k))
  }

  /** When an owner replaces its list, every other account's voting power changes by exactly what the new list credits
      it with instead of the old one, and the owner's own by what it no longer gives away. */
  lemma DelegationMovesPower(s: Store, s': Store, o: nat, es: seq<Entry>, i: nat, t: nat, k: nat)
    requires Sound(s, t, k) && Sound(s', t, k) && o < |s.data| && i < |s.data|
    requires Delegated(s.data, s'.data, o, es, t, k)
    ensures BpsValid(s.data[i].delegations) && BpsValid(s'.data[i].delegations)
    ensures var b, was := BalanceAt(s.data[o], t, k), s.data[o].delegations;
            var before, after := PowerAt(s.data[i], t, k), PowerAt(s'.data[i], t, k);
            && (i == o ==> after + GivenAway(b, es).Total() == before + GivenAway(b, was).Total())
            && (i != o ==> after + CreditsTo(Credits(b, was), s.data[i].id).Total()
                           == before + CreditsTo(Credits(b, es), s.data[i].id).Total())
  {
    hide Grow, GivenAway, CreditsTo, SumPooled, Due, Indexed, Contribution, SumBps;
    var d, d' := s.data, s'.data;
    PoolsMove(d, d', o, i, t, k);
    GivenAwayFits(BalanceAt(d[i], t, k), d[i].delegations);
    GivenAwayFits(BalanceAt(d'[i], t, k), d'[i].delegations);
    if i == o {
      NoSelfCredit(BalanceAt(d[o], t, k), d[o].delegations, d[o].id);
      NoSelfCredit(BalanceAt(d[o], t, k), es, d[o].id);
    }
  }

  /** Nobody is credited by its own list. */
  lemma NoSelfCredit(b: Balance, es: seq<Entry>, id: AccountId)
    requires forall i :: 0 <= i < |es| ==> es[i].id != id
    ensures CreditsTo(Credits(b, es), id) == Zero()
  {
    hide Contribution;
    NoCreditTo(Credits(b, es), id);
  }

  /** A new account has the voting power of its deposit, takes nothing from anyone, and accepts every nonce but zero. */
  lemma RegistrationAdds(s: Store, a: Account, k: nat, i: nat, nonce: nat)
    requires Sound(s, a.stamp, k) && a.id !in s.index && a.delegations == [] && a.pool == Zero() && a.balance.extra == 0
    requires i < |s.data|
    ensures var s' := AfterRegister(s, a, k);
            && |s'.data| == |s.data| + 1 && s'.data[|s.data|] == a && s'.data[i] == s.data[i]
            && BpsValid(a.delegations) && PowerAt(a, a.stamp, k) == a.balance.near
            && s'.internals[a.id].deposit == a.balance.near
            && (Lockable(s', a.id, nonce) <==> nonce > 0)
  {
    hide SumPooled, Due, Shape, Ledger;
    GrowNot(a.balance, k);
    GrowNot(a.pool, k);
  }
}
