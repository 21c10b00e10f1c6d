/** The tally of one proposal: votes weighted by snapshot balances that were proved against the Merkle root. */
module VotingTally {
  import opened Options
  import opened VenearBalance
  import opened VenearLedger
  import opened VenearSupply
  import opened VenearStore
  import opened MerkleNodes

  // ---------------------------------------------------------------------------
  // Power of a set of accounts
  // ---------------------------------------------------------------------------

  /** The voting power at time `t` of the accounts in `voters`, summed over the leaves of the snapshot. */
  function PowerOfVoters(leaves: seq<Account>, voters: set<AccountId>, t: nat, k: nat): nat
    requires Stamped(leaves, t) && AllBpsValid(leaves)
  {
    if leaves == [] then 0
    else (if leaves[0].id in voters then OwnedPower(Updated(leaves[0], t, k)) else 0)
         + PowerOfVoters(leaves[1..], voters, t, k)
  }

  lemma {:induction false} PowerIgnoresOthers(leaves: seq<Account>, voters: set<AccountId>, id: AccountId, t: nat,
                                              k: nat)
    requires Stamped(leaves, t) && AllBpsValid(leaves) && forall i :: 0 <= i < |leaves| ==> leaves[i].id != id
    ensures PowerOfVoters(leaves, voters + {id}, t, k) == PowerOfVoters(leaves, voters, t, k)
  {
    hide OwnedPower, BpsValid;
    if leaves != [] { PowerIgnoresOthers(leaves[1..], voters, id, t, k); }
  }

  /** One more voter adds the power of its own leaf, and nothing else. */
  lemma {:induction false} PowerOfOneMore(leaves: seq<Account>, voters: set<AccountId>, i: nat, t: nat, k: nat)
    requires Stamped(leaves, t) && AllBpsValid(leaves) && DistinctIds(leaves) && i < |leaves| && leaves[i].id !in voters
    ensures PowerOfVoters(leaves, voters + {leaves[i].id}, t, k)
         == PowerOfVoters(leaves, voters, t, k) + OwnedPower(Updated(leaves[i], t, k))
  {
    hide OwnedPower, BpsValid;
    if i == 0 {
      PowerIgnoresOthers(leaves[1..], voters, leaves[0].id, t, k);
    } else {
      PowerOfOneMore(leaves[1..], voters, i - 1, t, k);
    }
  }

  lemma PowerOfOneLess(leaves: seq<Account>, voters: set<AccountId>, i: nat, t: nat, k: nat)
    requires Stamped(leaves, t) && AllBpsValid(leaves) && DistinctIds(leaves) && i < |leaves| && leaves[i].id in voters
    ensures PowerOfVoters(leaves, voters, t, k)
         == PowerOfVoters(leaves, voters - {leaves[i].id}, t, k) + OwnedPower(Updated(leaves[i], t, k))
  {
    assert voters - {leaves[i].id} + {leaves[i].id} == voters;
    PowerOfOneMore(leaves, voters - {leaves[i].id}, i, t, k);
  }

  /** No set of voters has more power than all accounts together. */
  lemma {:induction false} PowerAtMostAll(leaves: seq<Account>, voters: set<AccountId>, t: nat, k: nat)
    requires Stamped(leaves, t) && AllBpsValid(leaves)
    ensures PowerOfVoters(leaves, voters, t, k) <= SumPower(leaves, t, k)
  {
    hide OwnedPower, BpsValid;
    if leaves != [] { PowerAtMostAll(leaves[1..], voters, t, k); }
  }

  // ---------------------------------------------------------------------------
  // The snapshot
  // ---------------------------------------------------------------------------

  /** `SnapshotAndState`. */
  datatype Snapshot = Snapshot(root: Hash, length: nat, timestampNs: nat, totalVenear: nat, rate: Rate)

  /** `on_get_snapshot`: the total is brought up to the time of the callback; `None` is a panic. */
  function TakeSnapshot(root: Hash, length: nat, total: Balance, totalStamp: nat, rate: Rate,
                        nowNs: nat): Option<Snapshot> {
    match UpdateTotal(total, totalStamp, ToSeconds(nowNs), rate)
    case Some(grown) => Some(Snapshot(root, length, nowNs, grown.Total(), rate))
    case None => None
  }

  /** The snapshot was taken of the veNEAR store `s`, whose tree has the accounts as leaves. */
  ghost predicate SnapshotOf(n: Snapshot, s: Store, f: Hashing<Account>) {
    && Exact(n.rate) && Sound(s, ToSeconds(n.timestampNs), PerUnit(n.rate))
    && Some(n) == TakeSnapshot(Root(f, s.data), |s.data|, s.total, s.totalStamp, n.rate, n.timestampNs)
  }

  lemma SnapshotFacts(n: Snapshot, s: Store, f: Hashing<Account>)
    requires SnapshotOf(n, s, f)
    ensures n.root == Root(f, s.data) && n.length == |s.data| && DistinctIds(s.data)
    ensures Stamped(s.data, ToSeconds(n.timestampNs)) && AllBpsValid(s.data)
    ensures n.totalVenear == SumPower(s.data, ToSeconds(n.timestampNs), PerUnit(n.rate))
  {
    hide Grow, SumPooled, SumPower, Ledger, UpdateTotal, Exact, PerUnit, ToSeconds, Root;
    SupplyIsVotingPower(s, ToSeconds(n.timestampNs), n.rate);
    IndexedIsDistinct(s.data, s.index);
  }

  /** `Account::total_balance`, with the growth and every subtraction checked. */
  function TotalBalance(a: Account, n: Snapshot): Option<nat> {
    match UpdateAccount(a, ToSeconds(n.timestampNs), n.rate)
    case None => None
    case Some(u) =>
      var given := GivenAway(u.balance, u.delegations);
      if Fits(given, u.balance) then Some(u.pool.Total() + Minus(u.balance, given).Total()) else None
  }

  lemma AccountBalance(a: Account, n: Snapshot)
    requires Exact(n.rate) && a.stamp <= ToSeconds(n.timestampNs) && BpsValid(a.delegations)
    ensures TotalBalance(a, n) == Some(OwnedPower(Updated(a, ToSeconds(n.timestampNs), PerUnit(n.rate))))
  {
    hide Grow, Exact, PerUnit, ToSeconds, GivenAway, UpdateAccount;
    var t := ToSeconds(n.timestampNs);
    UpdateAccountIs(a, t, n.rate);
    GivenAwayFits(Updated(a, t, PerUnit(n.rate)).balance, a.delegations);
  }

  /** A leaf's balance is its voting power at the time of the snapshot. */
  lemma LeafBalance(n: Snapshot, s: Store, f: Hashing<Account>, i: nat)
    requires SnapshotOf(n, s, f) && i < |s.data|
    ensures s.data[i].stamp <= ToSeconds(n.timestampNs) && BpsValid(s.data[i].delegations)
    ensures TotalBalance(s.data[i], n)
         == Some(OwnedPower(Updated(s.data[i], ToSeconds(n.timestampNs), PerUnit(n.rate))))
  {
    hide Grow, SumPower, Exact, PerUnit, ToSeconds, Root, SnapshotOf, TotalBalance, OwnedPower, BpsValid, Updated,
         DistinctIds;
    SnapshotFacts(n, s, f);
    ExactSnapshot(n, s, f);
    AccountBalance(s.data[i], n);
  }

  lemma ExactSnapshot(n: Snapshot, s: Store, f: Hashing<Account>)
    requires SnapshotOf(n, s, f)
    ensures Exact(n.rate)
  {
  }
}
