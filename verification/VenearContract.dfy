/** The veNEAR contract, changed in place by registration, delegation changes, lockup updates and the state
    migration. */
module VenearContract {
  import opened VenearBalance
  import opened VenearLedger
  import opened VenearSupply
  import opened VenearStore
  import opened VenearMigration

  class Contract {
    var data: seq<Account>
    var index: map<AccountId, nat>
    var internals: map<AccountId, Internal>
    var total: Balance
    var totalStamp: nat
    const rate: Rate
    const maxDelegations: nat
    ghost var clock: nat               // time of the last change, in seconds

    ghost function Stored(): Store
      reads this
    {
      Store(data, index, internals, total, totalStamp)
    }

    ghost predicate Valid()
      reads this
    {
      Exact(rate) && Sound(Stored(), clock, PerUnit(rate))
    }

    constructor (rate: Rate, maxDelegations: nat, nowNs: nat)
      requires Exact(rate)
      ensures Valid() && Stored() == Store([], map[], map[], Zero(), ToSeconds(nowNs)) && clock == ToSeconds(nowNs)
      ensures this.rate == rate && this.maxDelegations == maxDelegations
    {
      this.rate, this.maxDelegations := rate, maxDelegations;
      data, index, internals := [], map[], map[];
      total, totalStamp, clock := Zero(), ToSeconds(nowNs), ToSeconds(nowNs);
    }

    /** `internal_register_account`: `false` is the already-registered panic. */
    method Register(id: AccountId, deposit: nat, nowNs: nat) returns (ok: bool)
      requires Valid() && clock <= ToSeconds(nowNs)
      modifies this
      ensures Valid()
      ensures ok <==> id !in old(index)
      ensures !ok ==> unchanged(this)
      ensures ok ==> clock == ToSeconds(nowNs)
      ensures ok ==>
        var a := Account(id, ToSeconds(nowNs), Balance(deposit, 0), Zero(), []);
        Stored() == AfterRegister(old(Stored()), a, PerUnit(rate))
    {
      hide Grow, SumPooled, Due, Exact, UpdateTotal, ToSeconds;
      if id in internals { return false; }
      var now := ToSeconds(nowNs);
      ghost var before := Stored();
      TimePasses(before, clock, now, PerUnit(rate));
      var a := Account(id, now, Balance(deposit, 0), Zero(), []);
      RegisteredIsSound(before, a, PerUnit(rate));
      UpdateTotalIs(total, totalStamp, now, rate);
      var grown := UpdateTotal(total, totalStamp, now, rate).value;
      internals, index, data := internals[id := Internal(deposit, 0)], index[id := |data|], data + [a];
      total, totalStamp, clock := Plus(grown, Pooled(a.balance)), now, now;
      ok := true;
    }

    /** `set_delegations`: `false` is a panic, which leaves the state as it was. */
    method SetDelegations(caller: AccountId, entries: seq<Entry>, nowNs: nat) returns (ok: bool)
      requires Valid() && clock <= ToSeconds(nowNs)
      modifies this
      ensures Valid()
      ensures ok == Delegable(old(Stored()), caller, entries, maxDelegations)
      ensures !ok ==> unchanged(this)
      ensures ok ==> clock == ToSeconds(nowNs) && unchanged(this`index, this`internals, this`total, this`totalStamp)
      ensures ok ==> Delegated(old(data), data, old(index)[caller], entries, clock, PerUnit(rate))
    {
      hide Grow, SumPooled, Exact, ToSeconds, Sound, Delegated, Delegable, EntriesValid;
      var now := ToSeconds(nowNs);
      SoundLater(Stored(), clock, now, PerUnit(rate));
      var d;
      ok, d := Redelegate(Store(data, index, internals, total, totalStamp), caller, entries, maxDelegations, now, rate);
      if ok { data, clock := d, now; }
    }

    /** `internal_lockup_update`: `false` is a stale nonce or an unknown account. */
    method LockupUpdate(id: AccountId, locked: nat, nonce: nat, nowNs: nat) returns (ok: bool)
      requires Valid() && clock <= ToSeconds(nowNs)
      modifies this
      ensures Valid()
      ensures ok == Lockable(old(Stored()), id, nonce)
      ensures !ok ==> unchanged(this)
      ensures ok ==> clock == ToSeconds(nowNs)
      ensures ok ==> Locked(old(Stored()), Stored(), id, locked, nonce, clock, PerUnit(rate))
      ensures ok ==>
        var o, k := old(index)[id], PerUnit(rate);
        && Stamped(old(data), clock) && Stamped(data, clock) && o < |data| == |old(data)|
        && var before, after := BalanceAt(old(data)[o], clock, k), BalanceAt(data[o], clock, k);
           && after.near == locked + old(internals)[id].deposit
           && after.extra == if after.near < before.near then 0 else before.extra
    {
      hide Grow, SumPooled, Exact, ToSeconds, Sound, Locked, Lockable;
      var now := ToSeconds(nowNs);
      SoundLater(Stored(), clock, now, PerUnit(rate));
      var s;
      ok, s := Relock(Store(data, index, internals, total, totalStamp), id, locked, nonce, now, rate);
      if ok {
        LockupSets(Stored(), s, id, locked, nonce, now, PerUnit(rate));
        data, index, internals, total, totalStamp, clock := s.data, s.index, s.internals, s.total, s.totalStamp, now;
      }
    }

    /** `migrate_state`: needs no ledger, only acceptable delegation lists and registered delegates. */
    method MigrateState(nowNs: nat)
      requires Exact(rate) && WellFormed(Stored(), clock, PerUnit(rate)) && clock <= ToSeconds(nowNs)
      modifies this`data, this`clock
      ensures Valid() && clock == ToSeconds(nowNs)
      ensures Stamped(old(data), clock) && SameOwners(old(data), data, clock, PerUnit(rate))
      ensures old(Valid()) ==> data == old(data)
    {
      hide Grow, SumPooled, Exact, ToSeconds, Shape, SameOwners, Ledger;
      var now := ToSeconds(nowNs);
      TimePasses(Stored(), clock, now, PerUnit(rate));
      var s := Migrate(Store(data, index, internals, total, totalStamp), now, rate);
      data, clock := s.data, now;
    }

    /** `ft_total_supply` is the sum of `ft_balance_of` over all registered accounts. */
    method FtTotalSupply(nowNs: nat) returns (supply: nat)
      requires Valid() && clock <= ToSeconds(nowNs)
      ensures Stamped(data, ToSeconds(nowNs)) && AllBpsValid(data)
      ensures supply == SumPower(data, ToSeconds(nowNs), PerUnit(rate))
    {
      hide Grow, SumPooled, Exact, ToSeconds, Shape, Ledger, SumPower, UpdateTotal;
      var now := ToSeconds(nowNs);
      SoundLater(Stored(), clock, now, PerUnit(rate));
      SupplyIsVotingPower(Stored(), now, rate);
      supply := UpdateTotal(total, totalStamp, now, rate).value.Total();
    }
  }
}
