/** The farm's stored records, changed in place by the commits. */
module FarmContract {
  import opened Options
  import opened StakingBook
  import opened Farm
  import opened FarmDesk
  import opened FarmRuns
  import opened StakingZeroMint

  class Contract {
    var positions: map<Key, Held>
    var pools: map<PriceId, Pool>
    var accounts: map<AccountId, nat>
    var books: map<ValidatorId, Book>       // validator rows, with their shares and tranches
    ghost var counts: map<PriceId, Counts>

    ghost function Now(): Desk
      reads this
    {
      Desk(positions, pools, accounts, counts, map[])
    }

    /** Every price is a farm on its own whose credited units are covered. */
    ghost predicate Covered()
      reads this
    {
      Formed(Now()) && FarmsValid(Now())
    }

    constructor (books: map<ValidatorId, Book>)
      ensures Covered() && Now() == Empty() && this.books == books
    {
      positions, pools, accounts, this.books, counts := map[], map[], map[], books, map[];
    }

    /** `settle_farm_pool`. */
    method SettlePool(price: PriceId, v: Validator, now: nat)
      requires price in pools && price in counts
      modifies this`pools, this`counts
      ensures Now() == PriceSettled(old(Now()), price, v, now)
    {
      hide SettledPool, EmittedBy;
      counts := counts[price := CountsAfter(counts[price], pools[price], v, now)];
      pools := pools[price := SettledPool(pools[price], v, now)];
    }

    /** `settle_farm_position`: credits exactly what the preview showed for `now`; `None` is a panic. */
    method SettlePosition(key: Key, v: Validator, now: nat) returns (pending: Option<nat>)
      requires Formed(Now())
      modifies this`pools, this`counts, this`positions
      ensures pending.Some? <==> HoldsShares(old(Now()), key)
      ensures pending.None? ==> unchanged(this)
      ensures pending.Some? ==>
        && Now() == HolderSettled(old(Now()), key, v, now)
        && positions[key].p.accrued == old(positions)[key].p.accrued + pending.value
        && positions[key].p.accrued == Preview(old(positions)[key].p, old(pools)[old(positions)[key].price], v, now)
        && Preview(positions[key].p, pools[positions[key].price], v, now) == positions[key].p.accrued
    {
      hide SettledPool, EmittedBy, Accumulated;
      if key !in positions || positions[key].p.shares == 0 { return None; }
      var h := positions[key];
      SettledTwice(pools[h.price], v, now);
      SettlePool(h.price, v, now);
      var accumulated := Accumulated(h.p.shares, pools[h.price].acc);
      var earned := if accumulated > h.p.debt then accumulated - h.p.debt else 0;
      positions := positions[key := h.(p := h.p.(accrued := h.p.accrued + earned, debt := accumulated))];
      pending := Some(earned);
    }

    /** Whether the stake keeps the position within the price's maximum, at the current value of its shares. */
    predicate WithinMaximum(key: Key, v: Validator, deposit: nat, maximum: Option<nat>)
      reads this
    {
      var current :=
        if key in positions then NearFromShares(positions[key].p.shares, v.NetStake(), v.totalShares) else 0;
      maximum.Some? ==> current + deposit <= maximum.value
    }

    /** When the commit of a stake goes through. `listed`: the price and its product are active, belong together, and
        name this validator. */
    ghost predicate Accepts(key: Key, price: PriceId, validator: ValidatorId, deposit: nat, listed: bool,
                            maximum: Option<nat>)
      reads this
    {
      && listed && price in pools && validator in books
      && WithinMaximum(key, books[validator].v, deposit, maximum)
      && MayCommitStake(Now(), key) && StakeIn(books[validator], key.0, deposit).Some?
    }

    /** `commit_farm_stake`: `false` is a panic, which changes nothing. A positive deposit leaves the position unusable
        exactly when it opens it and is worth less than a share. */
    method CommitStake(key: Key, price: PriceId, validator: ValidatorId, deposit: nat, listed: bool,
                       maximum: Option<nat>, now: nat) returns (ok: bool)
      requires Covered()
      modifies this
      ensures ok == old(Accepts(key, price, validator, deposit, listed, maximum))
      ensures !ok ==> positions == old(positions) && pools == old(pools) && accounts == old(accounts)
                      && books == old(books) && counts == old(counts)
      ensures ok ==>
        var book := old(books)[validator];
        var added := MintShares(book.v.totalShares, book.v.NetStake(), deposit);
        && books == old(books)[validator := StakeIn(book, key.0, deposit).value]
        && Now() == StakeCommitted(old(Now()), key, price, added, book.v, now)
      ensures ok && SamePrice(old(Now()), key, price) ==> Covered()
      ensures ok && deposit > 0 ==>
        (Stuck(Now(), key) <==> key !in old(positions) && MintsNothing(old(books)[validator].v, deposit))
    {
      hide FarmsValid, StakeIn, MintShares, NearFromShares, MintsNothing, Stuck, Formed, StakeCommitted;
      if !listed || price !in pools || validator !in books { return false; }
      var v := books[validator].v;
      if !WithinMaximum(key, v, deposit, maximum) { return false; }
      if key in positions && positions[key].p.shares == 0 { return false; }
      if StakeIn(books[validator], key.0, deposit).None? { return false; }
      if deposit > 0 { DepositSticksIff(Now(), key, price, books[validator], deposit, now); }
      StakeChecked(key, price, validator, deposit, now);
      ok := true;
    }

    /** The writes of a stake that has passed all checks. */
    method StakeChecked(key: Key, price: PriceId, validator: ValidatorId, deposit: nat, now: nat)
      requires Covered() && price in pools && validator in books && MayCommitStake(Now(), key)
      requires StakeIn(books[validator], key.0, deposit).Some?
      modifies this
      ensures var book := old(books)[validator];
              var added := MintShares(book.v.totalShares, book.v.NetStake(), deposit);
              && books == old(books)[validator := StakeIn(book, key.0, deposit).value]
              && Now() == StakeCommitted(old(Now()), key, price, added, book.v, now)
      ensures SamePrice(old(Now()), key, price) ==> Covered()
    {
      hide SettledPool, EmittedBy, Accumulated, FarmsValid, StakeIn, MintShares, Formed;
      FormedParts(Now());
      var book := books[validator];
      var added := MintShares(book.v.totalShares, book.v.NetStake(), deposit);
      if SamePrice(Now(), key, price) { StakeCovers(Now(), key, price, added, book.v, now); }
      if key in positions {
        var _ := SettlePosition(key, book.v, now);
      } else {
        SettlePool(price, book.v, now);
      }
      books := books[validator := StakeIn(book, key.0, deposit).value];
      BookStake(key, price, added);
    }

    /** The minted shares enter the pool and the position. */
    method BookStake(key: Key, price: PriceId, added: nat)
      requires price in pools && price in counts
      modifies this`pools, this`positions, this`counts
      ensures Now() == StakeBooked(old(Now()), key, price, added)
    {
      hide Accumulated;
      var pool := pools[price].(totalShares := pools[price].totalShares + added);
      var h := if key in positions then positions[key] else Held(price, Position(0, 0, 0));
      var shares := h.p.shares + added;
      pools, positions := pools[price := pool],
                          positions[key := h.(p := h.p.(shares := shares, debt := Accumulated(shares, pool.acc)))];
      counts := counts[price := counts[price].(events := counts[price].events + 1)];
    }

    /** `commit_farm_unstake`: `false` is a panic, which changes nothing. */
    method CommitUnstake(key: Key, validator: ValidatorId, removed: nat, epoch: nat, settle: nat, now: nat)
      returns (ok: bool)
      requires Covered()
      modifies this
      ensures ok <==> MayCommitUnstake(old(Now()), key, removed) && validator in old(books)
                      && ExitShares(old(books)[validator], key.0, removed, epoch, settle).Some?
      ensures !ok ==> positions == old(positions) && pools == old(pools) && accounts == old(accounts)
                      && books == old(books) && counts == old(counts)
      ensures ok ==>
        var book := old(books)[validator];
        && books == old(books)[validator := ExitShares(book, key.0, removed, epoch, settle).value]
        && CanTake(old(Now()), key, removed)
        && Now() == UnstakeCommitted(old(Now()), key, removed, book.v, now)
      ensures Covered()
    {
      hide SettledPool, EmittedBy, Accumulated, FarmsValid, NearFromShares, Formed;
      FormedParts(Now());
      if validator !in books { return false; }
      var book := books[validator];
      var exited := ExitShares(book, key.0, removed, epoch, settle);
      if key !in positions || positions[key].p.shares == 0 || removed > positions[key].p.shares || exited.None? {
        return false;
      }
      TakesFromPool(Now(), key, removed);
      UnstakeCovers(Now(), key, removed, book.v, now);
      PoolAccGrows(pools[positions[key].price], book.v, now);
      var _ := SettlePosition(key, book.v, now);
      books := books[validator := exited.value];
      BookUnstake(key, removed);
      ok := true;
    }

    /** The shares leave the pool and the position. */
    method BookUnstake(key: Key, removed: nat)
      requires CanTake(Now(), key, removed) && positions[key].price in counts
      modifies this`pools, this`positions, this`counts, this`accounts
      ensures Now() == UnstakeBooked(old(Now()), key, removed)
    {
      hide Accumulated;
      var price, p := positions[key].price, positions[key].p;
      var pool, n := pools[price].(totalShares := pools[price].totalShares - removed), counts[price];
      pools := pools[price := pool];
      if p.shares == removed {
        accounts := accounts[key.0 := (if key.0 in accounts then accounts[key.0] else 0) + p.accrued];
        positions := positions - {key};
        counts := counts[price := n.(events := n.events + 1, paid := n.paid + p.accrued)];
      } else {
        var left := p.shares - removed;
        positions := positions[key := Held(price, p.(shares := left, debt := Accumulated(left, pool.acc)))];
        counts := counts[price := n.(events := n.events + 1)];
      }
    }
  }
}
