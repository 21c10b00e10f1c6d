/** Where an account's shares are: what a validator's row records for it is what its open locks and its farm positions
    hold, so an exit is never refused for lack of shares. */
module Holdings {
  import opened Options
  import opened MapSums
  import opened StakingBook
  import opened StakingZeroMint
  import SP = StakingPipeline
  import SC = StakingConservation
  import SL = StakingExitLimit
  import opened Farm
  import opened FarmDesk
  import opened FarmRuns
  import S = Subscription

  type LockId = S.LockId

  datatype Holdings = Holdings(books: map<ValidatorId, Book>, locks: map<LockId, S.Lock>, desk: Desk)

  // ---------------------------------------------------------------------------
  // Shares by holder
  // ---------------------------------------------------------------------------

  /** The shares an open lock holds for an account on a validator. */
  function LockPart(a: AccountId, v: ValidatorId): S.Lock -> nat {
    (l: S.Lock) => if l.account == a && l.validator == v && l.status == S.Locked then l.shares else 0
  }

  datatype Stake = Stake(account: AccountId, validator: ValidatorId, shares: nat)

  /** The farm positions with their owners and validators. */
  function Stakes(positions: map<Key, Held>, c: Catalog): map<Key, Stake> {
    map k | k in positions :: Stake(k.0, c(k.1), positions[k].p.shares)
  }

  function StakePart(a: AccountId, v: ValidatorId): Stake -> nat {
    (s: Stake) => if s.account == a && s.validator == v then s.shares else 0
  }

  ghost function InLocks(h: Holdings, a: AccountId, v: ValidatorId): nat { SumMap(h.locks, LockPart(a, v)) }

  ghost function InFarms(h: Holdings, c: Catalog, a: AccountId, v: ValidatorId): nat {
    SumMap(Stakes(h.desk.positions, c), StakePart(a, v))
  }

  /** The row's share balance is what locks and positions hold. */
  ghost predicate AccountedAt(h: Holdings, c: Catalog, a: AccountId, v: ValidatorId)
    requires v in h.books
  {
    SharesOf(h.books[v], a) == InLocks(h, a, v) + InFarms(h, c, a, v)
  }

  ghost predicate Accounted(h: Holdings, c: Catalog) {
    forall a, v :: v in h.books ==> AccountedAt(h, c, a, v)
  }

  /** Each row's total is the sum of its share balances. */
  ghost predicate Summed(b: Book) { SumMap(b.shares, SP.Same()) == b.v.totalShares }

  /** Locks and positions are on known validators. */
  ghost predicate Placed(h: Holdings, c: Catalog) {
    && (forall id :: id in h.locks ==> h.locks[id].validator in h.books)
    && (forall k :: k in h.desk.positions ==> c(k.1) in h.books)
  }

  ghost predicate Kept(h: Holdings, c: Catalog) {
    && Formed(h.desk) && FarmsValid(h.desk) && Placed(h, c)
    && (forall v :: v in h.books ==> Summed(h.books[v]))
    && Accounted(h, c)
  }

  // ---------------------------------------------------------------------------
  // What a row does to its share balances
  // ---------------------------------------------------------------------------

  lemma StakeAddsShares(b: Book, buyer: AccountId, deposit: nat, a: AccountId)
    requires Summed(b) && StakeIn(b, buyer, deposit).Some?
    ensures var b' := StakeIn(b, buyer, deposit).value;
            && Summed(b')
            && SharesOf(b', a)
            == SharesOf(b, a) + if a == buyer then MintShares(b.v.totalShares, b.v.NetStake(), deposit) else 0
  {
    hide SumMap, MintShares;
    SC.StakeInConserves(b, buyer, deposit);
  }

  lemma ExitTakesShares(b: Book, account: AccountId, n: nat, epoch: nat, settle: nat, a: AccountId)
    requires Summed(b) && ExitShares(b, account, n, epoch, settle).Some?
    ensures var b' := ExitShares(b, account, n, epoch, settle).value;
            Summed(b') && SharesOf(b', a) == SharesOf(b, a) - if a == account then n else 0
  {
    hide SumMap, NearFromShares;
    SC.ExitConserves(b, account, n, epoch, settle);
  }

  /** An exit of shares the account holds is refused only when there are none or they have no backing. */
  lemma ExitsIffBacked(b: Book, account: AccountId, n: nat, epoch: nat, settle: nat)
    requires Summed(b) && n <= SharesOf(b, account)
    ensures ExitShares(b, account, n, epoch, settle).Some? <==> n > 0 && b.v.NetStake() > 0
  {
    hide SumMap, NearFromShares;
    ValueAtMost<AccountId, nat>(b.shares, SP.Same(), account);
  }

  // ---------------------------------------------------------------------------
  // Writes
  // ---------------------------------------------------------------------------

  lemma LockWritten(locks: map<LockId, S.Lock>, id: LockId, l: S.Lock, a: AccountId, v: ValidatorId)
    ensures SumMap(locks[id := l], LockPart(a, v))
         == SumMap(locks, LockPart(a, v)) - ValueAt(locks, LockPart(a, v), id) + LockPart(a, v)(l)
  {
    hide SumMap;
    SumMapUpdate(locks, LockPart(a, v), id, l);
  }

  lemma PositionWritten(positions: map<Key, Held>, c: Catalog, key: Key, h: Held, a: AccountId, v: ValidatorId)
    ensures SumMap(Stakes(positions[key := h], c), StakePart(a, v))
         == SumMap(Stakes(positions, c), StakePart(a, v))
            - (if key in positions && key.0 == a && c(key.1) == v then positions[key].p.shares else 0)
            + (if key.0 == a && c(key.1) == v then h.p.shares else 0)
  {
    hide SumMap;
    var s := Stake(key.0, c(key.1), h.p.shares);
    assert Stakes(positions[key := h], c) == Stakes(positions, c)[key := s];
    SumMapUpdate(Stakes(positions, c), StakePart(a, v), key, s);
  }

  lemma PositionDropped(positions: map<Key, Held>, c: Catalog, key: Key, a: AccountId, v: ValidatorId)
    requires key in positions
    ensures SumMap(Stakes(positions - {key}, c), StakePart(a, v))
         == SumMap(Stakes(positions, c), StakePart(a, v))
            - (if key.0 == a && c(key.1) == v then positions[key].p.shares else 0)
  {
    hide SumMap;
    assert Stakes(positions - {key}, c) == Stakes(positions, c) - {key};
    SumMapRemove(Stakes(positions, c), StakePart(a, v), key);
  }

  /** One lock and its row change by the same number of shares. */
  lemma LockMoves(h: Holdings, c: Catalog, id: LockId, l: S.Lock, b': Book)
    requires Kept(h, c) && l.validator in h.books && Summed(b')
    requires id in h.locks ==> h.locks[id].account == l.account && h.locks[id].validator == l.validator
    requires forall a :: SharesOf(b', a) == SharesOf(h.books[l.validator], a)
               - ValueAt(h.locks, LockPart(a, l.validator), id) + LockPart(a, l.validator)(l)
    ensures Kept(h.(books := h.books[l.validator := b'], locks := h.locks[id := l]), c)
  {
    hide SumMap, SharesOf;
    var h' := h.(books := h.books[l.validator := b'], locks := h.locks[id := l]);
    forall a, v | v in h'.books ensures AccountedAt(h', c, a, v) {
      assert AccountedAt(h, c, a, v);
      LockWritten(h.locks, id, l, a, v);
    }
  }

  /** A desk whose position `key` and the row of its product change by the same number of shares. */
  lemma PositionMoves(h: Holdings, c: Catalog, key: Key, d': Desk, b': Book)
    requires Kept(h, c) && c(key.1) in h.books && Summed(b') && Formed(d') && FarmsValid(d')
    requires (key in h.desk.positions && d'.positions == h.desk.positions - {key})
             || (key in d'.positions && d'.positions == h.desk.positions[key := d'.positions[key]])
    requires forall a :: SharesOf(b', a) == SharesOf(h.books[c(key.1)], a)
               - (if key in h.desk.positions && key.0 == a then h.desk.positions[key].p.shares else 0)
               + (if key in d'.positions && key.0 == a then d'.positions[key].p.shares else 0)
    ensures Kept(h.(books := h.books[c(key.1) := b'], desk := d'), c)
  {
    hide SumMap, SharesOf, FarmsValid;
    var h' := h.(books := h.books[c(key.1) := b'], desk := d');
    forall a, v | v in h'.books ensures AccountedAt(h', c, a, v) {
      assert AccountedAt(h, c, a, v);
      if key in d'.positions {
        PositionWritten(h.desk.positions, c, key, d'.positions[key], a, v);
      } else {
        PositionDropped(h.desk.positions, c, key, a, v);
      }
    }
  }

  // ---------------------------------------------------------------------------
  // Commits
  // ---------------------------------------------------------------------------

  datatype Step =
    | CommitLock(id: LockId, lock: S.Lock)                                   // `lock` before its shares are known
    | IncreaseStake(id: LockId, deposit: nat)
    | Unlock(id: LockId, epoch: nat, settle: nat)
    | Decrease(id: LockId, target: nat, epoch: nat, settle: nat)
    | Annotate(id: LockId, lock: S.Lock)                                     // windows and orders
    | FarmStake(key: Key, price: PriceId, deposit: nat, now: nat)
    | FarmUnstake(key: Key, removed: nat, epoch: nat, settle: nat, now: nat)
    | Row(validator: ValidatorId, book: Book)                                // settlement, claims, refreshes
    | Farms(desk: Desk)                                                      // prices opened, rates set

  function Minted(b: Book, deposit: nat): nat { MintShares(b.v.totalShares, b.v.NetStake(), deposit) }

  /** `commit_catalog_lock`: the minted shares go to a new lock; nothing asks that there be any. */
  function LockCommitted(h: Holdings, id: LockId, l: S.Lock): Holdings
    requires l.validator in h.books
  {
    var b := h.books[l.validator];
    var lock := l.(shares := Minted(b, l.amount), status := S.Locked);
    match StakeIn(b, l.account, l.amount)
    case Some(b') => h.(books := h.books[l.validator := b'], locks := h.locks[id := lock])
    case None => h
  }

  /** The stake increase of a subscription update, which asks for at least one share. */
  function Increased(h: Holdings, id: LockId, deposit: nat): Holdings
    requires id in h.locks && h.locks[id].validator in h.books
  {
    var l := h.locks[id];
    var b := h.books[l.validator];
    match StakeIn(b, l.account, deposit)
    case Some(b') =>
      if Minted(b, deposit) == 0 then h
      else h.(books := h.books[l.validator := b'],
              locks := h.locks[id := l.(shares := l.shares + Minted(b, deposit), amount := l.amount + deposit)])
    case None => h
  }

  /** `resolve_unlock`. */
  function Unlocked(h: Holdings, id: LockId, epoch: nat, settle: nat): Holdings
    requires id in h.locks && h.locks[id].validator in h.books
  {
    var l := h.locks[id];
    match ExitShares(h.books[l.validator], l.account, l.shares, epoch, settle)
    case Some(b') => h.(books := h.books[l.validator := b'], locks := h.locks[id := l.(status := S.UnlockRequested)])
    case None => h
  }

  /** `apply_scheduled_stake_decrease_at_renewal`. */
  function DecreaseApplied(h: Holdings, id: LockId, target: nat, epoch: nat, settle: nat): Holdings
    requires id in h.locks && h.locks[id].validator in h.books
  {
    var l := h.locks[id];
    var b := h.books[l.validator];
    var released := S.SurplusShares(l, target, b.v);
    if released == 0 then h
    else
      match ExitShares(b, l.account, released, epoch, settle)
      case Some(b') =>
        h.(books := h.books[l.validator := b'], locks := h.locks[id := S.DecreasedLock(l, target, b.v)])
      case None => h
  }

  function FarmStaked(h: Holdings, c: Catalog, key: Key, price: PriceId, deposit: nat, now: nat): Holdings
    requires c(key.1) in h.books && Formed(h.desk) && price in h.desk.pools
  {
    var b := h.books[c(key.1)];
    match StakeIn(b, key.0, deposit)
    case Some(b') =>
      h.(books := h.books[c(key.1) := b'], desk := StakeCommitted(h.desk, key, price, Minted(b, deposit), b.v, now))
    case None => h
  }

  function FarmUnstaked(h: Holdings, c: Catalog, key: Key, removed: nat, epoch: nat, settle: nat, now: nat): Holdings
    requires c(key.1) in h.books && Formed(h.desk) && CanTake(h.desk, key, removed)
  {
    var b := h.books[c(key.1)];
    match ExitShares(b, key.0, removed, epoch, settle)
    case Some(b') =>
      h.(books := h.books[c(key.1) := b'], desk := UnstakeCommitted(h.desk, key, removed, b.v, now))
    case None => h
  }

  predicate IsOpen(h: Holdings, id: LockId) { id in h.locks && h.locks[id].status == S.Locked }

  /** The same lock as far as shares go. */
  predicate SameShares(l: S.Lock, l': S.Lock) {
    && l'.account == l.account && l'.validator == l.validator && l'.shares == l.shares && l'.status == l.status
    && l'.order.SubscriptionPeriod? == l.order.SubscriptionPeriod?
  }

  /** One commit; a call that panics changes nothing. */
  ghost function Apply(h: Holdings, c: Catalog, s: Step): Holdings
    requires Kept(h, c)
  {
    match s
    case CommitLock(id, lock) => if id in h.locks || lock.validator !in h.books then h else LockCommitted(h, id, lock)
    case IncreaseStake(id, deposit) =>
      if IsOpen(h, id) && h.locks[id].order.SubscriptionPeriod? then Increased(h, id, deposit) else h
    case Unlock(id, epoch, settle) => if IsOpen(h, id) then Unlocked(h, id, epoch, settle) else h
    case Decrease(id, target, epoch, settle) =>
      if IsOpen(h, id) then DecreaseApplied(h, id, target, epoch, settle) else h
    case Annotate(id, lock) =>
      if id in h.locks && SameShares(h.locks[id], lock) then h.(locks := h.locks[id := lock]) else h
    case FarmStake(key, price, deposit, now) =>
      if c(key.1) in h.books && price in h.desk.pools && SamePrice(h.desk, key, price) && MayCommitStake(h.desk, key)
      then FarmStaked(h, c, key, price, deposit, now) else h
    case FarmUnstake(key, removed, epoch, settle, now) =>
      if MayCommitUnstake(h.desk, key, removed) then
        TakesFromPool(h.desk, key, removed);
        FarmUnstaked(h, c, key, removed, epoch, settle, now)
      else h
    case Row(v, b) =>
      if v in h.books && b.shares == h.books[v].shares && b.v.totalShares == h.books[v].v.totalShares
      then h.(books := h.books[v := b]) else h
    case Farms(d) =>
      if d.positions == h.desk.positions && Formed(d) && FarmsValid(d) then h.(desk := d) else h
  }

  lemma LockCommittedKeeps(h: Holdings, c: Catalog, id: LockId, l: S.Lock)
    requires Kept(h, c) && id !in h.locks && l.validator in h.books
    ensures Kept(LockCommitted(h, id, l), c)
  {
    hide Kept, MintShares, SumMap;
    KeptRow(h, c, l.validator);
    var b := h.books[l.validator];
    if StakeIn(b, l.account, l.amount).Some? {
      var b' := StakeIn(b, l.account, l.amount).value;
      StakeAddsShares(b, l.account, l.amount, l.account);
      forall a ensures SharesOf(b', a) == SharesOf(b, a) + if a == l.account then Minted(b, l.amount) else 0 {
        StakeAddsShares(b, l.account, l.amount, a);
      }
      hide StakeIn, SharesOf;
      LockMoves(h, c, id, l.(shares := Minted(b, l.amount), status := S.Locked), b');
    }
  }

  lemma KeptRow(h: Holdings, c: Catalog, v: ValidatorId)
    requires Kept(h, c)
    ensures v in h.books ==> Summed(h.books[v])
    ensures forall id :: id in h.locks ==> h.locks[id].validator in h.books
    ensures forall k :: k in h.desk.positions ==> c(k.1) in h.books
    ensures Formed(h.desk) && FarmsValid(h.desk)
  {
  }

  lemma IncreasedKeeps(h: Holdings, c: Catalog, id: LockId, deposit: nat)
    requires Kept(h, c) && IsOpen(h, id) && h.locks[id].validator in h.books
    ensures Kept(Increased(h, id, deposit), c)
  {
    hide Kept, MintShares, SumMap;
    var l := h.locks[id];
    KeptRow(h, c, l.validator);
    var b := h.books[l.validator];
    if StakeIn(b, l.account, deposit).Some? && Minted(b, deposit) > 0 {
      var b' := StakeIn(b, l.account, deposit).value;
      StakeAddsShares(b, l.account, deposit, l.account);
      forall a ensures SharesOf(b', a) == SharesOf(b, a) + if a == l.account then Minted(b, deposit) else 0 {
        StakeAddsShares(b, l.account, deposit, a);
      }
      hide StakeIn, SharesOf;
      LockMoves(h, c, id, l.(shares := l.shares + Minted(b, deposit), amount := l.amount + deposit), b');
    }
  }

  /** A lock gives up `n` shares, by closing or by shrinking. */
  lemma LockExits(h: Holdings, c: Catalog, id: LockId, n: nat, l': S.Lock, epoch: nat, settle: nat)
    requires Kept(h, c) && IsOpen(h, id) && h.locks[id].validator in h.books && n <= h.locks[id].shares
    requires l'.account == h.locks[id].account && l'.validator == h.locks[id].validator
    requires (if l'.status == S.Locked then l'.shares else 0) == h.locks[id].shares - n
    requires ExitShares(h.books[l'.validator], l'.account, n, epoch, settle).Some?
    ensures var b' := ExitShares(h.books[l'.validator], l'.account, n, epoch, settle).value;
            Kept(h.(books := h.books[l'.validator := b'], locks := h.locks[id := l']), c)
  {
    hide Kept, SumMap, NearFromShares;
    KeptRow(h, c, l'.validator);
    var b := h.books[l'.validator];
    var b' := ExitShares(b, l'.account, n, epoch, settle).value;
    ExitTakesShares(b, l'.account, n, epoch, settle, l'.account);
    forall a ensures SharesOf(b', a) == SharesOf(b, a) - if a == l'.account then n else 0 {
      ExitTakesShares(b, l'.account, n, epoch, settle, a);
    }
    hide ExitShares, SharesOf;
    LockMoves(h, c, id, l', b');
  }

  lemma FarmStakedKeeps(h: Holdings, c: Catalog, key: Key, price: PriceId, deposit: nat, now: nat)
    requires Kept(h, c) && c(key.1) in h.books && price in h.desk.pools && SamePrice(h.desk, key, price)
    requires Formed(h.desk)
    ensures Kept(FarmStaked(h, c, key, price, deposit, now), c)
  {
    hide Kept, MintShares, SumMap, FarmsValid, Formed, StakeCommitted;
    KeptRow(h, c, c(key.1));
    var b := h.books[c(key.1)];
    if StakeIn(b, key.0, deposit).Some? {
      var b' := StakeIn(b, key.0, deposit).value;
      StakeAddsShares(b, key.0, deposit, key.0);
      forall a ensures SharesOf(b', a) == SharesOf(b, a) + if a == key.0 then Minted(b, deposit) else 0 {
        StakeAddsShares(b, key.0, deposit, a);
      }
      hide StakeIn, SharesOf;
      StakeWrites(h.desk, key, price, Minted(b, deposit), b.v, now);
      StakeCovers(h.desk, key, price, Minted(b, deposit), b.v, now);
      PositionMoves(h, c, key, StakeCommitted(h.desk, key, price, Minted(b, deposit), b.v, now), b');
    }
  }

  lemma FarmUnstakedKeeps(h: Holdings, c: Catalog, key: Key, removed: nat, epoch: nat, settle: nat, now: nat)
    requires Kept(h, c) && c(key.1) in h.books && Formed(h.desk) && CanTake(h.desk, key, removed)
    ensures Kept(FarmUnstaked(h, c, key, removed, epoch, settle, now), c)
  {
    hide Kept, NearFromShares, SumMap, FarmsValid, Formed, UnstakeCommitted;
    KeptRow(h, c, c(key.1));
    var b := h.books[c(key.1)];
    if ExitShares(b, key.0, removed, epoch, settle).Some? {
      var b' := ExitShares(b, key.0, removed, epoch, settle).value;
      ExitTakesShares(b, key.0, removed, epoch, settle, key.0);
      forall a ensures SharesOf(b', a) == SharesOf(b, a) - if a == key.0 then removed else 0 {
        ExitTakesShares(b, key.0, removed, epoch, settle, a);
      }
      hide ExitShares, SharesOf;
      UnstakeWrites(h.desk, key, removed, b.v, now);
      UnstakeCovers(h.desk, key, removed, b.v, now);
      PositionMoves(h, c, key, UnstakeCommitted(h.desk, key, removed, b.v, now), b');
    }
  }

  lemma DecreaseKeeps(h: Holdings, c: Catalog, id: LockId, target: nat, epoch: nat, settle: nat)
    requires Kept(h, c) && IsOpen(h, id) && h.locks[id].validator in h.books
    ensures Kept(DecreaseApplied(h, id, target, epoch, settle), c)
  {
    hide Kept, ExitShares, NearFromShares, S.SurplusShares;
    var l := h.locks[id];
    var b := h.books[l.validator];
    var released := S.SurplusShares(l, target, b.v);
    S.ReleasesAtMost(l, target, b.v);
    if released > 0 && ExitShares(b, l.account, released, epoch, settle).Some? {
      LockExits(h, c, id, released, S.DecreasedLock(l, target, b.v), epoch, settle);
    }
  }

  lemma AnnotateKeeps(h: Holdings, c: Catalog, id: LockId, l: S.Lock)
    requires Kept(h, c) && id in h.locks && SameShares(h.locks[id], l)
    ensures Kept(h.(locks := h.locks[id := l]), c)
  {
    hide SumMap, SharesOf, FarmsValid;
    var h' := h.(locks := h.locks[id := l]);
    forall a, v | v in h'.books ensures AccountedAt(h', c, a, v) {
      assert AccountedAt(h, c, a, v);
      LockWritten(h.locks, id, l, a, v);
    }
  }

  lemma RowKeeps(h: Holdings, c: Catalog, v: ValidatorId, b: Book)
    requires Kept(h, c) && v in h.books && b.shares == h.books[v].shares && b.v.totalShares == h.books[v].v.totalShares
    ensures Kept(h.(books := h.books[v := b]), c)
  {
    hide SumMap, FarmsValid;
    var h' := h.(books := h.books[v := b]);
    forall a, w | w in h'.books ensures AccountedAt(h', c, a, w) { assert AccountedAt(h, c, a, w); }
  }

  lemma FarmsKeep(h: Holdings, c: Catalog, d: Desk)
    requires Kept(h, c) && d.positions == h.desk.positions && Formed(d) && FarmsValid(d)
    ensures Kept(h.(desk := d), c)
  {
    hide SumMap, FarmsValid;
    forall a, v | v in h.books ensures AccountedAt(h.(desk := d), c, a, v) { assert AccountedAt(h, c, a, v); }
  }

  /** Every commit keeps row, locks and positions in step. */
  lemma ApplyKeeps(h: Holdings, c: Catalog, s: Step)
    requires Kept(h, c)
    ensures Kept(Apply(h, c, s), c)
  {
    hide Kept, LockCommitted, Increased, DecreaseApplied, FarmStaked, FarmUnstaked, ExitShares, FarmsValid, Formed;
    KeptRow(h, c, "");
    match s
    case CommitLock(id, lock) =>
      if id !in h.locks && lock.validator in h.books { LockCommittedKeeps(h, c, id, lock); }
    case IncreaseStake(id, deposit) => if IsOpen(h, id) { IncreasedKeeps(h, c, id, deposit); }
    case Unlock(id, epoch, settle) =>
      if IsOpen(h, id) {
        var l := h.locks[id];
        if ExitShares(h.books[l.validator], l.account, l.shares, epoch, settle).Some? {
          LockExits(h, c, id, l.shares, l.(status := S.UnlockRequested), epoch, settle);
        }
      }
    case Decrease(id, target, epoch, settle) =>
      if IsOpen(h, id) { DecreaseKeeps(h, c, id, target, epoch, settle); }
    case Annotate(id, lock) => if id in h.locks && SameShares(h.locks[id], lock) { AnnotateKeeps(h, c, id, lock); }
    case FarmStake(key, price, deposit, now) =>
      if c(key.1) in h.books && price in h.desk.pools && SamePrice(h.desk, key, price) {
        FarmStakedKeeps(h, c, key, price, deposit, now);
      }
    case FarmUnstake(key, removed, epoch, settle, now) =>
      if MayCommitUnstake(h.desk, key, removed) {
        TakesFromPool(h.desk, key, removed);
        FarmUnstakedKeeps(h, c, key, removed, epoch, settle, now);
      }
    case Row(v, b) =>
      if v in h.books && b.shares == h.books[v].shares && b.v.totalShares == h.books[v].v.totalShares {
        RowKeeps(h, c, v, b);
      }
    case Farms(d) => if d.positions == h.desk.positions && Formed(d) && FarmsValid(d) { FarmsKeep(h, c, d); }
  }

  // ---------------------------------------------------------------------------
  // Runs
  // ---------------------------------------------------------------------------

  ghost function Run(h: Holdings, c: Catalog, steps: seq<Step>): Holdings
    requires Kept(h, c)
    decreases |steps|
  {
    if steps == [] then h
    else
      ApplyKeeps(h, c, steps[0]);
      Run(Apply(h, c, steps[0]), c, steps[1..])
  }

  lemma {:induction false} RunKeeps(h: Holdings, c: Catalog, steps: seq<Step>)
    requires Kept(h, c)
    ensures Kept(Run(h, c, steps), c)
    decreases |steps|
  {
    hide Kept, Apply;
    if steps != [] {
      ApplyKeeps(h, c, steps[0]);
      RunKeeps(Apply(h, c, steps[0]), c, steps[1..]);
    }
  }

  /** Validators without shares, locks or farms. */
  function Opened(rows: map<ValidatorId, Validator>): Holdings {
    Holdings(map v | v in rows :: Book(rows[v].(totalShares := 0), map[], map[]), map[],
             Desk(map[], map[], map[], map[], map[]))
  }

  lemma OpenedKeeps(rows: map<ValidatorId, Validator>, c: Catalog)
    ensures Kept(Opened(rows), c)
  {
    var h := Opened(rows);
    forall a, v | v in h.books ensures AccountedAt(h, c, a, v) {
      assert Stakes(h.desk.positions, c) == map[];
      SumMapEmpty(Stakes(h.desk.positions, c), StakePart(a, v));
    }
  }

  /** On every run, for every account and validator, `user_validator_shares` is what the account's open locks and its
      farm positions hold there. */
  lemma SharesAreHeld(rows: map<ValidatorId, Validator>, c: Catalog, steps: seq<Step>, a: AccountId, v: ValidatorId)
    ensures Kept(Opened(rows), c)
    ensures var h := Run(Opened(rows), c, steps);
            v in h.books ==> SharesOf(h.books[v], a) == InLocks(h, a, v) + InFarms(h, c, a, v)
  {
    OpenedKeeps(rows, c);
    RunKeeps(Opened(rows), c, steps);
    hide InLocks, InFarms, Run, SharesOf;
    var h := Run(Opened(rows), c, steps);
    if v in h.books { assert AccountedAt(h, c, a, v); }
  }

  // ---------------------------------------------------------------------------
  // Exits
  // ---------------------------------------------------------------------------

  lemma LockIsHeld(h: Holdings, c: Catalog, id: LockId)
    requires Kept(h, c) && IsOpen(h, id)
    ensures var l := h.locks[id]; l.validator in h.books && l.shares <= SharesOf(h.books[l.validator], l.account)
  {
    hide SumMap, SharesOf, FarmsValid;
    var l := h.locks[id];
    assert AccountedAt(h, c, l.account, l.validator);
    ValueAtMost(h.locks, LockPart(l.account, l.validator), id);
  }

  /** An open lock can be unlocked exactly when it has shares and they have backing: never for lack of share balance. */
  lemma UnlockIff(h: Holdings, c: Catalog, id: LockId, epoch: nat, settle: nat)
    requires Kept(h, c) && IsOpen(h, id)
    ensures var l := h.locks[id];
            && l.validator in h.books
            && (ExitShares(h.books[l.validator], l.account, l.shares, epoch, settle).Some? <==>
                  l.shares > 0 && h.books[l.validator].v.NetStake() > 0)
  {
    hide ExitShares, SharesOf, FarmsValid;
    LockIsHeld(h, c, id);
    ExitsIffBacked(h.books[h.locks[id].validator], h.locks[id].account, h.locks[id].shares, epoch, settle);
  }

  /** A scheduled decrease that has shares to release is never refused. */
  lemma DecreaseGoesThrough(h: Holdings, c: Catalog, id: LockId, target: nat, epoch: nat, settle: nat)
    requires Kept(h, c) && IsOpen(h, id)
    ensures var l := h.locks[id];
            && l.validator in h.books
            && var released := S.SurplusShares(l, target, h.books[l.validator].v);
               released > 0 ==> ExitShares(h.books[l.validator], l.account, released, epoch, settle).Some?
  {
    hide ExitShares, SharesOf, FarmsValid;
    LockIsHeld(h, c, id);
    var l := h.locks[id];
    var b := h.books[l.validator];
    S.ReleasesAtMost(l, target, b.v);
    if S.SurplusShares(l, target, b.v) > 0 {
      BackedIfWorth(l.shares, b.v);
      ExitsIffBacked(b, l.account, S.SurplusShares(l, target, b.v), epoch, settle);
    }
  }

  lemma BackedIfWorth(shares: nat, v: Validator)
    requires NearFromShares(shares, v.NetStake(), v.totalShares) > 0
    ensures v.NetStake() > 0
  {
  }

  /** A farm position can give up shares it holds exactly when they have backing. */
  lemma FarmExitIff(h: Holdings, c: Catalog, key: Key, removed: nat, epoch: nat, settle: nat)
    requires Kept(h, c) && MayCommitUnstake(h.desk, key, removed)
    ensures c(key.1) in h.books
    ensures ExitShares(h.books[c(key.1)], key.0, removed, epoch, settle).Some? <==> h.books[c(key.1)].v.NetStake() > 0
  {
    hide ExitShares, SharesOf, FarmsValid, SumMap;
    var v := c(key.1);
    assert AccountedAt(h, c, key.0, v);
    ValueAtMost(Stakes(h.desk.positions, c), StakePart(key.0, v), key);
    ExitsIffBacked(h.books[v], key.0, removed, epoch, settle);
  }

  // ---------------------------------------------------------------------------
  // Locks without shares
  // ---------------------------------------------------------------------------

  predicate IsEmptyLock(h: Holdings, id: LockId) { IsOpen(h, id) && h.locks[id].shares == 0 }

  /** A committed lock is left without shares exactly when its deposit is worth less than one; the row then keeps the
      deposit for the shares there are. */
  lemma LockIsEmptyIff(h: Holdings, id: LockId, l: S.Lock)
    requires l.validator in h.books && l.amount > 0 && StakeIn(h.books[l.validator], l.account, l.amount).Some?
    ensures var h', v := LockCommitted(h, id, l), h.books[l.validator].v;
            && (IsEmptyLock(h', id) <==> MintsNothing(v, l.amount))
            && (IsEmptyLock(h', id) ==>
                  && h'.books[l.validator].v.totalShares == v.totalShares
                  && h'.books[l.validator].v.toStake == v.toStake + l.amount)
  {
    MintsNothingIff(h.books[l.validator].v, l.amount);
  }

  /** A purchase lock without shares. */
  predicate IsDeadLock(h: Holdings, id: LockId) { IsEmptyLock(h, id) && h.locks[id].order.ProductPurchase? }

  lemma DeadLockStays(h: Holdings, c: Catalog, s: Step, id: LockId)
    requires Kept(h, c) && IsDeadLock(h, id)
    ensures IsDeadLock(Apply(h, c, s), id)
  {
    hide Kept, StakeCommitted, UnstakeCommitted, Formed, FarmsValid, StakeIn, MintShares;
    KeptRow(h, c, "");
    if s.Unlock? && s.id == id { EmptyExits(h.books[h.locks[id].validator], h.locks[id].account, s.epoch, s.settle); }
    if s.Decrease? && s.id == id { S.ReleasesAtMost(h.locks[id], s.target, h.books[h.locks[id].validator].v); }
  }

  lemma EmptyExits(b: Book, account: AccountId, epoch: nat, settle: nat)
    ensures ExitShares(b, account, 0, epoch, settle).None?
  {
  }

  /** It stays open on every run, and can never be unlocked. */
  lemma {:induction false} DeadLockForever(h: Holdings, c: Catalog, steps: seq<Step>, id: LockId, epoch: nat,
                                           settle: nat)
    requires Kept(h, c) && IsDeadLock(h, id)
    ensures var h' := Run(h, c, steps);
            && IsDeadLock(h', id) && h'.locks[id].validator in h'.books
            && Unlocked(h', id, epoch, settle) == h'
    decreases |steps|
  {
    hide Kept, Apply;
    KeptRow(h, c, "");
    EmptyExits(h.books[h.locks[id].validator], h.locks[id].account, epoch, settle);
    if steps != [] {
      ApplyKeeps(h, c, steps[0]);
      DeadLockStays(h, c, steps[0], id);
      DeadLockForever(Apply(h, c, steps[0]), c, steps[1..], id, epoch, settle);
    }
  }

  /** For every deposit there is an on-time run of the pipeline on which a lock commits and is left without shares. */
  lemma EmptyLockIsReached(h: Holdings, id: LockId, l: S.Lock, who: AccountId, amount: nat, p: SP.Params)
    returns (n: nat, evs: seq<SP.Event>, s: SP.System)
    requires l.amount > 0 && amount >= 2
    ensures SL.Reached(n, evs, s, p) && s.phase == Tail(Lock(l.account, l.amount))
    ensures IsEmptyLock(LockCommitted(h.(books := h.books[l.validator := s.b]), id, l), id)
  {
    n, evs, s := ZeroMintReached(who, amount, l.account, l.amount, p);
    hide SL.Reached;
    LockIsEmptyIff(h.(books := h.books[l.validator := s.b]), id, l);
  }
}
