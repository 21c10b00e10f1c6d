/** One validator row of the staking contract: share pricing, the four NEAR buckets, user tranches, and
    the contract's half of every pipeline callback, each as a function of the stored state. */
module StakingBook {
  import opened Options

  type AccountId = string

  datatype TxStatus = Idle | Busy

  datatype Validator = Validator(
    totalShares: nat,
    staked: nat,       // total_staked_balance, the cached balance at the pool
    toStake: nat,      // pending_to_stake
    toUnstake: nat,    // pending_to_unstake
    toWithdraw: nat,   // pending_to_withdraw
    toClaim: nat,      // pending_to_claim
    lastUnstake: nat,
    lastSettle: nat,
    tx: TxStatus)
  {
    /** Gross stake less the user liability still outside the contract, saturating at zero. */
    function NetStake(): nat {
      if staked + toStake >= toUnstake + toWithdraw
      then staked + toStake - toUnstake - toWithdraw
      else 0
    }
  }

  datatype Tranche = Tranche(amount: nat, available: nat)

  /** Everything the contract stores for one validator. */
  datatype Book = Book(v: Validator, shares: map<AccountId, nat>, tranches: map<AccountId, seq<Tranche>>)

  // ---------------------------------------------------------------------------
  // Share pricing
  // ---------------------------------------------------------------------------

  function MintShares(totalShares: nat, effective: nat, deposit: nat): nat {
    if totalShares == 0 || effective == 0 then deposit else deposit * totalShares / effective
  }

  function NearFromShares(shares: nat, effective: nat, totalShares: nat): nat {
    if totalShares == 0 then 0 else shares * effective / totalShares
  }

  // ---------------------------------------------------------------------------
  // User tails
  // ---------------------------------------------------------------------------

  function Max(a: nat, b: nat): nat { if a >= b then a else b }

  function SharesOf(b: Book, account: AccountId): nat {
    if account in b.shares then b.shares[account] else 0
  }

  function TranchesOf(b: Book, account: AccountId): seq<Tranche> {
    if account in b.tranches then b.tranches[account] else []
  }

  /** The first epoch in which a tranche created now may be withdrawn. */
  function AvailableEpoch(v: Validator, epoch: nat, settle: nat): nat {
    Max(epoch + 1, v.lastUnstake + settle) + settle
  }

  /** `internal_stake`: mint shares for a deposit and queue it for the pool; `None` is a panic. */
  function StakeIn(b: Book, buyer: AccountId, deposit: nat): Option<Book> {
    var v := b.v;
    if v.totalShares > 0 && v.NetStake() == 0 then None
    else
      var minted := MintShares(v.totalShares, v.NetStake(), deposit);
      Some(b.(v := v.(totalShares := v.totalShares + minted, toStake := v.toStake + deposit),
              shares := b.shares[buyer := SharesOf(b, buyer) + minted]))
  }

  /** The account's share entry after burning `n`, dropped when it reaches zero. */
  function BurnFrom(shares: map<AccountId, nat>, account: AccountId, n: nat): map<AccountId, nat>
    requires account in shares && shares[account] >= n
  {
    if shares[account] == n then shares - {account} else shares[account := shares[account] - n]
  }

  /** `internal_unstake`: burn shares at the current price and queue the NEAR as a new tranche. */
  function ExitShares(b: Book, account: AccountId, n: nat, epoch: nat, settle: nat): Option<Book> {
    var v := b.v;
    if n == 0 || v.totalShares < n || v.NetStake() == 0 || SharesOf(b, account) < n then None
    else
      var amount := NearFromShares(n, v.NetStake(), v.totalShares);
      Some(b.(v := v.(totalShares := v.totalShares - n, toUnstake := v.toUnstake + amount),
              shares := BurnFrom(b.shares, account, n),
              tranches := b.tranches[account :=
                TranchesOf(b, account) + [Tranche(amount, AvailableEpoch(v, epoch, settle))]]))
  }

  function Claimable(ts: seq<Tranche>, epoch: nat): nat {
    if ts == [] then 0
    else (if epoch >= ts[0].available then ts[0].amount else 0) + Claimable(ts[1..], epoch)
  }

  function Unclaimable(ts: seq<Tranche>, epoch: nat): seq<Tranche> {
    if ts == [] then []
    else if epoch >= ts[0].available then Unclaimable(ts[1..], epoch)
    else [ts[0]] + Unclaimable(ts[1..], epoch)
  }

  function StoreTranches(m: map<AccountId, seq<Tranche>>, account: AccountId, ts: seq<Tranche>)
    : map<AccountId, seq<Tranche>>
  {
    if ts == [] then m - {account} else m[account := ts]
  }

  /** `claim_from_withdraw_bucket`: the new book and the NEAR paid out; `None` is a panic. */
  function Claim(b: Book, account: AccountId, epoch: nat): Option<(Book, nat)> {
    var credit := Claimable(TranchesOf(b, account), epoch);
    if b.v.toClaim == 0 || credit == 0 || b.v.toClaim < credit then None
    else Some((b.(v := b.v.(toClaim := b.v.toClaim - credit),
                  tranches := StoreTranches(b.tranches, account, Unclaimable(TranchesOf(b, account), epoch))),
               credit))
  }

  // ---------------------------------------------------------------------------
  // Settlement steps
  // ---------------------------------------------------------------------------

  /** What `try_epoch_stake_or_unstake` does with the pending buckets. */
  datatype Decision =
    | Leave(v: Validator)      // no pool call; go on to the user tail
    | CallStake(net: nat)
    | CallUnstake(net: nat)

  predicate WaitingFinished(v: Validator, epoch: nat, settle: nat) {
    v.lastUnstake > 0 && epoch >= v.lastUnstake + settle
  }

  /** Equal pending buckets cancel inside the contract and fund the claim bucket. */
  function NetZeroClear(v: Validator, epoch: nat): Validator {
    v.(toStake := 0, toUnstake := 0, toClaim := v.toClaim + v.toUnstake, lastSettle := epoch)
  }

  function Decide(v: Validator, epoch: nat, settle: nat): Decision {
    if v.lastSettle >= epoch then Leave(v)
    else if v.toStake == 0 && v.toUnstake == 0 then Leave(v.(lastSettle := epoch))
    else if v.toStake == v.toUnstake then Leave(NetZeroClear(v, epoch))
    else if v.toStake > v.toUnstake then CallStake(v.toStake - v.toUnstake)
    else if v.lastUnstake > 0 && !WaitingFinished(v, epoch, settle) then Leave(v.(lastSettle := epoch))
    else CallUnstake(v.toUnstake - v.toStake)
  }

  /** After a successful pool `withdraw` of `amount`; `None` is the recorded-balance panic. */
  function CreditWithdrawal(v: Validator, amount: nat): Option<Validator> {
    if v.staked < amount then None
    else Some(v.(staked := v.staked - amount,
                 toWithdraw := if v.toWithdraw >= amount then v.toWithdraw - amount else 0,
                 toClaim := v.toClaim + amount))
  }

  /** After a successful pool `deposit_and_stake`; `None` is the callback's panic. */
  function AfterStake(v: Validator, epoch: nat): Option<Validator> {
    if v.toStake <= v.toUnstake then None
    else Some(v.(staked := v.staked + (v.toStake - v.toUnstake),
                 toClaim := v.toClaim + v.toUnstake,
                 toStake := 0, toUnstake := 0, lastSettle := epoch))
  }

  /** After a successful pool `unstake`; `None` is the callback's panic. */
  function AfterUnstake(v: Validator, epoch: nat): Option<Validator> {
    if v.toUnstake <= v.toStake then None
    else Some(v.(toWithdraw := v.toWithdraw + (v.toUnstake - v.toStake),
                 toClaim := v.toClaim + v.toStake,
                 toStake := 0, toUnstake := 0, lastUnstake := epoch, lastSettle := epoch))
  }

  // ---------------------------------------------------------------------------
  // The promise chain
  // ---------------------------------------------------------------------------

  /** The user action a pipeline carries to its tail. */
  datatype Action =
    | Lock(buyer: AccountId, deposit: nat)     // catalog lock, recurring lock, farm stake
    | Update(buyer: AccountId, deposit: nat)   // subscription update
    | Exit(account: AccountId, shares: nat)    // unlock, farm unstake
    | Withdraw(account: AccountId)
    | SettleOnly
  {
    predicate Payable() { Lock? || Update? }

    /** NEAR attached at entry and owed back if the tail does not commit. */
    function Deposit(): nat { if Payable() then deposit else 0 }
  }

  datatype PoolView = PoolView(staked: nat, unstaked: nat, canWithdraw: bool)

  /** Which receipt of the chain comes next. `Await*` runs at the pool, every other one in the contract. */
  datatype Phase =
    | Ready
    | AwaitAccount(a: Action)
    | GotAccount(a: Action, reply: Option<PoolView>)
    | AwaitWithdraw(a: Action, amount: nat)
    | GotWithdraw(a: Action, amount: nat, ok: bool)
    | AfterWithdraw(a: Action, ok: bool)
    | AwaitStake(a: Action, amount: nat)
    | GotStake(a: Action, amount: nat, ok: bool)
    | AwaitUnstake(a: Action, amount: nat)
    | GotUnstake(a: Action, amount: nat, ok: bool)
    | Dispatch(a: Action)
    | Tail(a: Action)
    | Release(a: Action, ok: bool)

  /** Step 4: the user tail, or the release at once when there is none. */
  function DispatchTo(a: Action): Phase {
    if a.SettleOnly? then Release(a, false) else Tail(a)
  }

  /** Step 0: take the mutex, then refresh from the pool unless this epoch is settled already. */
  function Begin(b: Book, a: Action, epoch: nat): (Book, Phase) {
    (b.(v := b.v.(tx := Busy)), if b.v.lastSettle < epoch then AwaitAccount(a) else DispatchTo(a))
  }

  /** Step 3. */
  function Settle(b: Book, a: Action, epoch: nat, settle: nat): (Book, Phase) {
    match Decide(b.v, epoch, settle)
    case Leave(v) => (b.(v := v), DispatchTo(a))
    case CallStake(net) => (b, AwaitStake(a, net))
    case CallUnstake(net) => (b, AwaitUnstake(a, net))
  }

  /** Step 1 with a reply: refresh the cached balance, pull withdrawable NEAR first, else settle. */
  function OnPoolAccount(b: Book, a: Action, view: PoolView, epoch: nat, settle: nat): (Book, Phase) {
    var synced := b.(v := b.v.(staked := view.unstaked + view.staked));
    if view.unstaked > 0 && view.canWithdraw then (synced, AwaitWithdraw(a, view.unstaked))
    else Settle(synced, a, epoch, settle)
  }

  /** Step 2b. A panic in the callback reaches step 2c as a failed withdrawal. */
  function OnWithdrawn(b: Book, a: Action, amount: nat, ok: bool): (Book, Phase) {
    match (if ok then CreditWithdrawal(b.v, amount) else None)
    case Some(v) => (b.(v := v), AfterWithdraw(a, true))
    case None => (b, AfterWithdraw(a, false))
  }

  /** Step 2c. */
  function OnAfterWithdraw(b: Book, a: Action, ok: bool, epoch: nat, settle: nat): (Book, Phase) {
    if ok then Settle(b, a, epoch, settle) else (b, DispatchTo(a))
  }

  /** Step 3b. */
  function OnStaked(b: Book, a: Action, ok: bool, epoch: nat): (Book, Phase) {
    match (if ok then AfterStake(b.v, epoch) else None)
    case Some(v) => (b.(v := v), Dispatch(a))
    case None => (b, Dispatch(a))
  }

  /** Step 3c. */
  function OnUnstaked(b: Book, a: Action, ok: bool, epoch: nat): (Book, Phase) {
    match (if ok then AfterUnstake(b.v, epoch) else None)
    case Some(v) => (b.(v := v), Dispatch(a))
    case None => (b, Dispatch(a))
  }

  /** Step 5: the new book and the NEAR sent to the user. `release` is the number of shares a due stake
      decrease gives up first; `keep` is an update that changes the plan for its one yocto. */
  function RunTail(b: Book, a: Action, release: nat, keep: bool, epoch: nat, settle: nat): Option<(Book, nat)> {
    match a
    case Lock(buyer, deposit) => Pay(StakeAfterRelease(b, buyer, deposit, release, epoch, settle))
    case Update(buyer, deposit) =>
      if keep then (if deposit == 1 then Pay(ReleaseDue(b, buyer, release, epoch, settle)) else None)
      else Pay(StakeAfterRelease(b, buyer, deposit, release, epoch, settle))
    case Exit(account, shares) => Pay(ExitShares(b, account, shares, epoch, settle))
    case Withdraw(account) => Claim(b, account, epoch)
    case SettleOnly => None
  }

  function Pay(b: Option<Book>): Option<(Book, nat)> {
    match b
    case Some(book) => Some((book, 0))
    case None => None
  }

  function ReleaseDue(b: Book, buyer: AccountId, release: nat, epoch: nat, settle: nat): Option<Book> {
    if release == 0 then Some(b) else ExitShares(b, buyer, release, epoch, settle)
  }

  function StakeAfterRelease(b: Book, buyer: AccountId, deposit: nat, release: nat, epoch: nat,
                             settle: nat): Option<Book> {
    match ReleaseDue(b, buyer, release, epoch, settle)
    case Some(freed) => StakeIn(freed, buyer, deposit)
    case None => None
  }

  function Unlock(b: Book): Book { b.(v := b.v.(tx := Idle)) }
}
