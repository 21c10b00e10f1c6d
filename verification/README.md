# House of Stake contracts: a verified model

This project models, in Dafny 4.11, the five state machines that the contracts rest on, and proves what they are
for:

* **Staking** (`Staking*.dfy`): the settlement pipeline between the staking contract and an external staking pool,
  as a machine over promises and callbacks whose every outcome is chosen freely. The pool is an exact ledger:
  `unstake` moves staked to unstaked NEAR, rewards only raise the stake, withdrawal opens after a fixed delay, a
  failed `deposit_and_stake` refunds.
* **veNEAR** (`Venear*.dfy`): balances that grow lazily, partial delegations kept in per-delegate pools, the global
  total, and the migration that recomputes the pools.
* **Merkle tree** (`Merkle*.dfy`): the persistent tree of accounts, its proofs and its end-of-previous-block snapshots,
  over an arbitrary hash function.
* **Voting** (`Voting*.dfy`): proposals that advance with the clock, the bounded active set fed by a queue with
  backdated starts, the views of it, and the tally of votes proved against a snapshot.
* **Billing and farms** (`Calendar.dfy`, `Subscription.dfy`, `Farm*.dfy`, `Holdings.dfy`): dates and calendar months,
  subscription updates that are shown before they are stored, what farm stakes earn, and the shares that locks and farm
  positions hold of the validators' rows.

`MapSums.dfy`, `Arith.dfy` and `Options.dfy` hold the sums over maps, the few facts about products and quotients and the
optional values that the others share. `dafny verify dfyconfig.toml` checks everything.

State that a contract updates in place is a class (`StakingContract.Contract`, `VenearContract.Contract`,
`MerkleTree.Tree`, `VotingSnapshot.Contract`, `VotingContract.Contract`, `VotingBallot.Ballot`, `Subscription.Billing`,
`FarmContract.Contract`). Each of its methods is proved against a function or a predicate of the stored state, and the
theorems are about those: invariants of every run, and laws that say what the functions compute without repeating them,
such as prices as floors, statuses against the clock, dates by the calendar and rewards in whole units. Amounts are
unbounded naturals. A panic is a `None`, a `false` or an outcome of its own, and leaves the state as it was.

Some properties do not hold of the code for all inputs. Each has an input on which it fails and the exact condition under
which it holds:

* The exit promise fails for two kinds of parameters. With `epoch_unstake_settle_epochs` at zero a tranche is due in the
  very epoch whose settlement only starts its unstake, and with a pool slower than that setting it is due before the pool
  opens; the setter has no lower bound. `StakingExitLimit.PromiseBroken` gives the runs,
  `StakingExitLimit.PromiseIffPoolIsInTime` the condition.
* The effective lock is not stable under commits. Once a due update is stored, its pending record is gone and the view
  shows the stored lock, whose window stays in the billing period of the commit, while the subscription's own view moves
  on. Every change of plan leads there one billing period later (`Subscription.LockViewGoesStale`);
  `Subscription.LockTwiceIff` is the condition.
* Projecting a stake decrease twice can release more than once (`Subscription.DecreaseTwiceReleasesMore`, with the
  condition in `Subscription.DecreaseTwiceIff`). The code itself never does: a decrease is projected only while its
  update is pending, and storing it removes the update.
* `commit_farm_stake` does not check again that an existing position has the price it is committing for. Shares and pool
  totals agree after it exactly when it has (`FarmDesk.StakeBalancesIff`); the Busy flag between the entry check and the
  commit is what makes it so on every run (`FarmRuns.FarmSharesAddUp`).
* Neither a lock nor a farm stake checks that its deposit minted a share. One that is worth less than a share opens an
  empty lock, or a position on which every later stake and unstake panics, and backs the other holders
  (`FarmRuns.DepositSticksIff`, `Holdings.LockIsEmptyIff`); nothing frees the position, or the lock of a product purchase
  (`FarmRuns.StuckForever`, `Holdings.DeadLockForever`). No minimum deposit rules this out: every deposit has an on-time
  run that leads there (`StakingZeroMint.ZeroMintReached`, `FarmRuns.StuckIsReached`, `Holdings.EmptyLockIsReached`).
* After `max_active_proposals` is lowered below the slots held, an advance forgets the slots it does not fill, and what
  a later one does depends on whether it took place. `VotingOverfull.AdvanceTwiceIff` is the condition, for every board
  between calls, and `VotingLoweredCap.OrderMatters` a run that leads there.
* The window loop of a subscription does not end when the clock is at the last 64-bit nanosecond, and only then
  (`Calendar.LoopEndsIff`).

## Model

| member | source | states |
|---|---|---|
| `StakingExit.ExitPromise` | staking-contract/src/validators.rs:291-316 | On every run in which each epoch is settled before user actions, settlements finish in their epoch and the pool's delay is at most the settlement delay, the claim bucket covers all epoch-eligible tranches once the epoch is settled |
| `StakingExit.WithdrawPays` | staking-contract/src/withdraw.rs:187-220 | On those runs a withdrawal that reaches its tail pays the account everything that is due: the bucket is never short |
| `StakingExit.ClaimIff` | staking-contract/src/withdraw.rs:164-220 | A claim goes through exactly when something is due and the bucket covers it, pays all of it, and leaves what is still to come |
| `StakingExitLimit.PromiseBroken` | staking-contract/src/validators.rs:306-316 | For a settlement delay of zero, and for every pool slower than the settlement delay, every account and every positive amount locked has an on-time run after which the eligible tranches exceed the bucket |
| `StakingExitLimit.PromiseIffPoolIsInTime` | staking-contract/src/validators.rs:291-316 | For all parameters, the promise holds on all on-time runs if and only if the settlement delay is at least one and the pool is no slower than it |
| `StakingConservation.RunConserves` | staking-contract/src/epoch.rs:299-556 | After any interleaving of successes and failures: tranches sum to the three exit buckets, contract cash and the pool's ledger are accounted for by the buckets and the step in flight, and gross stake covers the exits |
| `StakingConservation.AtRestTheBooksBalance` | staking-contract/src/types.rs:161-192 | Between pipelines, tranches = U + W + C, cash = S + C, pool unstaked = W and T + S >= U + W |
| `StakingConservation.UnstakeIsCovered` | staking-contract/src/epoch.rs:361-429 | A settlement never asks the pool to unstake more than is staked there |
| `StakingConservation.CallbacksNeverPanic` | staking-contract/src/epoch.rs:453-556 | No subtraction in a settlement callback underflows on a reachable state |
| `StakingConservation.ExitConserves` | staking-contract/src/validators.rs:369-447 | Burning shares moves exactly the tranche's NEAR into the unstake bucket and keeps the row balanced |
| `StakingConservation.ClaimConserves` | staking-contract/src/withdraw.rs:164-220 | A claim takes exactly the removed tranches out of the claim bucket |
| `StakingSettlement.SettlementStakes` | staking-contract/src/epoch.rs:361-429 | More to stake than to unstake: three successful receipts raise the pool's stake by exactly the difference, fund the exits and empty both buckets, whether or not an unstake is waiting |
| `StakingSettlement.SettlementUnstakes` | staking-contract/src/epoch.rs:361-429 | More to unstake and no earlier unstake waiting: three successful receipts unstake exactly the difference, fund part of the exits and empty both buckets |
| `StakingSettlement.SettlementStays` | staking-contract/src/epoch.rs:361-429 | Equal buckets cancel without a pool call; while an earlier unstake waits they are left for a later epoch |
| `StakingSettlement.NothingIsLeftBehind` | staking-contract/src/epoch.rs:337-429 | On every on-time run, for all parameters: once the epoch is settled the pending buckets hold exactly the deposits and exits of this epoch, unless an earlier unstake is waiting, and then older exits exceed older deposits |
| `StakingSafety.ChainEnds` | staking-contract/src/epoch.rs:562-813 | From any state, whatever the pool calls and the tail return, ten receipts bring the validator back to Idle |
| `StakingSafety.EveryActionHasOneOutcome` | staking-contract/src/types.rs:568-582 | On every run each admitted action has one outcome, in order; a payable one committed or was refunded exactly its deposit, and the row is Idle exactly between actions |
| `StakingSafety.PoolOpsAreSpaced` | staking-contract/src/epoch.rs:337-429 | At most one pool stake or unstake takes effect per epoch, and unstakes are at least the settlement delay apart |
| `StakingSafety.PlanChangeCostsOneYocto` | staking-contract/src/subscriptions.rs:1134-1142 | A change of plan keeps exactly one yocto, and no other step keeps a fee |
| `StakingPrice.PriceNeverFalls` | staking-contract/src/validators.rs:320-447 | On every run with shares outstanding throughout, net stake per share never falls |
| `StakingPrice.SettlementKeepsNet` | staking-contract/src/epoch.rs:453-556 | Settlement callbacks leave the net stake unchanged |
| `StakingPrice.SplitExitPaysNoMore` | staking-contract/src/utils.rs:45-51 | Exiting in two parts never pays more than exiting at once |
| `StakingPrice.StakeThenExitReturnsNoMore` | staking-contract/src/utils.rs:35-51 | Staking into a pool with shares and exiting at once never returns more than the deposit |
| `StakingPrice.StakeThenExitLosesLittle` | staking-contract/src/utils.rs:35-51 | Nor does it lose more than one share's price and a yocto |
| `StakingPrice.MintHolds` | staking-contract/src/validators.rs:320-366 | A mint never lowers net stake per share |
| `StakingPrice.BurnHolds` | staking-contract/src/validators.rs:369-447 | A burn never lowers net stake per share of the shares that remain |
| `StakingPrice.StakeIsPriced` | staking-contract/src/validators.rs:320-366 | A stake buys all whole shares its deposit pays for at the net stake per share, queues the deposit, changes nobody else's shares, and is refused exactly when shares exist without net stake |
| `StakingPrice.ExitIsPriced` | staking-contract/src/validators.rs:369-447 | An exit pays all whole yocto its shares are worth, as the last tranche of the account, changes nobody else's shares or tranches, and is refused exactly in the source's cases |
| `StakingContract.Contract.InternalStake` | staking-contract/src/validators.rs:320-366 | The row and share map become those of the specified stake, or nothing changes on a panic; a balanced row stays balanced |
| `StakingContract.Contract.InternalUnstake` | staking-contract/src/validators.rs:369-447 | The row, share map and tranche list become those of the specified exit, or nothing changes on a panic; a balanced row stays balanced |
| `StakingContract.Contract.RemoveClaimableTranches` | staking-contract/src/withdraw.rs:164-185 | The tranches that are not due are kept, in order, and the sum of the others is returned |
| `StakingContract.SplitTranches` | staking-contract/src/withdraw.rs:164-185 | The loop over the tranches keeps exactly those that are not due and totals the rest |
| `StakingContract.Contract.ClaimFromWithdrawBucket` | staking-contract/src/withdraw.rs:187-220 | A claim pays what is due out of the claim bucket, or changes nothing when the bucket is short; a balanced row stays balanced |
| `StakingContract.Contract.BeginPipeline` | staking-contract/src/epoch.rs:170-192 | Starting a pipeline takes the Busy flag, or is refused while another one runs |
| `StakingContract.Contract.AfterPoolAccount` | staking-contract/src/epoch.rs:204-248 | The refreshed row and the next call to the pool are the specified ones; a refresh that does not fall keeps the row balanced |
| `StakingContract.Contract.OnWithdrawTransferDone` | staking-contract/src/epoch.rs:299-331 | A successful pool withdrawal moves NEAR from the withdraw to the claim bucket; a row with that much awaiting withdrawal stays balanced |
| `StakingContract.Contract.TryStakeOrUnstake` | staking-contract/src/epoch.rs:361-429 | The settlement decision taken and the row it leaves are the ones whose effect the four `StakingSettlement` laws state; a balanced row stays balanced |
| `StakingContract.Contract.OnDepositAndStake` | staking-contract/src/epoch.rs:484-515 | The stake callback books a success and leaves the buckets alone on failure; a balanced row stays balanced |
| `StakingContract.Contract.OnUnstake` | staking-contract/src/epoch.rs:521-556 | The unstake callback books a success, stamps its epoch, and leaves the buckets alone on failure; a balanced row stays balanced |
| `VenearBalance.CalculateIsLinear` | common/src/venear.rs:29-61 | With an exact rate growth never panics and is linear in whole seconds and whole milliNEAR |
| `VenearBalance.GrowthNeverPanicsIffExact` | common/src/venear.rs:29-61 | The rounding check never fires on ordered whole-second stamps if and only if a milliNEAR earns whole yocto each second |
| `VenearBalance.ContributionCommutesWithGrowth` | common/src/types.rs:67-83 | A share of a grown balance is the grown share, exactly, for every balance and every bps |
| `VenearPower.ContributionIsShare` | common/src/types.rs:67-83 | A delegate is credited with its bps of the NEAR, down to whole milliNEAR, and with that part of the extra veNEAR, rounded down |
| `VenearPower.FullShare` | common/src/types.rs:67-83 | A delegation of 10000 bps hands over all but the NEAR below a milliNEAR |
| `VenearBalance.PooledCommutesWithGrowth` | common/src/types.rs:144-166 | Entering a balance into the pooled total commutes with growth and keeps its sum |
| `VenearLedger.LedgerOverTime` | common/src/types.rs:168-174 | If every pool holds what is owed to it at one time, it does at every later time, for accounts last touched at different times |
| `VenearLedger.CreditFits` | common/src/types.rs:172-174 | A contribution never exceeds the pool it sits in, so no pool subtraction underflows |
| `VenearLedger.GivenAwayFits` | common/src/account.rs:106-112 | An owner's contributions never exceed its balance in either component when the bps total at most 10000 |
| `VenearSupply.OwnedTotal` | common/src/account.rs:106-112 | The loop of checked subtractions never underflows and computes the account's voting power |
| `VenearSupply.PowerIsConserved` | venear-contract/src/token.rs:8-24 | At any common time the voting power of all accounts sums to the pooled total |
| `VenearStore.ValidateDelegations` | venear-contract/src/delegation.rs:8-32 | The loop accepts exactly the sorted, duplicate-free, non-self, nonzero lists of at most the allowed length and 10000 bps |
| `VenearStore.AcceptedIsSorted` | venear-contract/src/delegation.rs:17-28 | Comparing neighbours is enough: an accepted list is sorted throughout and names no delegate twice |
| `VenearStore.TimePasses` | common/src/global_state.rs:24-32 | The whole store invariant carries over to any later time without a write |
| `VenearStore.SupplyIsVotingPower` | venear-contract/src/token.rs:19-24 | `ft_total_supply` at any time is the sum of `owned_total` over all accounts |
| `VenearStore.TakeBackAll` | venear-contract/src/delegation.rs:62-69 | The first loop withdraws every old contribution without underflow; every pool then holds what the other owners owe |
| `VenearStore.GrantAll` | venear-contract/src/delegation.rs:71-77 | The second loop grants every new contribution and fails exactly when a delegate is unknown |
| `VenearStore.RebaseAll` | venear-contract/src/lockup.rs:174-181 | The loop moves every delegate's pool from the old balance's share to the new one's |
| `VenearStore.Redelegate` | venear-contract/src/delegation.rs:48-80 | `set_delegations` replaces the caller's list, changes no balance, and keeps ledger and total |
| `VenearPower.DelegationMovesPower` | venear-contract/src/delegation.rs:48-80 | A new list changes every other account's voting power by exactly what it credits instead of the old one, and the owner's by what it no longer gives away |
| `VenearPower.CreditOfEntry` | venear-contract/src/delegation.rs:71-77 | Each delegate of a list is credited with the contribution of its own entry, everybody else with nothing |
| `VenearStore.SimpleDelegations` | venear-contract/src/delegation.rs:8-32 | A list can always be emptied; a single delegate is accepted exactly for 1 to 10000 bps, if registered and not the owner |
| `VenearStore.Relock` | venear-contract/src/lockup.rs:145-186 | A lockup update with a fresh nonce changes one balance and nonce, and keeps ledger and total |
| `VenearStore.LockupSets` | venear-contract/src/lockup.rs:158-172 | The new balance is the locked NEAR and the deposit; the extra veNEAR is forfeited if that is less than before and kept otherwise; no other balance changes |
| `VenearStore.ReplayIsRefused` | venear-contract/src/lockup.rs:151-155 | After an update exactly the later nonces are accepted |
| `VenearContract.Contract.Register` | venear-contract/src/account.rs:105-131 | Registration adds the account and its deposit to the total, or panics if known; the invariant is kept |
| `VenearPower.RegistrationAdds` | venear-contract/src/account.rs:105-131 | A new account has the voting power of its deposit, takes nothing from anyone, and accepts every nonce but zero |
| `VenearContract.Contract.SetDelegations` | venear-contract/src/delegation.rs:48-80 | The call succeeds exactly on acceptable lists of registered delegates and keeps every pool equal to what is owed to it |
| `VenearContract.Contract.LockupUpdate` | venear-contract/src/lockup.rs:145-186 | The call succeeds exactly on a fresh nonce, sets the balance with the forfeit rule, and keeps every pool and the total exact |
| `VenearContract.Contract.MigrateState` | venear-contract/src/upgrade.rs:17-49 | From any state with acceptable lists and registered delegates the ledger is established; a state that has it is not changed |
| `VenearContract.Contract.FtTotalSupply` | venear-contract/src/token.rs:19-24 | The reported supply is the sum of all voting power |
| `VenearMigration.Recompute` | venear-contract/src/upgrade.rs:22-39 | The first loop gathers, for every delegate, exactly what all owners owe it, and visits every account with a stored pool |
| `VenearMigration.WriteBack` | venear-contract/src/upgrade.rs:40-47 | The second loop, in any order of keys, sets every gathered pool and writes nothing when none differs |
| `VenearMigration.Migrate` | venear-contract/src/upgrade.rs:17-49 | Any well-formed store becomes sound, orphaned pools are cleared, and a sound store is returned unchanged |
| `MerkleNodes.OffPathUnchanged` | merkle-tree/src/lib.rs:133-145 | Changing or adding a leaf changes no node off its path |
| `MerkleNodes.HeightIsLeast` | merkle-tree/src/lib.rs:114-120 | The computed height is the least one whose top level has a single node |
| `MerkleNodes.RootIsHalved` | merkle-tree/src/lib.rs:133-145 | The root is the hash of the leaves halved from the top, left half first, with all-zero empty halves |
| `MerkleTree.Tree.PostUpdate` | merkle-tree/src/lib.rs:133-145 | Rehashing one path makes every stored node and the root those of the tree from scratch, also when a level is added |
| `MerkleTree.Tree.Set` | merkle-tree/src/lib.rs:189-200 | After any sequence of `set` calls all nodes and the root equal the recursive tree with all-zero empty subtrees |
| `MerkleTree.Tree.GetProof` | merkle-tree/src/lib.rs:202-215 | The proof of any account carries its leaf and genuine siblings and is accepted against the current root and length |
| `MerkleTree.IsValid` | merkle-tree/src/lib.rs:274-301 | The check accepts exactly when index and length fit and the hashes lead to the root |
| `MerkleTree.GenuineIsAccepted` | merkle-tree/src/lib.rs:274-301 | Completeness: genuine siblings are accepted for the leaf they belong to |
| `MerkleTree.AcceptedIsGenuineOrClash` | merkle-tree/src/lib.rs:274-301 | Soundness: an accepted proof carries the stored leaf and its genuine siblings, or a given pair of different inputs has the same hash |
| `MerkleTree.Tree.GetSnapshot` | merkle-tree/src/lib.rs:148-162 | In block b: the tree and global state after all operations in blocks before b, none if it was created in b |
| `MerkleTree.Tree.PreUpdate` | merkle-tree/src/lib.rs:90-103 | The first change in a block keeps the state as it stood at the end of the blocks before |
| `MerkleTree.Tree.SetGlobalState` | merkle-tree/src/lib.rs:168-171 | The global state changes, the snapshot semantics is kept |
| `MerkleTree.LastBeforeSplits` | merkle-tree/src/lib.rs:148-162 | In a history with nondecreasing blocks, the reported moment is the last one before the block |
| `VotingProposal.UpdateTwice` | voting-contract/src/proposal.rs:218-315 | Updating at t1 and then at t2 is updating at t2, for every flow and status |
| `VotingProposal.ExitsAtSlotEnd` | voting-contract/src/proposal.rs:185-203 | An active proposal leaves its slot exactly from its `active_end_time_ns` on |
| `VotingProposal.UpdateChangesStatusOnly` | voting-contract/src/proposal.rs:218-315 | Time changes nothing but the status, and never the slot's start or end |
| `VotingProposal.FinalStatusIs` | voting-contract/src/proposal.rs:317-347 | A vote succeeds exactly when turnout reaches floor and quorum and the supporters' fraction reaches the approval threshold, as real numbers, and is defeated otherwise |
| `VotingProposal.EndsAs` | voting-contract/src/proposal.rs:218-315 | From the end of its slot on, a proposal is Defeated if its vote did not carry or never began, else Executable with actions and Succeeded without |
| `VotingProposal.StatusOverTime` | voting-contract/src/proposal.rs:218-315 | Which status it has at each time before: Created until it expires, Sandbox, Scheduled, Voting and Timelock by their start times and durations; other statuses stay |
| `VotingProposal.LifeFromStart` | voting-contract/src/proposal.rs:167-181 | From its start a classic vote runs for its own duration and, if it carries, through its timelock; a fast-track proposal has its sandbox time to graduate; nothing else about it changes |
| `VotingProposal.NextVotingStartIsNextMonday` | voting-contract/src/proposal.rs:150-164 | The scheduled start is the first Monday 00:00 at UTC+1 strictly after the given time |
| `VotingQueue.PromotionsSplit` | voting-contract/src/queue.rs:82-111 | The promotions at t2 are those at t1, brought up to t2, followed by those into slots freed in between |
| `VotingScheduler.ComputeQueueAdvance` | voting-contract/src/queue.rs:59-117 | Scanning the active set in any order with the sorted deque finds the specified promotions and exactly the changed proposals |
| `VotingScheduler.ScanActive` | voting-contract/src/queue.rs:59-80 | The first loop counts the slots still held and sorts the times of those given back |
| `VotingScheduler.FillFromQueue` | voting-contract/src/queue.rs:82-111 | The second loop promotes in queue order, earliest freed slot first, then at `now` |
| `VotingScheduler.WritesAdvance` | voting-contract/src/queue.rs:119-131 | Draining the queue and writing promotions and updates gives the advanced board |
| `VotingAdvance.AdvanceIsConsistent` | voting-contract/src/proposal.rs:496-509 | After an advance exactly the proposals in an active status are in the active set |
| `VotingAdvance.AdvanceIsValid` | voting-contract/src/queue.rs:119-131 | An advance leaves the active set within the cap, and full if anything is still queued, exactly when the slots still held fit in the cap |
| `VotingAdvance.AdvanceIsFull` | voting-contract/src/queue.rs:82-131 | Whatever the cap, an advance fills it while anything is queued and never exceeds the larger of cap and slots held |
| `VotingConfluence.AdvanceTwice` | voting-contract/src/queue.rs:59-131 | Advancing at t1 and then at t2 gives the statuses, start times, active set and queue of one advance at t2, on boards within their cap |
| `VotingOverfull.AdvanceTwiceIff` | voting-contract/src/queue.rs:59-131 | On every board between calls, under any cap: advancing at t1 makes no difference to any later advance if and only if the active set is within the cap, the cap is zero, no slot was given back by t1, or the advance empties the queue |
| `VotingOverfull.UnfilledIsTaken` | voting-contract/src/queue.rs:82-111 | A freed slot left unfilled at t1 goes to the next in the queue, backdated to before t1, if the advance happens only later |
| `VotingLoweredCap.OrderMatters` | voting-contract/src/governance.rs:233-242 | For every voting duration and configuration a run of three approvals and a lowered cap leads to a board on which two advances differ from one |
| `VotingContract.Contract.AdvanceQueue` | voting-contract/src/queue.rs:119-131 | The stored board becomes the advanced one |
| `VotingContract.Contract.GetQueueState` | voting-contract/src/queue.rs:20-55 | The view reports, as a set and a sequence, the active set and queue an advance at `now` commits |
| `VotingContract.Contract.GetProposal` | voting-contract/src/proposal.rs:450-459 | The view reports the record as it stands after an advance at `now` |
| `VotingContract.Contract.Approve` | voting-contract/src/reviewer.rs:18-81 | Advance, then start at once in a free slot or join the queue; the board stays valid |
| `VotingContract.Contract.Veto` | voting-contract/src/reviewer.rs:112-132 | Advance, cut the slot, advance again; accepted exactly in the statuses that can be vetoed |
| `VotingContract.Contract.NoVeto` | voting-contract/src/reviewer.rs:139-159 | End the timelock, then advance; accepted exactly in the timelock |
| `VotingContract.Contract.SetMaxActive` | voting-contract/src/governance.rs:233-242 | Any positive cap is taken and the queue advanced; a higher cap fills the new slots, a lower one evicts nobody |
| `VotingActions.ApprovedIsValid` | voting-contract/src/reviewer.rs:63-81 | A new proposal starts at once only when nothing is queued, and queues only behind a full active set |
| `VotingActions.ApprovedCounts` | voting-contract/src/reviewer.rs:63-81 | After an advance a free slot means an empty queue, so an approval never overtakes, under any cap |
| `VotingActions.TermsDecide` | voting-contract/src/reviewer.rs:32-61 | Whatever votes it gets, a reviewed proposal carries exactly when it does under the thresholds of the review: classic, simple or strong majority; only a fast-track review needs the majority type |
| `VotingActions.VetoWindow` | voting-contract/src/reviewer.rs:112-132 | A veto is possible exactly in the timelock of a classic vote that carried, and from graduation to the end of the vote of a fast-track one |
| `VotingActions.VetoIsFinal` | voting-contract/src/reviewer.rs:112-132 | A vetoed proposal has no slot and stays vetoed at any later time; no other proposal changes |
| `VotingActions.WaiverWindow` | voting-contract/src/reviewer.rs:139-159 | A waiver is possible exactly while the timelock of a carried classic vote runs |
| `VotingActions.WaiverBringsForward` | voting-contract/src/reviewer.rs:139-159 | A waiver leaves the record the proposal would have had at the end of its timelock |
| `VotingSlots.PromotionsCover` | voting-contract/src/queue.rs:82-111 | Before `now`, promoted windows cover no instant more often than freed slots were free |
| `VotingSlots.PromotionsInOrder` | voting-contract/src/queue.rs:82-111 | Starts are nondecreasing in queue order |
| `VotingRuns.AdvancedKeeps` | voting-contract/src/queue.rs:119-131 | An advance keeps the bound on overlapping windows and the order of starts |
| `VotingDiscipline.ApplyKeeps` | voting-contract/src/reviewer.rs:112-159 | So does every call: approval, veto, waiver, a changed cap, vote, snapshot and calls outside the slots |
| `VotingDiscipline.SlotDiscipline` | voting-contract/src/queue.rs:59-131 | On every run, caps lowered or not: at every instant at most as many windows overlap as the highest cap so far, starts are nondecreasing in order of approval, and the rest waits in that order behind active proposals that fill the cap |
| `VotingDiscipline.SlotsWithinCap` | voting-contract/src/queue.rs:59-131 | On runs that never lower the cap, at most `max_active_proposals` windows overlap at any instant, and a queue means exactly that many active proposals |
| `VotingTally.SnapshotFacts` | voting-contract/src/reviewer.rs:198-221 | The stored total is the sum of the snapshot accounts' voting power at the callback's time |
| `VotingTally.LeafBalance` | common/src/account.rs:93-101 | `total_balance` of a leaf is its voting power at the snapshot's time |
| `VotingBallot.VoteIsTallied` | voting-contract/src/proposal.rs:136-146 | Casting and changing votes keeps every option's count and power; `remove_vote` never underflows |
| `VotingBallot.Ballot.Vote` | voting-contract/src/votes.rs:27-150 | A vote goes through exactly under the stated conditions, the attached deposit and storage fee included; it is counted with the power of the voter's own leaf, graduates a sandbox proposal at its threshold, and refunds what exceeds fee and one yocto |
| `VotingBallot.Ballot.TotalVotes` | voting-contract/src/votes.rs:53-106 | Total votes are the sum over the options and never exceed the snapshot's total supply; in the sandbox they are all in favour |
| `VotingBallot.VoteWindow` | voting-contract/src/votes.rs:42-53 | Votes are taken for every option while the vote runs, and only in favour while the sandbox runs |
| `VotingBallot.GraduatesIff` | voting-contract/src/votes.rs:138-149 | A sandboxed proposal graduates exactly when the accounts in favour hold the sandbox share of the snapshot, to the first Monday midnight after |
| `VotingBallot.WithinSupply` | voting-contract/src/votes.rs:53-106 | The same for every tally of a snapshot of a reachable veNEAR state |
| `VotingBallot.VoteAmends` | voting-contract/src/votes.rs:138-149 | A vote keeps the slot's start and leaves its end in the future, also when the proposal is scheduled |
| `VotingBallot.SnapshotAmends` | voting-contract/src/reviewer.rs:198-225 | Storing the snapshot does too |
| `VotingSnapshot.Contract.TakeVotingSnapshot` | voting-contract/src/reviewer.rs:198-221 | A snapshot taken in any block is one of the sound store that the calls in earlier blocks left, with its root, length and total; there is none only in the block of the creation |
| `VotingSnapshot.Contract.Commit` | venear-contract/src/account.rs:166-180 | Writing the changed accounts and the global state keeps the tree equal to the store and its history aligned with the calls |
| `VotingSnapshot.WriteThrough` | venear-contract/src/account.rs:166-180 | The accounts that differ are set and a new one added, after which the tree holds exactly the store's accounts |
| `VotingSnapshot.Contract.Register` | venear-contract/src/account.rs:105-131 | Registration reaches the tree in its block |
| `VotingSnapshot.Contract.SetDelegations` | venear-contract/src/delegation.rs:48-80 | A change of delegations reaches the tree in its block |
| `VotingSnapshot.Contract.LockupUpdate` | venear-contract/src/lockup.rs:145-186 | A lockup update reaches the tree in its block |
| `Calendar.DaysRoundTrip` | staking-contract/src/subscriptions.rs:47-60 | Every day number has a valid date that leads back to it |
| `Calendar.DateRoundTrip` | staking-contract/src/subscriptions.rs:62-70 | Every valid date is the date of its day number |
| `Calendar.DaysCountCalendarDays` | staking-contract/src/subscriptions.rs:62-84 | Day numbers count the days of the Gregorian calendar one by one from 1970-01-01 |
| `Calendar.AddMonthsLandsOn` | staking-contract/src/subscriptions.rs:21-38 | Months later is in that month, on the anchor day or the last day of a shorter month, at the same time of day |
| `Calendar.AddMonthsCompose` | staking-contract/src/subscriptions.rs:21-38 | Adding m and then n months with one anchor is adding m + n, absent saturation |
| `Calendar.AddMonthsIsLater` | staking-contract/src/subscriptions.rs:21-38 | Adding at least one month is strictly later |
| `Calendar.ProjectWindow` | staking-contract/src/subscriptions.rs:714-726 | The loop ends and finds the specified billing window |
| `Calendar.LoopEndsIff` | staking-contract/src/subscriptions.rs:714-726 | The window loop ends if and only if the clock is below the last 64-bit nanosecond |
| `Calendar.WindowContainsNow` | staking-contract/src/subscriptions.rs:714-726 | The window is a whole number of months on, ends after `now`, and starts no later once it has moved |
| `Calendar.WindowTwice` | staking-contract/src/subscriptions.rs:714-726 | Projecting the window to t1 and then to t2 is projecting it to t2 |
| `Calendar.SameWindowIff` | staking-contract/src/subscriptions.rs:714-726 | Two times see the same window exactly when the later one precedes the end of the earlier one's window |
| `Subscription.Billing.ApplyDue` | staking-contract/src/subscriptions.rs:728-848 | Exactly when an update is due, the stored subscription becomes the projected one, with its price still on its own product, the lock the effective one, and the validator's row that of the exit; it panics exactly when a decrease meets an unsettled validator or a refused exit |
| `Subscription.Renew` | staking-contract/src/subscriptions.rs:1194-1251 | The decrease and the new window leave the lock the view showed, or the exit panics |
| `Subscription.RowFollowsLock` | staking-contract/src/subscriptions.rs:1194-1251 | What a due decrease takes out of the lock it takes out of the account's shares in that validator's row, and out of no other row |
| `Subscription.ProjectTwice` | staking-contract/src/subscriptions.rs:1253-1279 | Projecting to t1 and then to t2 is projecting to t2 |
| `Subscription.ProjectedPlan` | staking-contract/src/subscriptions.rs:1253-1320 | A plan change that has been reached sets its price and that price's product, an update that has been reached is gone, and nothing else about the plan changes |
| `Subscription.ExpiresAtPeriodEnd` | staking-contract/src/subscriptions.rs:1253-1279 | A subscription cancelled at period end is Expired exactly from its end on; no other one changes its status |
| `Subscription.ProjectedPeriod` | staking-contract/src/subscriptions.rs:1253-1279 | The period shown is the month that contains the time, a whole number of months after the start or the boundary of the update |
| `Subscription.LockFollowsSubscription` | staking-contract/src/lock.rs:329-389 | The lock of an update that has been reached shows the subscription's own period and price, or has given up all its shares; every other lock is as stored |
| `Subscription.LockTwiceIff` | staking-contract/src/lock.rs:329-389 | A lock seen at t1 and then at t2 is the lock seen at t2 if and only if no update due by t1 left it open with t2 in a later billing period |
| `Subscription.LockViewGoesStale` | staking-contract/src/lock.rs:349-351 | For every change of plan, whatever the time it applies: once it is stored then, the lock still shows that billing period when it has ended, while the view without the commit has moved on |
| `Subscription.DecreaseStopsAtTarget` | staking-contract/src/lock.rs:391-424 | A scheduled decrease never takes a lock below its target amount |
| `Subscription.DecreaseComesClose` | staking-contract/src/lock.rs:391-424 | It comes within a share and a yocto of the target, and gives up the whole lock exactly when the surplus is all it is worth |
| `Subscription.DecreaseIdleIff` | staking-contract/src/lock.rs:391-424 | A decrease changes nothing if and only if there is no surplus or it is worth less than one share |
| `Subscription.DecreaseTwiceReleasesMore` | staking-contract/src/lock.rs:391-424 | Projecting a decrease twice can release more than once: nine shares worth 17 with target 14 |
| `Subscription.DecreaseTwiceIff` | staking-contract/src/lock.rs:391-424 | Projecting a decrease twice is projecting it once if and only if what is left after the first has no surplus or one worth less than a share, in terms of the lock and the row before |
| `Farm.SettledIsValid` | staking-contract/src/stake.rs:264-297 | Settling the pool hands out no more than it emits |
| `Farm.StakedIsValid` | staking-contract/src/stake.rs:355-446 | A stake keeps the sums and costs less than one unit of rounding |
| `Farm.UnstakedIsValid` | staking-contract/src/stake.rs:448-512 | An unstake does too, and closing a position banks its units |
| `Farm.UnstakeNeverUnderflows` | staking-contract/src/stake.rs:468-474 | The pool always holds the shares of each of its positions |
| `Farm.CreditedIsCovered` | staking-contract/src/stake.rs:258-319 | In a valid farm the units credited stay below those emitted plus one per stake and unstake |
| `FarmRewards.DeltaIsFloor` | staking-contract/src/stake.rs:663-672 | Units are the product of yocto, nanoseconds and rate, per NEAR and second, rounded down |
| `FarmRewards.DeltaInWholeUnits` | staking-contract/src/stake.rs:663-672 | Whole NEAR staked for whole seconds earn exactly NEAR times seconds times rate |
| `FarmRewards.EmissionInWholeUnits` | staking-contract/src/stake.rs:264-297 | A pool worth n NEAR emits n times its rate every second |
| `FarmRewards.EmissionsAdd` | staking-contract/src/stake.rs:264-297 | Settling in between changes the emission by at most one unit, never to more |
| `FarmRewards.SettledTimeIsOver` | staking-contract/src/stake.rs:264-274 | Time that has been settled is never paid for again, also for a pool without shares |
| `FarmRewards.EarnsItsPart` | staking-contract/src/stake.rs:298-335 | A position earns the part of the emission that its shares are of the pool's, within a unit and the accumulator's rounding |
| `FarmRewards.StakeKeepsEarned` | staking-contract/src/stake.rs:355-446 | A stake does not change what is shown as earned at its time; a new position starts with nothing |
| `FarmRewards.UnstakeKeepsEarned` | staking-contract/src/stake.rs:448-512 | Nor does an unstake; closing hands it all out |
| `FarmRewards.RateKeepsEarned` | staking-contract/src/stake.rs:258-297 | A new rate does not change what has been earned by its time |
| `FarmRewards.ShownIsEmitted` | staking-contract/src/stake.rs:258-335 | What is handed out or shown is what was emitted, up to a unit per stake and unstake either way, and below it a unit per open position and the settlements' dust |
| `FarmRewards.ShownIsPreview` | staking-contract/src/stake.rs:313-321 | What is summed there for an open position is its preview |
| `FarmRewards.UnstakePaysAmount` | staking-contract/src/stake.rs:592-618 | An unstake of an amount takes the fewest shares worth it, or the whole position if that is worth no more |
| `FarmDesk.StakeViewsOwn` | staking-contract/src/stake.rs:355-446 | A commit at the position's own price is a stake on that price's farm |
| `FarmDesk.UnstakeViewsOwn` | staking-contract/src/stake.rs:448-512 | An unstake is one on the farm of the position's price |
| `FarmDesk.UnstakeHandsOut` | staking-contract/src/stake.rs:448-512 | What a closed position has earned goes to its own account and to no other |
| `FarmDesk.StakeBalancesIff` | staking-contract/src/stake.rs:388-391 | A commit keeps every price's shares and total equal if and only if the position is new, has the committed price, or nothing is added |
| `FarmRuns.FarmSharesAddUp` | staking-contract/src/stake.rs:42-54 | On every interleaving of entries, commits and failures, each farm price's active positions sum to its `total_farm_shares` |
| `FarmRuns.RewardsAreCovered` | staking-contract/src/stake.rs:258-319 | On every such interleaving the units credited at each price stay below those its pool emitted plus one per stake and unstake, and accounts hold exactly what was handed out at closing |
| `FarmRuns.RewardsAreHandedOn` | staking-contract/src/stake.rs:258-335 | On every interleaving, whenever a price is settled next, its holders have been handed or are shown what its pool emitted, with both bounds of the rounding |
| `FarmRuns.DepositSticksIff` | staking-contract/src/stake.rs:355-446 | A committed positive deposit leaves a position that no stake or unstake can commit on if and only if the position is new and the deposit is worth less than one share |
| `StakingZeroMint.MintsNothingIff` | staking-contract/src/utils.rs:35-43 | A positive deposit mints no share if and only if it is worth less than one |
| `StakingZeroMint.ZeroMintReached` | staking-contract/src/validators.rs:320-366 | For every positive deposit there is an on-time run, from any earlier lock of two yocto or more, on which it reaches its commit, is accepted and mints nothing |
| `FarmRuns.StuckIsReached` | staking-contract/src/stake.rs:388-391 | So every positive deposit has an on-time run on which it opens a stuck position |
| `FarmRuns.StuckForever` | staking-contract/src/stake.rs:548-562 | After any run such a position is still there, and still refuses every stake and unstake |
| `FarmContract.Contract.SettlePosition` | staking-contract/src/stake.rs:298-319 | What is accrued after settling is what the preview showed at the same time, before and after; it panics exactly on a position without shares |
| `FarmContract.Contract.CommitStake` | staking-contract/src/stake.rs:355-446 | It succeeds exactly when price, pool and row are known, the maximum is kept, an existing position has shares and the row mints; the records become the specified ones and stay covered at the position's own price; a positive deposit sticks if and only if it is new and mints nothing |
| `FarmContract.Contract.CommitUnstake` | staking-contract/src/stake.rs:448-512 | It succeeds exactly when the position holds the shares and the row's exit goes through, an unknown validator, zero shares and zero net stake refused, and stays covered |
| `Holdings.SharesAreHeld` | staking-contract/src/validators.rs:320-447 | On every run, for every account and validator, `user_validator_shares` equals the shares of its open locks plus those of its farm positions |
| `Holdings.ApplyKeeps` | staking-contract/src/lock.rs:532-575 | Every lock, stake increase, unlock, stake decrease, farm stake and farm unstake, committed or refused, keeps that equality and each row's total |
| `Holdings.UnlockIff` | staking-contract/src/unlock.rs:46-80 | The exit of an open lock goes through if and only if the lock has shares and the row a net stake; it is never refused for lack of shares |
| `Holdings.DecreaseGoesThrough` | staking-contract/src/subscriptions.rs:1194-1251 | The exit of a scheduled decrease is never refused, so storing a due decrease never panics on it |
| `Holdings.FarmExitIff` | staking-contract/src/stake.rs:448-512 | The row's exit for an accepted farm unstake goes through if and only if the row has a net stake |
| `Holdings.LockIsEmptyIff` | staking-contract/src/lock.rs:532-575 | A committed lock holds no shares if and only if its deposit is worth less than one, and the deposit then backs the other holders |
| `Holdings.DeadLockForever` | staking-contract/src/unlock.rs:46-80 | After any run an empty lock of a product purchase is still there and cannot be exited |
| `Holdings.EmptyLockIsReached` | staking-contract/src/lock.rs:532-575 | Every positive deposit has an on-time run on which it opens an empty lock |

## Left out

- 64- and 128-bit limits: amounts and times are unbounded naturals, so overflow panics and saturating sums are not modelled, except the saturation of `add_months_stripe_style`.
- Gas, events, serialization formats, storage costs and deposits for them, access-key, pause and one-yocto checks.
- Real pools: rounding and slashing at the pool; the clamp at staking-contract/src/epoch.rs:316-322 then weakens the equalities.
- Several validators at once in the staking pipeline: rows do not interact, so one row is modelled; farms are modelled over all validators and prices.
- Entry guards of the staking calls that only refuse an action, such as minimum amounts and catalog checks.
- Catalog changes, direct payments, id generation, ownership and configuration setters other than the ones modelled.
- VotingConfluence.AdvanceTwice: for boards within their cap; the others are covered by `VotingOverfull.AdvanceTwiceIff`, since confluence does not hold on all of them.
- Proposal metadata, bonds, action execution and refunds: these do not touch slots or tallies and appear as writes outside the slots.
- Older record versions (`AccountV0`, legacy proposals) and contract upgrades other than `migrate_state`.
- The lockup contract: only its update message with locked amount and nonce is an input.
- SHA-256 and Borsh: any hash function and any serialization; the tally assumes that the serialization tells accounts apart and that the accepted proofs exhibit no collision.
- VenearLedger.LedgerOverTime: account stamps are kept in whole seconds, which is what `truncate_to_seconds` leaves of them.
- Calendar.ProjectWindow: for a clock below the last 64-bit nanosecond, the only one at which the loop does not end (`Calendar.LoopEndsIff`).
- VotingBallot.Ballot.Vote: one proposal's ballot; the queue advance that comes first is `VotingContract.Contract.AdvanceQueue`.
- VotingSnapshot.Contract.Commit: accounts are written to the tree at the end of a call rather than one by one during it; snapshots only ever show the ends of blocks.
- FarmContract.Contract.CommitStake: the storage guards of a stake are not modelled.
