/** Casting and changing votes on one proposal. */
module VotingBallot {
  import opened Options
  import opened VenearBalance
  import opened VenearLedger
  import opened VenearSupply
  import opened VenearStore
  import opened MerkleNodes
  import MT = MerkleTree
  import opened VP = VotingProposal
  import opened VotingDiscipline
  import opened VotingTally

  // ---------------------------------------------------------------------------
  // Vote statistics
  // ---------------------------------------------------------------------------

  function AddVote(v: VoteStats, power: nat): VoteStats { VoteStats(v.totalVenear + power, v.totalVotes + 1) }

  /** Checked subtraction: callers must show that it does not underflow. */
  function RemoveVote(v: VoteStats, power: nat): VoteStats
    requires power <= v.totalVenear && 1 <= v.totalVotes
  {
    VoteStats(v.totalVenear - power, v.totalVotes - 1)
  }

  ghost function Voters(votes: map<AccountId, nat>, option: nat): set<AccountId> {
    set id | id in votes && votes[id] == option
  }

  /** A statistic counts a set of voters and their power. */
  ghost predicate Counts(v: VoteStats, voters: set<AccountId>, leaves: seq<Account>, t: nat, k: nat)
    requires Stamped(leaves, t) && AllBpsValid(leaves)
  {
    v.totalVotes == |voters| && v.totalVenear == PowerOfVoters(leaves, voters, t, k)
  }

  lemma CountsOneMore(v: VoteStats, voters: set<AccountId>, leaves: seq<Account>, i: nat, t: nat, k: nat)
    requires Stamped(leaves, t) && AllBpsValid(leaves) && DistinctIds(leaves) && i < |leaves|
    requires Counts(v, voters, leaves, t, k) && leaves[i].id !in voters
    ensures Counts(AddVote(v, OwnedPower(Updated(leaves[i], t, k))), voters + {leaves[i].id}, leaves, t, k)
  {
    hide OwnedPower, PowerOfVoters, BpsValid;
    PowerOfOneMore(leaves, voters, i, t, k);
  }

  /** Taking back a vote never underflows. */
  lemma CountsOneLess(v: VoteStats, voters: set<AccountId>, leaves: seq<Account>, i: nat, t: nat, k: nat)
    requires Stamped(leaves, t) && AllBpsValid(leaves) && DistinctIds(leaves) && i < |leaves|
    requires Counts(v, voters, leaves, t, k) && leaves[i].id in voters
    ensures var power := OwnedPower(Updated(leaves[i], t, k));
            && power <= v.totalVenear && 1 <= v.totalVotes
            && Counts(RemoveVote(v, power), voters - {leaves[i].id}, leaves, t, k)
  {
    hide OwnedPower, PowerOfVoters, BpsValid;
    PowerOfOneLess(leaves, voters, i, t, k);
  }

  const OPTIONS: nat := 3    // For, Against, Abstain

  /** Every option's count and power are those of the accounts whose current vote it is. */
  ghost predicate Tallied(p: Proposal, votes: map<AccountId, nat>, leaves: seq<Account>, t: nat, k: nat)
    requires Stamped(leaves, t) && AllBpsValid(leaves)
  {
    && |p.votes| == OPTIONS
    && (forall id :: id in votes ==> votes[id] < OPTIONS)
    && (forall o :: 0 <= o < OPTIONS ==> Counts(p.votes[o], Voters(votes, o), leaves, t, k))
    && Counts(p.totalVotes, votes.Keys, leaves, t, k)
  }

  /** The statistics after a vote for `option`, replacing `previous` if there was one. */
  ghost predicate VoteFits(p: Proposal, previous: Option<nat>, option: nat, power: nat) {
    && |p.votes| == OPTIONS && option < OPTIONS
    && (previous.Some? ==>
          && previous.value < OPTIONS && previous.value != option
          && power <= p.votes[previous.value].totalVenear && 1 <= p.votes[previous.value].totalVotes
          && power <= p.totalVotes.totalVenear && 1 <= p.totalVotes.totalVotes)
  }

  function WithVote(p: Proposal, previous: Option<nat>, option: nat, power: nat): Proposal
    requires VoteFits(p, previous, option, power)
  {
    var q := if previous.None? then p
             else p.(votes := p.votes[previous.value := RemoveVote(p.votes[previous.value], power)],
                     totalVotes := RemoveVote(p.totalVotes, power));
    q.(votes := q.votes[option := AddVote(q.votes[option], power)], totalVotes := AddVote(q.totalVotes, power))
  }

  function Previous(votes: map<AccountId, nat>, id: AccountId): Option<nat> {
    if id in votes then Some(votes[id]) else None
  }

  /** The tally follows every vote and every change of vote. */
  lemma VoteIsTallied(p: Proposal, votes: map<AccountId, nat>, leaves: seq<Account>, i: nat, option: nat, t: nat,
                      k: nat)
    requires Stamped(leaves, t) && AllBpsValid(leaves) && DistinctIds(leaves) && i < |leaves|
    requires Tallied(p, votes, leaves, t, k) && option < OPTIONS && Previous(votes, leaves[i].id) != Some(option)
    ensures var power, previous := OwnedPower(Updated(leaves[i], t, k)), Previous(votes, leaves[i].id);
            && VoteFits(p, previous, option, power)
            && Tallied(WithVote(p, previous, option, power), votes[leaves[i].id := option], leaves, t, k)
  {
    hide OwnedPower, Counts, BpsValid;
    var id, power, previous := leaves[i].id, OwnedPower(Updated(leaves[i], t, k)), Previous(votes, leaves[i].id);
    var votes' := votes[id := option];
    CountsOneMore(p.votes[option], Voters(votes, option), leaves, i, t, k);
    assert Voters(votes', option) == Voters(votes, option) + {id};
    if previous.Some? {
      CountsOneLess(p.votes[previous.value], Voters(votes, previous.value), leaves, i, t, k);
      CountsOneLess(p.totalVotes, votes.Keys, leaves, i, t, k);
      CountsOneMore(RemoveVote(p.totalVotes, power), votes.Keys - {id}, leaves, i, t, k);
      assert Voters(votes', previous.value) == Voters(votes, previous.value) - {id};
      assert votes'.Keys == votes.Keys - {id} + {id};
    } else {
      CountsOneMore(p.totalVotes, votes.Keys, leaves, i, t, k);
      assert votes'.Keys == votes.Keys + {id};
    }
    var q := WithVote(p, previous, option, power);
    forall o | 0 <= o < OPTIONS ensures Counts(q.votes[o], Voters(votes', o), leaves, t, k) {
      if o != option && previous != Some(o) {
        assert Voters(votes', o) == Voters(votes, o);
      }
    }
  }

  /** The total is the sum over the options. */
  lemma {:induction false} OptionsAddUp(leaves: seq<Account>, votes: map<AccountId, nat>, t: nat, k: nat)
    requires Stamped(leaves, t) && AllBpsValid(leaves) && forall id :: id in votes ==> votes[id] < OPTIONS
    ensures PowerOfVoters(leaves, votes.Keys, t, k)
         == PowerOfVoters(leaves, Voters(votes, 0), t, k) + PowerOfVoters(leaves, Voters(votes, 1), t, k)
            + PowerOfVoters(leaves, Voters(votes, 2), t, k)
  {
    hide OwnedPower, BpsValid;
    if leaves != [] { OptionsAddUp(leaves[1..], votes, t, k); }
  }

  // ---------------------------------------------------------------------------
  // The call
  // ---------------------------------------------------------------------------

  /** The serialization tells accounts apart. */
  ghost predicate Injective(f: Hashing<Account>) {
    forall a, b :: f.encode(a) == f.encode(b) ==> a == b
  }

  /** The proof does not exhibit two different inputs with the same hash. */
  ghost predicate NoCollision(f: Hashing<Account>, leaves: seq<Account>, a: Account, proof: MT.Proof) {
    proof.index < |leaves| ==> MT.Clash(f, leaves, a, proof, |proof.path|) == None
  }

  /** An accepted account is the leaf it claims to be. */
  lemma AcceptedIsLeaf(f: Hashing<Account>, leaves: seq<Account>, a: Account, proof: MT.Proof)
    requires Injective(f) && NoCollision(f, leaves, a, proof) && MT.Accepts(f, Root(f, leaves), |leaves|, a, proof)
    ensures proof.index < |leaves| && leaves[proof.index] == a
  {
    MT.AcceptedIsGenuineOrClash(f, leaves, a, proof);
  }

  predicate VoteAllowed(p: Proposal, option: nat) {
    p.status == Voting || (p.status == Sandbox && option == 0)
  }

  /** Nobody has voted other than in favour. */
  predicate AllInFavour(votes: map<AccountId, nat>) { forall id :: id in votes ==> votes[id] == 0 }

  /** So a sandboxed proposal is measured by all its votes. */
  lemma InFavourIsAll(votes: map<AccountId, nat>)
    requires AllInFavour(votes)
    ensures Voters(votes, 0) == votes.Keys
  {
  }

  /** A vote that leaves the proposal in the sandbox was in favour, like all before it. */
  lemma StaysInFavour(was: Proposal, votes: map<AccountId, nat>, previous: Option<nat>, id: AccountId, option: nat,
                      power: nat, now: nat)
    requires VP.WellFormed(was) && (was.status == Sandbox ==> AllInFavour(votes))
    requires VoteAllowed(Update(was, now), option) && VoteFits(Update(was, now), previous, option, power)
    ensures Graduated(WithVote(Update(was, now), previous, option, power), now).status == Sandbox ==>
      AllInFavour(votes[id := option])
  {
    hide FinalStatus, Carried, SandboxThresholdMet, NextVotingStart;
    StatusOverTime(was, now);
    WithVoteKeeps(Update(was, now), previous, option, power);
  }

  /** When votes are taken: for every option while the vote runs, in the sandbox only those in favour. */
  lemma VoteWindow(p: Proposal, option: nat, now: nat)
    requires VP.WellFormed(p) && p.status in {Sandbox, Scheduled, Voting}
    ensures VoteAllowed(Update(p, now), option) <==>
              if p.votingStart.None? then option == 0 && now < p.sandboxStart.value + p.sandboxDuration
              else now < p.votingStart.value + p.votingDuration && (p.status == Voting || p.votingStart.value <= now)
  {
    hide FinalStatus, Carried;
    StatusOverTime(p, now);
  }

  /** A fast-track proposal that reaches its threshold leaves the sandbox for the next weekly vote. */
  function Graduated(p: Proposal, now: nat): Proposal {
    if p.flow == FastTrack && p.status == Sandbox && SandboxThresholdMet(p)
    then p.(votingStart := Some(NextVotingStart(now)), status := Scheduled)
    else p
  }

  /** A sandboxed proposal graduates exactly when the accounts in favour hold the sandbox share of the snapshot, rounded
      down; its vote then starts on the first Monday midnight after `now`. */
  lemma GraduatesIff(p: Proposal, votes: map<AccountId, nat>, leaves: seq<Account>, t: nat, k: nat, now: nat,
                     between: nat)
    requires Stamped(leaves, t) && AllBpsValid(leaves) && Tallied(p, votes, leaves, t, k)
    requires p.flow == FastTrack && p.status == Sandbox && p.snapshotTotal.Some?
    ensures var q := Graduated(p, now);
            && (q != p <==> (PowerOfVoters(leaves, Voters(votes, 0), t, k) + 1) * MAX_BPS
                            > p.snapshotTotal.value * p.sandboxBps)
            && (q != p ==>
                  && q.status == Scheduled && q.votingStart.Some? && q.sandboxStart == p.sandboxStart
                  && now < q.votingStart.value && IsMondayMidnight(q.votingStart.value)
                  && (now < between < q.votingStart.value ==> !IsMondayMidnight(between)))
  {
    hide PowerOfVoters, BpsValid, BpsOf, NextVotingStart, IsMondayMidnight;
    QuorumRounds(PowerOf(p, 0), p.snapshotTotal.value, p.sandboxBps);
    NextVotingStartIsNextMonday(now, between);
  }

  /** A vote leaves the proposal in its slot: same start, an end in the future. */
  lemma VoteAmends(was: Proposal, previous: Option<nat>, option: nat, power: nat, now: nat)
    requires VP.WellFormed(was) && IsActive(was.status) && HasRun(was) && SlotStart(was) <= now
    requires VoteAllowed(Update(was, now), option) && VoteFits(Update(was, now), previous, option, power)
    ensures Amends(was, Graduated(WithVote(Update(was, now), previous, option, power), now), now)
  {
    hide FinalStatus, NextVotingStart, SandboxThresholdMet, IsMondayMidnight, VoteFits, RemoveVote, AddVote;
    NextVotingStartIsNextMonday(now, now);
    var p := Update(was, now);
    UpdateChangesStatusOnly(was, now);
    assert SameButVotes(p, WithVote(p, previous, option, power)) by { WithVoteKeeps(p, previous, option, power); }
  }

  predicate SameButVotes(p: Proposal, q: Proposal) { q == p.(votes := q.votes, totalVotes := q.totalVotes) }

  lemma WithVoteKeeps(p: Proposal, previous: Option<nat>, option: nat, power: nat)
    requires VoteFits(p, previous, option, power)
    ensures SameButVotes(p, WithVote(p, previous, option, power))
  {
  }

  /** Storing the snapshot leaves the proposal in its slot too. */
  lemma SnapshotAmends(was: Proposal, total: nat, now: nat)
    requires VP.WellFormed(was) && IsActive(was.status) && HasRun(was) && Update(was, now).status in {Sandbox, Voting}
    ensures Amends(was, Update(was, now).(snapshotTotal := Some(total)), now)
  {
    hide FinalStatus;
    UpdateChangesStatusOnly(was, now);
  }

  lemma {:induction false} NoPower(leaves: seq<Account>, t: nat, k: nat)
    requires Stamped(leaves, t) && AllBpsValid(leaves)
    ensures PowerOfVoters(leaves, {}, t, k) == 0
  {
    if leaves != [] { NoPower(leaves[1..], t, k); }
  }

  lemma NobodyVoted(p: Proposal, leaves: seq<Account>, t: nat, k: nat)
    requires Stamped(leaves, t) && AllBpsValid(leaves)
    requires p.votes == [VoteStats(0, 0), VoteStats(0, 0), VoteStats(0, 0)] && p.totalVotes == VoteStats(0, 0)
    ensures Tallied(p, map[], leaves, t, k)
  {
    hide PowerOfVoters, BpsValid;
    NoPower(leaves, t, k);
    var none: map<AccountId, nat> := map[];
    assert none.Keys == {};
    assert forall o :: 0 <= o < OPTIONS ==> Voters(none, o) == {};
  }

  class Ballot {
    var proposal: Proposal
    var votes: map<AccountId, nat>
    const snapshot: Snapshot
    const f: Hashing<Account>
    const contractId: AccountId
    const storageFee: nat            // vote_storage_fee
    ghost const store: Store         // the veNEAR state the snapshot was taken of

    ghost predicate Valid()
      reads this
    {
      && SnapshotOf(snapshot, store, f) && Injective(f)
      && Stamped(store.data, ToSeconds(snapshot.timestampNs)) && AllBpsValid(store.data)
      && Tallied(proposal, votes, store.data, ToSeconds(snapshot.timestampNs), PerUnit(snapshot.rate))
      && proposal.snapshotTotal == Some(snapshot.totalVenear)
      && (proposal.status == Sandbox ==> AllInFavour(votes))
    }

    /** A proposal that has just been given its snapshot and has no votes yet. */
    constructor (p: Proposal, snapshot: Snapshot, f: Hashing<Account>, contractId: AccountId, storageFee: nat,
                 ghost store: Store)
      requires SnapshotOf(snapshot, store, f) && Injective(f) && p.snapshotTotal == Some(snapshot.totalVenear)
      requires p.votes == [VoteStats(0, 0), VoteStats(0, 0), VoteStats(0, 0)] && p.totalVotes == VoteStats(0, 0)
      ensures Valid() && proposal == p && votes == map[] && this.snapshot == snapshot && this.f == f
      ensures this.contractId == contractId && this.storageFee == storageFee && this.store == store
    {
      hide SnapshotOf, Injective, OwnedPower, Exact, PerUnit, ToSeconds;
      ExactSnapshot(snapshot, store, f);
      proposal, votes := p, map[];
      this.snapshot, this.f, this.contractId, this.storageFee, this.store := snapshot, f, contractId, storageFee, store;
      SnapshotFacts(snapshot, store, f);
      NobodyVoted(p, store.data, ToSeconds(snapshot.timestampNs), PerUnit(snapshot.rate));
    }

    /** What a vote has to pay for storage: a changed vote needs none. */
    function Fee(voter: AccountId): nat
      reads this
    {
      if voter in votes then 0 else storageFee
    }

    /** When a vote goes through. */
    ghost predicate Votable(option: nat, proof: MT.Proof, account: Account, caller: AccountId, attached: nat, now: nat)
      requires VP.WellFormed(proposal)
      reads this
    {
      && VoteAllowed(Update(proposal, now), option)
      && MT.Accepts(f, snapshot.root, snapshot.length, account, proof)
      && (account.id == caller || caller == contractId)
      && TotalBalance(account, snapshot).Some? && TotalBalance(account, snapshot).value > 0
      && Previous(votes, account.id) != Some(option)
      && attached > 0 && attached >= Fee(account.id)
    }

    /** `vote`: `false` is a panic, which changes nothing. What exceeds the fee and one yocto is sent back. */
    method Vote(option: nat, proof: MT.Proof, account: Account, caller: AccountId, attached: nat, now: nat)
      returns (ok: bool, refund: nat)
      requires Valid() && VP.WellFormed(proposal) && option < OPTIONS
      requires NoCollision(f, store.data, account, proof)
      modifies this
      ensures Valid()
      ensures ok == old(Votable(option, proof, account, caller, attached, now))
      ensures ok ==> refund <= attached && attached - refund >= old(Fee(account.id))
      ensures ok ==> refund == if attached > old(Fee(account.id)) then attached - old(Fee(account.id)) - 1 else 0
      ensures !ok ==> proposal == old(proposal) && votes == old(votes)
      ensures ok ==>
        && votes == old(votes)[account.id := option]
        && VoteFits(Update(old(proposal), now), Previous(old(votes), account.id), option,
                    TotalBalance(account, snapshot).value)
        && proposal == Graduated(WithVote(Update(old(proposal), now), Previous(old(votes), account.id), option,
                                          TotalBalance(account, snapshot).value), now)
    {
      hide SnapshotOf, Injective, Update, TotalBalance, MT.Accepts, OwnedPower, Exact, PerUnit, ToSeconds, Counts,
           WithVote, SandboxThresholdMet, NextVotingStart, VP.WellFormed, NoCollision, Root, Tallied, VoteFits,
           Graduated;
      refund := 0;
      if attached == 0 { return false, 0; }
      var p := Update(proposal, now);
      if !VoteAllowed(p, option) { return false, 0; }
      var valid := MT.IsValid(f, snapshot.root, snapshot.length, account, proof);
      if !valid || !(account.id == caller || caller == contractId) { return false, 0; }
      var balance := TotalBalance(account, snapshot);
      if balance.None? || balance.value == 0 { return false, 0; }
      var previous := Previous(votes, account.id);
      if previous == Some(option) { return false, 0; }
      var fee := if previous.Some? then 0 else storageFee;
      if attached < fee { return false, 0; }
      if attached > fee + 1 { refund := attached - (fee + 1); }
      UpdateChangesStatusOnly(proposal, now);
      CastIsTallied(snapshot, store, f, proposal, p, votes, account, proof, option, now);
      StaysInFavour(proposal, votes, previous, account.id, option, balance.value, now);
      p := Graduated(WithVote(p, previous, option, balance.value), now);
      proposal, votes := p, votes[account.id := option];
      ok := true;
    }

    /** No ballot holds more veNEAR than the snapshot's total supply. */
    method TotalVotes() returns (total: nat)
      requires Valid()
      ensures total == proposal.totalVotes.totalVenear <= snapshot.totalVenear
      ensures |proposal.votes| == OPTIONS
      ensures total == proposal.votes[0].totalVenear + proposal.votes[1].totalVenear + proposal.votes[2].totalVenear
      ensures proposal.status == Sandbox ==> total == proposal.votes[0].totalVenear
    {
      hide SnapshotOf, Injective, OwnedPower, Exact, PerUnit, ToSeconds, SumPower, PowerOfVoters;
      WithinSupply(snapshot, store, f, proposal, votes);
      if proposal.status == Sandbox { InFavourIsAll(votes); }
      total := proposal.totalVotes.totalVenear;
    }
  }

  /** A tally of a genuine snapshot stays within its total supply. */
  lemma WithinSupply(n: Snapshot, s: Store, f: Hashing<Account>, p: Proposal, votes: map<AccountId, nat>)
    requires SnapshotOf(n, s, f) && Stamped(s.data, ToSeconds(n.timestampNs)) && AllBpsValid(s.data)
    requires Tallied(p, votes, s.data, ToSeconds(n.timestampNs), PerUnit(n.rate))
    ensures p.totalVotes.totalVenear <= n.totalVenear
    ensures p.totalVotes.totalVenear == p.votes[0].totalVenear + p.votes[1].totalVenear + p.votes[2].totalVenear
  {
    SnapshotFacts(n, s, f);
    hide SnapshotOf, OwnedPower, Exact, PerUnit, ToSeconds, SumPower, PowerOfVoters;
    PowerAtMostAll(s.data, votes.Keys, ToSeconds(n.timestampNs), PerUnit(n.rate));
    OptionsAddUp(s.data, votes, ToSeconds(n.timestampNs), PerUnit(n.rate));
    assert Counts(p.votes[0], Voters(votes, 0), s.data, ToSeconds(n.timestampNs), PerUnit(n.rate));
    assert Counts(p.votes[1], Voters(votes, 1), s.data, ToSeconds(n.timestampNs), PerUnit(n.rate));
    assert Counts(p.votes[2], Voters(votes, 2), s.data, ToSeconds(n.timestampNs), PerUnit(n.rate));
  }

  /** An accepted vote is tallied with the power of the account's own leaf. */
  lemma CastIsTallied(n: Snapshot, s: Store, f: Hashing<Account>, was: Proposal, p: Proposal,
                      votes: map<AccountId, nat>, a: Account, proof: MT.Proof, option: nat, now: nat)
    requires SnapshotOf(n, s, f) && Injective(f) && NoCollision(f, s.data, a, proof)
    requires MT.Accepts(f, n.root, n.length, a, proof) && TotalBalance(a, n).Some?
    requires Stamped(s.data, ToSeconds(n.timestampNs)) && AllBpsValid(s.data)
    requires Tallied(was, votes, s.data, ToSeconds(n.timestampNs), PerUnit(n.rate)) && SameButStatus(was, p)
    requires option < OPTIONS && Previous(votes, a.id) != Some(option)
    ensures VoteFits(p, Previous(votes, a.id), option, TotalBalance(a, n).value)
    ensures var q := WithVote(p, Previous(votes, a.id), option, TotalBalance(a, n).value);
            && Tallied(Graduated(q, now), votes[a.id := option], s.data, ToSeconds(n.timestampNs), PerUnit(n.rate))
            && Graduated(q, now).snapshotTotal == p.snapshotTotal
  {
    SnapshotFacts(n, s, f);
    hide SnapshotOf, OwnedPower, Exact, PerUnit, ToSeconds, Counts, TotalBalance, VoteFits, WithVote, MT.Accepts,
         Injective, Tallied, Root, NoCollision, Graduated, Previous, BpsValid, SumPower, Updated, Stamped,
         AllBpsValid, DistinctIds;
    AcceptedIsLeaf(f, s.data, a, proof);
    LeafBalance(n, s, f, proof.index);
    var t, k := ToSeconds(n.timestampNs), PerUnit(n.rate);
    var previous, power := Previous(votes, a.id), TotalBalance(a, n).value;
    TalliedFrame(was, p, votes, s.data, t, k);
    VoteIsTallied(p, votes, s.data, proof.index, option, t, k);
    WithVoteKeeps(p, previous, option, power);
    var q := WithVote(p, previous, option, power);
    GraduatedKeeps(q, now);
    TalliedFrame(q, Graduated(q, now), votes[a.id := option], s.data, t, k);
  }

  lemma GraduatedKeeps(p: Proposal, now: nat)
    ensures var q := Graduated(p, now);
            q.votes == p.votes && q.totalVotes == p.totalVotes && q.snapshotTotal == p.snapshotTotal
  {
  }

  lemma TalliedFrame(p: Proposal, q: Proposal, votes: map<AccountId, nat>, leaves: seq<Account>, t: nat, k: nat)
    requires Stamped(leaves, t) && AllBpsValid(leaves) && Tallied(p, votes, leaves, t, k)
    requires q.votes == p.votes && q.totalVotes == p.totalVotes
    ensures Tallied(q, votes, leaves, t, k)
  {
    hide Counts, BpsValid;
  }
}
