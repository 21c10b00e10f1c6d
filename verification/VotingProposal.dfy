/** The life of one proposal: statuses that follow the clock, and the moment an active slot is given back. */
module VotingProposal {
  import opened Options
  import opened Arith
  import opened VenearBalance

  type ProposalId = nat

  datatype Flow = Classic | FastTrack

  datatype Status =
    | Created | Rejected | Vetoed | Queued | Sandbox | Scheduled | Voting | Timelock | Slashed
    | Succeeded | Expired | Defeated | Executable | InProgress | Failed | ApprovalLegacy | FinishLegacy

  datatype VoteStats = VoteStats(totalVenear: nat, totalVotes: nat)

  datatype Proposal = Proposal(
    id: ProposalId,
    flow: Flow,
    status: Status,
    expiration: nat,
    votingStart: Option<nat>,
    sandboxStart: Option<nat>,
    votingDuration: nat,
    timelockDuration: nat,
    sandboxDuration: nat,
    snapshotTotal: Option<nat>,        // total_venear of the snapshot, once taken
    votes: seq<VoteStats>,             // For, Against, Abstain
    totalVotes: VoteStats,
    quorumBps: nat,
    quorumFloor: nat,
    approvalBps: nat,
    sandboxBps: nat,
    hasActions: bool)

  /** A proposal in one of these statuses occupies an active slot. */
  predicate IsActive(s: Status) { s.Sandbox? || s.Scheduled? || s.Voting? || s.Timelock? }

  function PowerOf(p: Proposal, option: nat): nat {
    if option < |p.votes| then p.votes[option].totalVenear else 0
  }

  /** Quorum and approval, decided on the votes cast. */
  function FinalStatus(p: Proposal): (s: Status)
    ensures s in {Succeeded, Defeated}
  {
    if p.snapshotTotal.None? then Defeated
    else
      var bpsQuorum := BpsOf(p.quorumBps, p.snapshotTotal.value);
      var quorumMet := p.totalVotes.totalVenear >= (if bpsQuorum >= p.quorumFloor then bpsQuorum else p.quorumFloor);
      var forPower, againstPower := PowerOf(p, 0), PowerOf(p, 1);
      var approvalMet := forPower + againstPower > 0
                      && forPower * MAX_BPS >= p.approvalBps * (forPower + againstPower);
      if quorumMet && approvalMet then Succeeded else Defeated
  }

  /** The vote carries: turnout reaches the floor and the quorum's share of the snapshot, rounded down, and the
      supporters' part of the votes that took a side reaches the approval threshold. */
  ghost predicate Carries(p: Proposal, quorumBps: nat, quorumFloor: nat, approvalBps: nat) {
    && p.snapshotTotal.Some?
    && p.totalVotes.totalVenear >= quorumFloor
    && (p.totalVotes.totalVenear + 1) * MAX_BPS > p.snapshotTotal.value * quorumBps
    && PowerOf(p, 0) + PowerOf(p, 1) > 0
    && PowerOf(p, 0) as real / (PowerOf(p, 0) + PowerOf(p, 1)) as real >= approvalBps as real / MAX_BPS as real
  }

  /** The vote carries under the proposal's own terms. */
  ghost predicate Carried(p: Proposal) { Carries(p, p.quorumBps, p.quorumFloor, p.approvalBps) }

  lemma FinalStatusIs(p: Proposal)
    ensures FinalStatus(p) == Succeeded <==> Carried(p)
    ensures FinalStatus(p) == Defeated <==> !Carried(p)
  {
    if p.snapshotTotal.Some? {
      QuorumRounds(p.totalVotes.totalVenear, p.snapshotTotal.value, p.quorumBps);
      var f, all := PowerOf(p, 0), PowerOf(p, 0) + PowerOf(p, 1);
      if all > 0 { RatioIs(f, all, p.approvalBps, MAX_BPS); }
    }
  }

  lemma QuorumRounds(total: nat, supply: nat, bps: nat)
    ensures total >= BpsOf(bps, supply) <==> (total + 1) * MAX_BPS > supply * bps
  {
    Quot(supply * bps / MAX_BPS, supply * bps, MAX_BPS);
  }

  lemma RatioIs(f: nat, all: nat, bps: nat, whole: nat)
    requires all > 0 && whole > 0
    ensures f as real / all as real >= bps as real / whole as real <==> f * whole >= bps * all
  {
    var x, y := f as real / all as real, bps as real / whole as real;
    var scale := all as real * whole as real;
    assert scale > 0.0;
    assert x * scale == (f * whole) as real by {
      assert x * all as real == f as real;
      assert x * scale == (x * all as real) * whole as real;
    }
    assert y * scale == (bps * all) as real by {
      assert y * whole as real == bps as real;
      assert y * scale == (y * whole as real) * all as real;
    }
    OrderScales(x, y, scale);
  }

  lemma OrderScales(x: real, y: real, scale: real)
    requires scale > 0.0
    ensures x >= y <==> x * scale >= y * scale
  {
    if x < y { assert (y - x) * scale > 0.0; }
    if x > y { assert (x - y) * scale > 0.0; }
  }

  function SandboxThresholdMet(p: Proposal): bool {
    p.snapshotTotal.Some? && PowerOf(p, 0) >= BpsOf(p.sandboxBps, p.snapshotTotal.value)
  }

  /** The start times that a status relies on are set. */
  predicate WellFormed(p: Proposal) {
    match p.flow
    case Classic =>
      && p.status !in {Sandbox, Scheduled, Slashed}
      && (p.status in {Voting, Timelock} ==> p.votingStart.Some?)
      && (p.status == Timelock ==> FinalStatus(p) == Succeeded)
    case FastTrack =>
      && p.status != Timelock
      && (p.status in {Created, Queued} ==> p.votingStart.None?)
      && (p.status == Sandbox ==> p.votingStart.None? && p.sandboxStart.Some?)
      && (p.status in {Scheduled, Voting} ==>
            p.votingStart.Some? && p.sandboxStart.Some? && p.sandboxStart.value <= p.votingStart.value)
  }

  function UpdateClassic(p: Proposal, now: nat): Proposal
    requires p.flow == Classic && WellFormed(p)
  {
    match p.status
    case Created => if p.expiration > 0 && now >= p.expiration then p.(status := Expired) else p
    case Voting | Timelock =>
      var votingEnd := p.votingStart.value + p.votingDuration;
      if now < votingEnd then p
      else if FinalStatus(p) != Succeeded then p.(status := FinalStatus(p))
      else if now < votingEnd + p.timelockDuration then p.(status := Timelock)
      else p.(status := if p.hasActions then Executable else Succeeded)
    case _ => p
  }

  function UpdateFastTrack(p: Proposal, now: nat): Proposal
    requires p.flow == FastTrack && WellFormed(p)
  {
    match p.status
    case Created => if p.expiration > 0 && now >= p.expiration then p.(status := Expired) else p
    case Sandbox => if now >= p.sandboxStart.value + p.sandboxDuration then p.(status := Defeated) else p
    case Scheduled | Voting =>
      if now >= p.votingStart.value + p.votingDuration then
        if FinalStatus(p) != Succeeded then p.(status := FinalStatus(p))
        else p.(status := if p.hasActions then Executable else Succeeded)
      else if now >= p.votingStart.value then p.(status := Voting)
      else p
    case _ => p
  }

  function Update(p: Proposal, now: nat): Proposal
    requires WellFormed(p)
  {
    if p.flow == Classic then UpdateClassic(p, now) else UpdateFastTrack(p, now)
  }

  /** The first active status, entered from the queue or at approval. */
  function Activate(p: Proposal, start: nat): Proposal {
    if p.flow == Classic then p.(votingStart := Some(start), status := Voting)
    else p.(sandboxStart := Some(start), status := Sandbox)
  }

  /** A proposal that has held a slot. */
  predicate HasRun(p: Proposal) {
    match p.flow
    case Classic => p.votingStart.Some?
    case FastTrack =>
      p.sandboxStart.Some? && (p.votingStart.Some? ==> p.sandboxStart.value <= p.votingStart.value)
  }

  /** When the slot was taken. */
  function SlotStart(p: Proposal): nat
    requires HasRun(p)
  {
    if p.flow == Classic then p.votingStart.value else p.sandboxStart.value
  }

  /** `active_end_time_ns`: when the slot is given back. */
  function SlotEnd(p: Proposal): nat
    requires HasRun(p)
  {
    match p.flow
    case Classic =>
      var votingEnd := p.votingStart.value + p.votingDuration;
      if FinalStatus(p) == Succeeded then votingEnd + p.timelockDuration else votingEnd
    case FastTrack =>
      if p.votingStart.Some? then p.votingStart.value + p.votingDuration
      else p.sandboxStart.value + p.sandboxDuration
  }

  /** Two proposals that differ in status only. */
  predicate SameButStatus(p: Proposal, q: Proposal) { q == p.(status := q.status) }

  /** Time changes nothing but the status, and keeps a proposal well formed. */
  lemma UpdateChangesStatusOnly(p: Proposal, t: nat)
    requires WellFormed(p)
    ensures SameButStatus(p, Update(p, t)) && WellFormed(Update(p, t))
    ensures HasRun(p) ==>
      HasRun(Update(p, t)) && SlotStart(Update(p, t)) == SlotStart(p) && SlotEnd(Update(p, t)) == SlotEnd(p)
    ensures !IsActive(p.status) ==> !IsActive(Update(p, t).status)
  {
  }

  /** Looking at a proposal early does not change what is seen later. */
  lemma UpdateTwice(p: Proposal, t1: nat, t2: nat)
    requires WellFormed(p) && t1 <= t2
    ensures WellFormed(Update(p, t1)) && Update(Update(p, t1), t2) == Update(p, t2)
  {
    hide FinalStatus;
    if p.flow == Classic { UpdateClassicTwice(p, t1, t2); } else { UpdateFastTrackTwice(p, t1, t2); }
  }

  lemma UpdateClassicTwice(p: Proposal, t1: nat, t2: nat)
    requires p.flow == Classic && WellFormed(p) && t1 <= t2
    ensures var q := UpdateClassic(p, t1);
            q.flow == Classic && WellFormed(q) && UpdateClassic(q, t2) == UpdateClassic(p, t2)
  {
    hide FinalStatus;
    FinalIgnoresStatus(p, UpdateClassic(p, t1));
  }

  lemma UpdateFastTrackTwice(p: Proposal, t1: nat, t2: nat)
    requires p.flow == FastTrack && WellFormed(p) && t1 <= t2
    ensures var q := UpdateFastTrack(p, t1);
            q.flow == FastTrack && WellFormed(q) && UpdateFastTrack(q, t2) == UpdateFastTrack(p, t2)
  {
    hide FinalStatus;
    FinalIgnoresStatus(p, UpdateFastTrack(p, t1));
  }

  lemma FinalIgnoresStatus(p: Proposal, q: Proposal)
    requires SameButStatus(p, q)
    ensures FinalStatus(p) == FinalStatus(q)
  {
  }

  /** An active proposal leaves its slot exactly when its end time is reached. */
  lemma ExitsAtSlotEnd(p: Proposal, t: nat)
    requires WellFormed(p) && IsActive(p.status)
    ensures HasRun(p) && SlotStart(p) <= SlotEnd(p)
    ensures !IsActive(Update(p, t).status) <==> t >= SlotEnd(p)
  {
  }

  /** What an active proposal has become once its slot has ended. */
  lemma EndsAs(p: Proposal, t: nat)
    requires WellFormed(p) && IsActive(p.status) && HasRun(p) && t >= SlotEnd(p)
    ensures var status := Update(p, t).status;
            if p.votingStart.None? || !Carried(p) then status == Defeated
            else status == if p.hasActions then Executable else Succeeded
  {
    hide FinalStatus, Carried;
    FinalStatusIs(p);
  }

  /** The life of a proposal against the clock, from the status it is stored with. */
  lemma StatusOverTime(p: Proposal, t: nat)
    requires WellFormed(p)
    ensures var status := Update(p, t).status;
            match p.status
            case Created => status == if 0 < p.expiration <= t then Expired else Created
            case Sandbox => status == if t < p.sandboxStart.value + p.sandboxDuration then Sandbox else Defeated
            case Scheduled =>
              && (status == Scheduled <==> t < p.votingStart.value)
              && (status == Voting <==> p.votingStart.value <= t < p.votingStart.value + p.votingDuration)
            case Voting =>
              var end := p.votingStart.value + p.votingDuration;
              && (status == Voting <==> t < end)
              && (status == Timelock <==> p.flow == Classic && Carried(p) && end <= t < end + p.timelockDuration)
            case Timelock => status == Timelock <==> t < SlotEnd(p)
            case _ => status == p.status
  {
    hide FinalStatus, Carried;
    FinalStatusIs(p);
  }

  lemma ActivateStarts(p: Proposal, start: nat)
    requires WellFormed(p) && p.status == Queued
    ensures var q := Activate(p, start);
            WellFormed(q) && IsActive(q.status) && q.status != Timelock && HasRun(q) && SlotStart(q) == start
  {
  }

  /** Two proposals that differ in status and start times only. */
  predicate SameButStart(p: Proposal, q: Proposal) {
    q == p.(status := q.status, votingStart := q.votingStart, sandboxStart := q.sandboxStart)
  }

  /** The life of a proposal from its start: a classic vote runs for its own duration and, if it carries, through its
      timelock; a fast-track proposal has its sandbox time to graduate. What is voted on stays the same. */
  lemma LifeFromStart(p: Proposal, start: nat, t: nat)
    requires WellFormed(p) && p.status in {Created, Queued}
    ensures WellFormed(Activate(p, start)) && SameButStart(p, Activate(p, start))
    ensures var status, end := Update(Activate(p, start), t).status, start + p.votingDuration;
            match p.flow
            case FastTrack => status == if t < start + p.sandboxDuration then Sandbox else Defeated
            case Classic =>
              && (t < end ==> status == Voting)
              && (t >= end && !Carried(p) ==> status == Defeated)
              && (end <= t < end + p.timelockDuration && Carried(p) ==> status == Timelock)
              && (t >= end + p.timelockDuration && Carried(p) ==>
                    status == if p.hasActions then Executable else Succeeded)
  {
    hide FinalStatus, Carries;
    var q := Activate(p, start);
    StatusOverTime(q, t);
    FinalStatusIs(q);
    SameVote(p, q);
    if t >= SlotEnd(q) { EndsAs(q, t); }
  }

  lemma SameVote(p: Proposal, q: Proposal)
    requires SameButStart(p, q)
    ensures Carried(p) <==> Carried(q)
  {
  }

  // ---------------------------------------------------------------------------
  // The weekly voting start
  // ---------------------------------------------------------------------------

  const DAY: nat := 86_400_000_000_000
  const CET_OFFSET: nat := 3_600_000_000_000

  function NextVotingStart(after: nat): nat {
    var days := (after + CET_OFFSET) / DAY;
    (days + (10 - days % 7) % 7 + 1) * DAY - CET_OFFSET
  }

  /** Monday 00:00 at UTC+1; day 0 was a Thursday. */
  predicate IsMondayMidnight(t: nat) { (t + CET_OFFSET) % DAY == 0 && (t + CET_OFFSET) / DAY % 7 == 4 }

  lemma DayOf(x: nat, day: nat)
    requires x / DAY == day
    ensures day * DAY <= x < (day + 1) * DAY
  {
  }

  /** No Monday lies strictly between a day and the next Monday computed from it. */
  lemma NoMondayBetween(days: nat, day: nat)
    requires days < day < days + (10 - days % 7) % 7 + 1
    ensures day % 7 != 4
  {
  }

  lemma IsNextMonday(days: nat)
    ensures (days + (10 - days % 7) % 7 + 1) % 7 == 4
  {
  }

  /** The start of a scheduled vote is the first Monday midnight strictly after the given time. */
  lemma NextVotingStartIsNextMonday(after: nat, t: nat)
    ensures after < NextVotingStart(after) && IsMondayMidnight(NextVotingStart(after))
    ensures after < t < NextVotingStart(after) ==> !IsMondayMidnight(t)
  {
    var days := (after + CET_OFFSET) / DAY;
    DayOf(after + CET_OFFSET, days);
    IsNextMonday(days);
    var day := (t + CET_OFFSET) / DAY;
    DayOf(t + CET_OFFSET, day);
    if days < day < days + (10 - days % 7) % 7 + 1 { NoMondayBetween(days, day); }
  }
}
