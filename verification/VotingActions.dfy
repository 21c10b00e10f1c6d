/** What the reviewers', the council's and the owner's calls do to the board. */
module VotingActions {
  import opened Options
  import opened VotingProposal
  import opened VotingQueue
  import opened VotingAdvance

  /** `internal_set_proposal`: the active set follows the status. */
  function Stored(b: Board, p: Proposal): Board {
    b.(proposals := b.proposals[p.id := p],
       active := if IsActive(p.status) then b.active + {p.id} else b.active - {p.id})
  }

  lemma StoredIsConsistent(b: Board, p: Proposal)
    requires Consistent(b) && WellFormed(p)
    ensures Consistent(Stored(b, p))
  {
    hide WellFormed, IsActive;
  }

  /** Writing a proposal that is not queued leaves the queue waiting. */
  lemma StoredKeepsWaiting(b: Board, p: Proposal)
    requires Waiting(b.proposals, b.queue) && p.id !in b.queue
    ensures Waiting(Stored(b, p).proposals, b.queue)
  {
    hide IsWaiting;
  }

  datatype Majority = Simple | Strong

  datatype Config = Config(
    quorumBps: nat, quorumFloor: nat, approvalBps: nat, simpleBps: nat, strongBps: nat,
    sandboxDuration: nat, sandboxBps: nat)

  /** The terms a proposal is voted under are fixed at approval; `None` is the missing majority type. */
  function WithTerms(p: Proposal, c: Config, majority: Option<Majority>): Option<Proposal> {
    var q := p.(quorumBps := c.quorumBps, quorumFloor := c.quorumFloor);
    match p.flow
    case Classic => Some(q.(approvalBps := c.approvalBps))
    case FastTrack =>
      if majority.None? then None
      else Some(q.(approvalBps := if majority.value == Simple then c.simpleBps else c.strongBps,
                   sandboxDuration := c.sandboxDuration, sandboxBps := c.sandboxBps))
  }

  /** The approval threshold that a review selects: the classic one, or that of the majority asked for. */
  function Threshold(flow: Flow, c: Config, majority: Majority): nat {
    match (flow, majority)
    case (Classic, _) => c.approvalBps
    case (FastTrack, Simple) => c.simpleBps
    case (FastTrack, Strong) => c.strongBps
  }

  /** A review fixes what the proposal will be decided by: whatever votes it gets, it carries exactly when it does under
      the settings of the review, and it leaves the sandbox by those settings. Only a fast-track review needs a majority
      type. */
  lemma TermsDecide(p: Proposal, c: Config, majority: Option<Majority>, votes: seq<VoteStats>, total: VoteStats)
    ensures WithTerms(p, c, majority).None? <==> p.flow == FastTrack && majority.None?
    ensures WithTerms(p, c, majority).Some? ==>
      var q := WithTerms(p, c, majority).value.(votes := votes, totalVotes := total);
      var m := if majority.Some? then majority.value else Simple;
      && (Carried(q) <==> Carries(q, c.quorumBps, c.quorumFloor, Threshold(p.flow, c, m)))
      && (p.flow == FastTrack ==> q.sandboxBps == c.sandboxBps && q.sandboxDuration == c.sandboxDuration)
      && (q.id, q.flow, q.status, q.expiration) == (p.id, p.flow, p.status, p.expiration)
      && (q.votingDuration, q.timelockDuration, q.hasActions) == (p.votingDuration, p.timelockDuration, p.hasActions)
  {
    hide Carries;
  }

  /** The record `approve_proposal` works on, on a board that has been advanced; `None` is a panic. */
  ghost function Approvable(b: Board, id: ProposalId, c: Config, majority: Option<Majority>, now: nat): Option<Proposal>
    requires Consistent(b)
  {
    if id !in b.proposals || Update(b.proposals[id], now).status != Created then None
    else WithTerms(Update(b.proposals[id], now), c, majority)
  }

  /** `approve_proposal` after the queue has been advanced: a free slot is taken at once, else the queue is joined. */
  ghost function Approved(b: Board, p: Proposal, now: nat): Board {
    if |b.active| < b.cap then Stored(b, Activate(p, now))
    else Stored(b, p.(status := Queued)).(queue := b.queue + [p.id])
  }

  ghost predicate Vetoable(b: Board, id: ProposalId, now: nat)
    requires Consistent(b)
  {
    && id in b.proposals
    && var p := Update(b.proposals[id], now);
       (p.flow == Classic && p.status == Timelock) || (p.flow == FastTrack && p.status in {Voting, Scheduled})
  }

  /** When the council may veto a proposal that is stored as it started its vote: in the timelock of a classic vote that
      carried, and from graduation to the end of the vote of a fast-track one. */
  lemma VetoWindow(b: Board, id: ProposalId, now: nat)
    requires Consistent(b) && id in b.proposals && b.proposals[id].status in {Sandbox, Scheduled, Voting}
    ensures var p := b.proposals[id];
            Vetoable(b, id, now) <==>
              && p.votingStart.Some?
              && now < SlotEnd(p)
              && (p.flow == Classic ==> Carried(p) && p.votingStart.value + p.votingDuration <= now)
  {
    hide FinalStatus, Carried;
    StatusOverTime(b.proposals[id], now);
    FinalStatusIs(b.proposals[id]);
  }

  /** The vetoed proposal loses its slot. */
  ghost function AfterVeto(b: Board, id: ProposalId, now: nat): Board
    requires Consistent(b) && Vetoable(b, id, now)
  {
    Stored(b, Update(b.proposals[id], now).(status := Status.Vetoed))
  }

  ghost predicate Waivable(b: Board, id: ProposalId, now: nat)
    requires Consistent(b)
  {
    id in b.proposals && Update(b.proposals[id], now).status == Timelock
  }

  /** When the timelock of a classic vote may be waived: the vote is over and carried, the timelock is running. */
  lemma WaiverWindow(b: Board, id: ProposalId, now: nat)
    requires Consistent(b) && id in b.proposals && b.proposals[id].status in {Sandbox, Scheduled, Voting}
    ensures var p := b.proposals[id];
            Waivable(b, id, now) <==>
              && p.flow == Classic && Carried(p)
              && p.votingStart.value + p.votingDuration <= now
              && now < p.votingStart.value + p.votingDuration + p.timelockDuration
  {
    hide FinalStatus, Carried;
    StatusOverTime(b.proposals[id], now);
  }

  /** The timelock ends now. */
  ghost function AfterWaiver(b: Board, id: ProposalId, now: nat): Board
    requires Consistent(b) && Waivable(b, id, now)
  {
    var p := Update(b.proposals[id], now);
    Stored(b, p.(status := if p.hasActions then Executable else Succeeded))
  }

  /** A veto is final: the proposal has no slot and stays vetoed at any later time. */
  lemma VetoIsFinal(b: Board, id: ProposalId, now: nat, t: nat)
    requires Consistent(b) && Vetoable(b, id, now)
    ensures var b' := AfterVeto(b, id, now);
            && id !in b'.active && id in b'.proposals && WellFormed(b'.proposals[id])
            && b'.proposals[id].status == Status.Vetoed && Update(b'.proposals[id], t) == b'.proposals[id]
            && forall other :: other != id ==>
                 (other in b'.proposals <==> other in b.proposals) && (other in b'.active <==> other in b.active)
                 && (other in b.proposals ==> b'.proposals[other] == b.proposals[other])
  {
    hide FinalStatus;
    UpdateChangesStatusOnly(b.proposals[id], now);
  }

  /** Waiving the timelock brings forward what it would have ended with. */
  lemma WaiverBringsForward(b: Board, id: ProposalId, now: nat, t: nat)
    requires Consistent(b) && Waivable(b, id, now) && HasRun(b.proposals[id]) && t >= SlotEnd(b.proposals[id])
    ensures var b' := AfterWaiver(b, id, now);
            id !in b'.active && id in b'.proposals && b'.proposals[id] == Update(b.proposals[id], t)
  {
    hide FinalStatus, Carried;
    StatusOverTime(b.proposals[id], now);
    UpdateChangesStatusOnly(b.proposals[id], now);
    UpdateChangesStatusOnly(b.proposals[id], t);
    EndsAs(b.proposals[id], t);
    FinalStatusIs(b.proposals[id]);
  }

  // ---------------------------------------------------------------------------
  // The board stays valid
  // ---------------------------------------------------------------------------

  /** A proposal as it is when `approve_proposal` has checked it. */
  predicate Fresh(p: Proposal) { WellFormed(p) && p.status == Created }

  lemma ApprovableIsFresh(b: Board, id: ProposalId, c: Config, majority: Option<Majority>, now: nat)
    requires Consistent(b) && Approvable(b, id, c, majority, now).Some?
    ensures var p := Approvable(b, id, c, majority, now).value;
            Fresh(p) && p.id == id && id in b.proposals && b.proposals[id].status == Created && id !in b.active
  {
    UpdateChangesStatusOnly(b.proposals[id], now);
  }

  lemma ActivateFresh(p: Proposal, now: nat)
    requires Fresh(p)
    ensures WellFormed(Activate(p, now)) && IsActive(Activate(p, now).status) && HasRun(Activate(p, now))
    ensures SlotStart(Activate(p, now)) == now <= SlotEnd(Activate(p, now))
    ensures WellFormed(p.(status := Queued))
  {
    assert WellFormed(p.(status := Queued));
    ExitsAtSlotEnd(Activate(p, now), 0);
  }

  /** An approval starts or queues the proposal, whether or not the board is full. */
  lemma ApprovedIsReady(b: Board, p: Proposal, now: nat)
    requires Ready(b) && Fresh(p) && p.id in b.proposals && b.proposals[p.id].status == Created
    ensures Ready(Approved(b, p, now)) && (Valid(b) ==> Valid(Approved(b, p, now)))
  {
    hide WellFormed, SlotEnd, HasRun, SlotStart, Waiting, Consistent;
    NotInSlotOrQueue(b, p.id);
    ActivateFresh(p, now);
    if |b.active| < b.cap {
      StoredIsConsistent(b, Activate(p, now));
      StoredKeepsWaiting(b, Activate(p, now));
    } else {
      var q := p.(status := Queued);
      StoredIsConsistent(b, q);
      StoredKeepsWaiting(b, q);
      JoinsQueue(Stored(b, q), q);
      ConsistentWithoutQueue(Stored(b, q), b.queue + [p.id]);
    }
    hide Approved, Fresh;
    if Valid(b) { ApprovedIsValid(b, p, now); }
  }

  /** A slot given up early leaves a board that can be advanced. */
  lemma CutKeepsReady(b: Board, p: Proposal, now: nat)
    requires Ready(b) && WellFormed(p) && !IsActive(p.status) && p.id in b.active
    ensures Ready(Stored(b, p)) && Stored(b, p).queue == b.queue && Ready(Advance(Stored(b, p), now))
    ensures Valid(b) ==> Valid(Advance(Stored(b, p), now))
  {
    hide WellFormed, SlotEnd, HasRun, SlotStart, Exits, Advance;
    assert p.id !in b.queue;
    StoredIsConsistent(b, p);
    StoredKeepsWaiting(b, p);
    hide Consistent, Waiting;
    AdvanceIsReady(Stored(b, p), now);
    if Valid(b) { CutIsReady(b, p, now); }
  }

  /** A new cap leaves a board that can be advanced; raising it keeps the board valid. */
  lemma RecappedIsReady(b: Board, cap: nat, now: nat)
    requires Ready(b)
    ensures Ready(b.(cap := cap)) && Ready(Advance(b.(cap := cap), now))
    ensures Valid(b) && b.cap <= cap ==> Valid(Advance(b.(cap := cap), now))
  {
    hide WellFormed, Advance;
    assert Ready(b.(cap := cap));
    AdvanceIsReady(b.(cap := cap), now);
    if Valid(b) && b.cap <= cap { RaisedIsReady(b, cap, now); }
  }

  /** A new proposal starts at once only when nothing is queued, and queues only behind a full active set. */
  lemma ApprovedIsValid(b: Board, p: Proposal, now: nat)
    requires Valid(b) && Fresh(p) && p.id in b.proposals && b.proposals[p.id].status == Created
    ensures Valid(Approved(b, p, now))
    ensures |b.active| < b.cap ==> b.queue == []
  {
    hide WellFormed, SlotEnd, HasRun, SlotStart, Waiting, Consistent, Fresh, Approved;
    NotInSlotOrQueue(b, p.id);
    if |b.active| < b.cap { BegunIsValid(b, p, now); } else { QueuedIsValid(b, p, now); }
  }

  /** An approval takes a slot only while there is one, and only when nothing is queued. */
  lemma ApprovedCounts(b: Board, p: Proposal, now: nat)
    requires Full(b) && Fresh(p) && p.id !in b.active
    ensures |b.active| < b.cap ==> b.queue == [] && Approved(b, p, now).queue == []
                                   && |Approved(b, p, now).active| == |b.active| + 1
    ensures |b.active| >= b.cap ==> Approved(b, p, now).active == b.active
    ensures Approved(b, p, now).cap == b.cap
  {
    hide WellFormed, SlotEnd, HasRun, SlotStart, Waiting, Consistent;
    ActivateFresh(p, now);
    assert b.active - {p.id} == b.active;
  }

  lemma NotInSlotOrQueue(b: Board, id: ProposalId)
    requires Consistent(b) && Waiting(b.proposals, b.queue) && id in b.proposals && b.proposals[id].status == Created
    ensures id !in b.active && id !in b.queue
  {
    hide WellFormed;
  }

  lemma BegunIsValid(b: Board, p: Proposal, now: nat)
    requires Valid(b) && Fresh(p) && p.id !in b.active && p.id !in b.queue && |b.active| < b.cap
    ensures Valid(Approved(b, p, now))
  {
    hide WellFormed, SlotEnd, HasRun, SlotStart, Waiting, Consistent;
    ActivateFresh(p, now);
    StoredIsConsistent(b, Activate(p, now));
    StoredKeepsWaiting(b, Activate(p, now));
  }

  lemma QueuedIsValid(b: Board, p: Proposal, now: nat)
    requires Valid(b) && Fresh(p) && p.id !in b.active && p.id !in b.queue && |b.active| >= b.cap
    ensures Valid(Approved(b, p, now))
  {
    hide WellFormed, SlotEnd, HasRun, SlotStart, Waiting, Consistent;
    var q := p.(status := Queued);
    ActivateFresh(p, now);
    StoredIsConsistent(b, q);
    StoredKeepsWaiting(b, q);
    JoinsQueue(Stored(b, q), q);
    ConsistentWithoutQueue(Stored(b, q), b.queue + [p.id]);
    assert b.active - {p.id} == b.active;
  }

  lemma ConsistentWithoutQueue(b: Board, queue: seq<ProposalId>)
    requires Consistent(b)
    ensures Consistent(b.(queue := queue))
  {
  }

  lemma JoinsQueue(b: Board, p: Proposal)
    requires Waiting(b.proposals, b.queue) && p.id !in b.queue && p.id in b.proposals && b.proposals[p.id] == p
    requires IsWaiting(p, p.id)
    ensures Waiting(b.proposals, b.queue + [p.id])
  {
    hide IsWaiting;
  }

  /** A slot given up early leaves a board that an advance makes valid again. */
  lemma CutIsReady(b: Board, p: Proposal, now: nat)
    requires Valid(b) && WellFormed(p) && !IsActive(p.status) && p.id in b.active
    ensures var b' := Stored(b, p);
            && Consistent(b') && Waiting(b'.proposals, b'.queue) && |b'.active| <= b'.cap
            && |b'.active - Exits(b', now)| <= b'.cap && Valid(Advance(b', now))
  {
    hide WellFormed, SlotEnd, HasRun, SlotStart, Exits, Advance;
    assert p.id !in b.queue;
    StoredIsConsistent(b, p);
    StoredKeepsWaiting(b, p);
    SubsetIsSmaller(b.active - {p.id}, b.active);
    StaysWithinCap(Stored(b, p), now);
    AdvanceIsValid(Stored(b, p), now);
  }

  /** Raising the cap opens slots that the following advance fills. */
  lemma RaisedIsReady(b: Board, cap: nat, now: nat)
    requires Valid(b) && b.cap <= cap
    ensures var b' := b.(cap := cap);
            && Consistent(b') && |b'.active - Exits(b', now)| <= cap && Valid(Advance(b', now))
  {
    hide WellFormed, SlotEnd, HasRun, SlotStart, Exits, Advance;
    StaysWithinCap(b.(cap := cap), now);
    AdvanceIsValid(b.(cap := cap), now);
  }

  lemma VetoedCuts(b: Board, id: ProposalId, now: nat)
    requires Consistent(b) && Vetoable(b, id, now)
    ensures id in b.active && IsActive(Update(b.proposals[id], now).status)
    ensures var p := Update(b.proposals[id], now).(status := Status.Vetoed); WellFormed(p) && p.id == id
  {
    UpdateChangesStatusOnly(b.proposals[id], now);
  }

  lemma WaivedCuts(b: Board, id: ProposalId, now: nat)
    requires Consistent(b) && Waivable(b, id, now)
    ensures id in b.active && IsActive(Update(b.proposals[id], now).status)
    ensures var q := Update(b.proposals[id], now);
            var p := q.(status := if q.hasActions then Executable else Succeeded);
            WellFormed(p) && p.id == id && !IsActive(p.status)
  {
    UpdateChangesStatusOnly(b.proposals[id], now);
  }
}
