/** A run on which the order of advances matters: three approvals for two slots, and then a lower cap. */
module VotingLoweredCap {
  import opened Options
  import opened VotingProposal
  import opened VotingQueue
  import opened VotingAdvance
  import opened VotingConfluence
  import opened VotingActions
  import opened VotingRuns
  import opened VotingDiscipline
  import opened VotingOverfull

  /** A proposal as it is created, before anyone has reviewed it. */
  function NewProposal(id: ProposalId, duration: nat): (p: Proposal)
    ensures Fresh(p) && p.id == id && !HasRun(p)
  {
    Proposal(id, Classic, Created, 0, None, None, duration, 0, 0, None,
             [VoteStats(0, 0), VoteStats(0, 0), VoteStats(0, 0)], VoteStats(0, 0), 0, 0, 0, 0, false)
  }

  /** The same proposal as it is approved. */
  function Reviewed(id: ProposalId, duration: nat, c: Config): (p: Proposal)
    ensures Fresh(p) && p.id == id
  {
    WithTerms(NewProposal(id, duration), c, None).value
  }

  /** The same proposal in the slot it takes at `start`. */
  function InSlot(id: ProposalId, duration: nat, c: Config, start: nat): (p: Proposal)
    ensures p.id == id && WellFormed(p) && p.status == Voting && HasRun(p)
    ensures SlotStart(p) == start && SlotEnd(p) == start + duration
  {
    Activate(Reviewed(id, duration, c), start)
  }

  /** An advance that finds nothing to do. */
  lemma QuietAdvance(b: Board, now: nat)
    requires Ready(b) && (b.queue == [] || |b.active| >= b.cap)
    requires forall id :: id in b.active ==> Update(b.proposals[id], now) == b.proposals[id]
    ensures Advance(b, now) == b
  {
    hide WellFormed, SlotEnd, HasRun, SlotStart, Update, Waiting, Promotions, Ends;
    assert Exits(b, now) == {};
    assert b.active - Exits(b, now) == b.active;
    PromotionsDone(b.proposals, b.queue, Freed(b, now), Room(b, now), now);
    assert Refreshed(b, now) == b.proposals;
  }

  lemma StillInSlot(id: ProposalId, duration: nat, c: Config, start: nat, now: nat)
    requires now < start + duration
    ensures Update(InSlot(id, duration, c, start), now) == InSlot(id, duration, c, start)
  {
  }

  // ---------------------------------------------------------------------------
  // The run, call by call
  // ---------------------------------------------------------------------------

  /** The rest of a run, from the call at `k` on. */
  ghost predicate At(d: Desk, b: Board, es: seq<Event>, k: nat) {
    k <= |es| && Kept(d) && Full(d.board) && d.board == b && Timely(d.clock, es[k..])
  }

  /** One call of a run. */
  lemma Steps(d: Desk, b: Board, es: seq<Event>, k: nat) returns (d': Desk)
    requires At(d, b, es, k) && k < |es|
    ensures d.clock <= es[k].now && d' == Apply(d, es[k])
    ensures At(d', d'.board, es, k + 1) && Run(d, es[k..]) == Run(d', es[k + 1..])
  {
    hide Kept, Full, Apply;
    assert es[k..][1..] == es[k + 1..];
    ApplyKeeps(d, es[k]);
    TimelyTail(d, es[k..]);
    d' := Apply(d, es[k]);
  }

  lemma Creates(d: Desk, b: Board, es: seq<Event>, k: nat) returns (d': Desk)
    requires At(d, b, es, k) && k < |es| && es[k].step.Touch? && Fresh(es[k].step.p)
    requires es[k].step.p.id !in b.proposals
    ensures At(d', b.(proposals := b.proposals[es[k].step.p.id := es[k].step.p]), es, k + 1)
    ensures Run(d, es[k..]) == Run(d', es[k + 1..])
  {
    hide Kept, WellFormed, SlotEnd, HasRun, SlotStart, Run;
    d' := Steps(d, b, es, k);
    KeptParts(d);
    var id := es[k].step.p.id;
    assert id !in b.queue && b.active - {id} == b.active;
  }

  lemma Approves(d: Desk, b: Board, es: seq<Event>, k: nat, duration: nat) returns (d': Desk)
    requires At(d, b, es, k) && k < |es| && es[k].step.Approve? && es[k].step.majority.None?
    requires es[k].step.id in b.proposals && b.proposals[es[k].step.id] == NewProposal(es[k].step.id, duration)
    requires Ready(b) && Advance(b, es[k].now) == b
    ensures At(d', Approved(b, Reviewed(es[k].step.id, duration, es[k].step.config), es[k].now), es, k + 1)
    ensures Run(d, es[k..]) == Run(d', es[k + 1..])
  {
    hide Kept, WellFormed, SlotEnd, HasRun, SlotStart, Advance, Approved, Run;
    d' := Steps(d, b, es, k);
  }

  lemma Lowers(d: Desk, b: Board, es: seq<Event>, k: nat) returns (d': Desk)
    requires At(d, b, es, k) && k < |es| && es[k].step.SetCap? && es[k].step.cap > 0
    requires var lower := b.(cap := es[k].step.cap); Ready(lower) && Advance(lower, es[k].now) == lower
    ensures At(d', b.(cap := es[k].step.cap), es, k + 1) && Run(d, es[k..]) == Run(d', es[k + 1..])
  {
    hide Kept, WellFormed, SlotEnd, HasRun, SlotStart, Advance, Run;
    d' := Steps(d, b, es, k);
  }

  /** Three proposals are created and approved, the first a moment before the others, and the cap is lowered to one. */
  function Calls(duration: nat, c: Config, from: nat): seq<Event> {
    [Event(Touch(NewProposal(0, duration)), from), Event(Touch(NewProposal(1, duration)), from),
     Event(Touch(NewProposal(2, duration)), from), Event(Approve(0, c, None), from),
     Event(Approve(1, c, None), from + 1), Event(Approve(2, c, None), from + 1), Event(SetCap(1), from + 1)]
  }

  lemma {:induction false} TimelyFrom(es: seq<Event>, clock: nat, k: nat)
    requires k <= |es| && (k < |es| ==> clock <= es[k].now)
    requires forall i :: k <= i < |es| - 1 ==> es[i].now <= es[i + 1].now
    ensures Timely(clock, es[k..])
    decreases |es| - k
  {
    if k < |es| {
      TimelyFrom(es, es[k].now, k + 1);
      assert es[k..][1..] == es[k + 1..];
    }
  }

  function Three(p0: Proposal, p1: Proposal, p2: Proposal): Proposals { map[0 := p0, 1 := p1, 2 := p2] }

  lemma ThreeWrites(p0: Proposal, p1: Proposal, p2: Proposal, p: Proposal)
    ensures Three(p0, p1, p2)[0 := p] == Three(p, p1, p2)
    ensures Three(p0, p1, p2)[1 := p] == Three(p0, p, p2)
    ensures Three(p0, p1, p2)[2 := p] == Three(p0, p1, p)
  {
  }

  /** The board before the approval of proposal `k`, or after the last of them. */
  function Before(k: nat, duration: nat, c: Config, from: nat): (b: Board)
    ensures b.cap == 2
  {
    var p0, p1, p2 := NewProposal(0, duration), NewProposal(1, duration), NewProposal(2, duration);
    var q0, q1 := InSlot(0, duration, c, from), InSlot(1, duration, c, from + 1);
    if k == 0 then Board(Three(p0, p1, p2), {}, [], 2)
    else if k == 1 then Board(Three(q0, p1, p2), {0}, [], 2)
    else if k == 2 then Board(Three(q0, q1, p2), {0, 1}, [], 2)
    else Board(Three(q0, q1, Reviewed(2, duration, c).(status := Queued)), {0, 1}, [2], 2)
  }

  lemma CreatedFirst(duration: nat, c: Config, from: nat) returns (d: Desk)
    ensures var es := Calls(duration, c, from);
            && At(Opened(2, from), Opened(2, from).board, es, 0) && At(d, Before(0, duration, c, from), es, 3)
            && Run(Opened(2, from), es) == Run(d, es[3..])
  {
    hide Kept, Full, WellFormed, Run, Fresh, HasRun;
    var es := Calls(duration, c, from);
    OpenedKeeps(2, from);
    TimelyFrom(es, from, 0);
    assert es[0..] == es;
    d := Creates(Opened(2, from), Opened(2, from).board, es, 0);
    d := Creates(d, d.board, es, 1);
    d := Creates(d, d.board, es, 2);
  }

  lemma BeforeIsReady(k: nat, cap: nat, duration: nat, c: Config, from: nat)
    requires k <= 3
    ensures Ready(Before(k, duration, c, from).(cap := cap))
    ensures k < 3 ==> var ps := Before(k, duration, c, from).proposals; k in ps && ps[k] == NewProposal(k, duration)
  {
    hide NewProposal, Reviewed, InSlot, WellFormed, SlotEnd, HasRun, SlotStart;
    ActivateFresh(Reviewed(2, duration, c), from);
    ThreeAreReady(Before(k, duration, c, from).(cap := cap));
  }

  /** A board with three proposals, each of them listed according to its status. */
  lemma ThreeAreReady(b: Board)
    requires b.proposals.Keys == {0, 1, 2} && b.active <= {0, 1, 2} && (b.queue == [] || b.queue == [2])
    requires forall id :: id in {0, 1, 2} ==> b.proposals[id].id == id && WellFormed(b.proposals[id])
    requires forall id :: id in {0, 1, 2} ==> (id in b.active <==> IsActive(b.proposals[id].status))
    requires b.queue == [2] ==> b.proposals[2].status == Queued
    ensures Ready(b)
  {
    hide WellFormed, IsActive;
  }

  /** The approvals and the new cap find no slot to hand on. */
  lemma NothingToDo(k: nat, cap: nat, duration: nat, c: Config, from: nat)
    requires k <= 3 && duration > 1 && (k == 3 ==> cap <= 2)
    ensures var b := Before(k, duration, c, from).(cap := cap);
            && Ready(b) && Advance(b, if k == 0 then from else from + 1) == b
            && (cap == 2 ==> b == Before(k, duration, c, from))
            && (k < 3 ==> k in b.proposals && b.proposals[k] == NewProposal(k, duration))
  {
    hide WellFormed, SlotEnd, HasRun, SlotStart, Update, Advance, Ready, NewProposal, Reviewed, InSlot;
    BeforeIsReady(k, cap, duration, c, from);
    StillInSlot(0, duration, c, from, from + 1);
    StillInSlot(1, duration, c, from + 1, from + 1);
    QuietAdvance(Before(k, duration, c, from).(cap := cap), if k == 0 then from else from + 1);
  }

  /** Where each approval leads. */
  lemma ApprovedNext(k: nat, duration: nat, c: Config, from: nat)
    requires k < 3
    ensures Approved(Before(k, duration, c, from), Reviewed(k, duration, c), if k == 0 then from else from + 1)
         == Before(k + 1, duration, c, from)
  {
    hide NewProposal, Reviewed, Activate, WellFormed, HasRun, SlotStart, SlotEnd, InSlot, Three, Approved;
    var p0, p1, p2 := NewProposal(0, duration), NewProposal(1, duration), NewProposal(2, duration);
    var q0, q1 := InSlot(0, duration, c, from), InSlot(1, duration, c, from + 1);
    TakesSlot(0, duration, c, from);
    TakesSlot(1, duration, c, from + 1);
    if k == 0 {
      FirstApproved(p0, p1, p2, Reviewed(0, duration, c), from);
    } else if k == 1 {
      SecondApproved(q0, p1, p2, Reviewed(1, duration, c), from + 1);
    } else {
      ThirdApproved(q0, q1, p2, Reviewed(2, duration, c), from + 1);
    }
  }

  lemma FirstApproved(p0: Proposal, p1: Proposal, p2: Proposal, p: Proposal, now: nat)
    requires p.id == Activate(p, now).id == 0 && IsActive(Activate(p, now).status)
    ensures Approved(Board(Three(p0, p1, p2), {}, [], 2), p, now)
         == Board(Three(Activate(p, now), p1, p2), {0}, [], 2)
  {
    hide Three, Activate;
    ThreeWrites(p0, p1, p2, Activate(p, now));
  }

  lemma SecondApproved(p0: Proposal, p1: Proposal, p2: Proposal, p: Proposal, now: nat)
    requires p.id == Activate(p, now).id == 1 && IsActive(Activate(p, now).status)
    ensures Approved(Board(Three(p0, p1, p2), {0}, [], 2), p, now)
         == Board(Three(p0, Activate(p, now), p2), {0, 1}, [], 2)
  {
    hide Three, Activate;
    ThreeWrites(p0, p1, p2, Activate(p, now));
  }

  lemma ThirdApproved(p0: Proposal, p1: Proposal, p2: Proposal, p: Proposal, now: nat)
    requires p.id == 2
    ensures Approved(Board(Three(p0, p1, p2), {0, 1}, [], 2), p, now)
         == Board(Three(p0, p1, p.(status := Queued)), {0, 1}, [2], 2)
  {
    hide Three, Activate;
    ThreeWrites(p0, p1, p2, p.(status := Queued));
    assert |{0, 1}| == 2;
  }

  lemma TakesSlot(id: ProposalId, duration: nat, c: Config, now: nat)
    ensures InSlot(id, duration, c, now) == Activate(Reviewed(id, duration, c), now)
    ensures Activate(Reviewed(id, duration, c), now).status == Voting
  {
  }

  lemma CrowdedIsReached(duration: nat, c: Config, from: nat)
    requires duration > 1
    ensures var es := Calls(duration, c, from);
            && Kept(Opened(2, from)) && Full(Opened(2, from).board) && Timely(from, es)
            && Full(Run(Opened(2, from), es).board)
            && Run(Opened(2, from), es).board == Before(3, duration, c, from).(cap := 1)
  {
    hide Kept, Full, WellFormed, Run, Fresh, HasRun, Advance, Approved, Before, Reviewed;
    var es := Calls(duration, c, from);
    var d := CreatedFirst(duration, c, from);
    NothingToDo(0, 2, duration, c, from);
    NothingToDo(1, 2, duration, c, from);
    NothingToDo(2, 2, duration, c, from);
    NothingToDo(3, 1, duration, c, from);
    ApprovedNext(0, duration, c, from);
    ApprovedNext(1, duration, c, from);
    ApprovedNext(2, duration, c, from);
    d := Approves(d, Before(0, duration, c, from), es, 3, duration);
    d := Approves(d, Before(1, duration, c, from), es, 4, duration);
    d := Approves(d, Before(2, duration, c, from), es, 5, duration);
    d := Lowers(d, Before(3, duration, c, from), es, 6);
    assert es[7..] == [];
    NoMoreCalls(d);
  }

  lemma NoMoreCalls(d: Desk)
    requires Kept(d) && Full(d.board)
    ensures Run(d, []) == d
  {
  }

  /** The slot that ends first is given back while the other one fills the lowered cap. */
  lemma SlotIsForgotten(duration: nat, c: Config, from: nat)
    requires duration > 1
    ensures var b := Before(3, duration, c, from).(cap := 1);
            Ready(b) && Exits(b, from + duration) != {} && Advance(b, from + duration).queue != []
  {
    hide NewProposal, Reviewed, InSlot, WellFormed, HasRun, SlotStart, SlotEnd, Update, Promotions, Ends;
    BeforeIsReady(3, 1, duration, c, from);
    var b, now := Before(3, duration, c, from).(cap := 1), from + duration;
    ExitsRun(b, now);
    assert b.active - Exits(b, now) == {1};
    PromotionsDone(b.proposals, b.queue, Freed(b, now), Room(b, now), now);
  }

  /** Whatever the voting duration and the settings, calls can bring the board to where advancing once more, earlier,
      makes a later advance start a proposal at another time. */
  lemma OrderMatters(duration: nat, c: Config, from: nat) returns (t1: nat, t2: nat)
    requires duration > 1
    ensures var es := Calls(duration, c, from);
            && Kept(Opened(2, from)) && Full(Opened(2, from).board) && Timely(from, es)
            && var b := Run(Opened(2, from), es).board;
               && Full(b) && t1 <= t2 && Ready(Advance(b, t1)) && Advance(Advance(b, t1), t2) != Advance(b, t2)
  {
    hide Kept, Full, Run, Advance, Exits, Ready;
    CrowdedIsReached(duration, c, from);
    SlotIsForgotten(duration, c, from);
    t1 := from + duration;
    t2 := ForgottenSlot(Before(3, duration, c, from).(cap := 1), t1);
  }
}
