/** Slot discipline over every run of the voting contract's calls, whatever becomes of the cap. */
module VotingDiscipline {
  import opened Options
  import opened VotingProposal
  import opened VotingQueue
  import opened VotingAdvance
  import opened VotingActions
  import opened VotingRuns

  // ---------------------------------------------------------------------------
  // Single writes
  // ---------------------------------------------------------------------------

  /** `p` may be written over what is stored: a slot once held keeps its start. */
  ghost predicate KeepsStart(b: Board, p: Proposal) {
    p.id in b.proposals && Ran(b.proposals[p.id]) ==> Ran(p) && SlotStart(p) == SlotStart(b.proposals[p.id])
  }

  lemma StoredStarts(b: Board, p: Proposal, started: seq<ProposalId>, clock: nat, now: nat)
    requires KeepsStart(b, p) && StartsInOrder(b.proposals, started, clock) && clock <= now
    ensures StartsInOrder(Stored(b, p).proposals, started, now)
    ensures forall i :: 0 <= i < |started| ==>
      StartOf(Stored(b, p).proposals, started[i]) == StartOf(b.proposals, started[i])
  {
    hide HasRun, SlotStart, IsActive;
  }

  /** A write keeps the order of starts if the slot it leaves held ends in the future. */
  lemma StoredOrdered(d: Desk, p: Proposal, now: nat)
    requires Ordered(d) && d.clock <= now && KeepsStart(d.board, p)
    requires IsActive(p.status) ==> HasRun(p) && now <= SlotEnd(p)
    ensures d.approved == d.started + Stored(d.board, p).queue
    ensures StartsInOrder(Stored(d.board, p).proposals, d.started, now)
    ensures EndsAfterStarts(Stored(d.board, p), d.started)
  {
    hide WellFormed, SlotEnd, HasRun, SlotStart, StartOf, EndOf, Ran, KeepsStart, StartsInOrder;
    StoredStarts(d.board, p, d.started, d.clock, now);
    var b' := Stored(d.board, p);
    forall id, i | id in b'.active && 0 <= i < |d.started|
      ensures StartOf(b'.proposals, d.started[i]) <= EndOf(b'.proposals, id)
    {
      StartsBy(b'.proposals, d.started, now, i);
      if id == p.id { EndOfIs(b'.proposals, p); } else { EndOfFrame(d.board, p, id); }
    }
  }

  lemma StartsBy(ps: Proposals, started: seq<ProposalId>, clock: nat, i: nat)
    requires StartsInOrder(ps, started, clock) && i < |started|
    ensures StartOf(ps, started[i]) <= clock
  {
  }

  lemma EndOfIs(ps: Proposals, p: Proposal)
    requires p.id in ps && ps[p.id] == p && HasRun(p)
    ensures EndOf(ps, p.id) == SlotEnd(p)
  {
  }

  lemma EndOfFrame(b: Board, p: Proposal, id: ProposalId)
    requires id != p.id
    ensures EndOf(Stored(b, p).proposals, id) == EndOf(b.proposals, id)
  {
  }

  /** An active proposal gives its slot up now. */
  ghost function Cut(d: Desk, p: Proposal, now: nat): Desk {
    d.(board := Stored(d.board, p), ended := d.ended[p.id := now], clock := now)
  }

  lemma CutRecorded(d: Desk, p: Proposal, now: nat)
    requires Recorded(d) && d.clock <= now
    requires p.id in d.board.active && !IsActive(p.status) && Ran(p) && KeepsStart(d.board, p)
    ensures Recorded(Cut(d, p, now))
    ensures forall t: nat :: Busy(Cut(d, p, now), t) <= Busy(d, t)
  {
    hide HasRun, SlotStart, IsActive;
  }

  lemma CutKeeps(d: Desk, p: Proposal, now: nat)
    requires Kept(d) && Full(d.board) && d.clock <= now
    requires p.id in d.board.active && WellFormed(p) && !IsActive(p.status) && Ran(p) && KeepsStart(d.board, p)
    ensures Kept(Cut(d, p, now))
  {
    hide WellFormed, HasRun, SlotStart, Exits, Waiting, Advance, Consistent, Recorded, Busy, KeepsStart, Ran,
         StartsInOrder, EndsAfterStarts;
    CutKeepsReady(d.board, p, now);
    SubsetIsSmaller(d.board.active - {p.id}, d.board.active);
    StoredOrdered(d, p, now);
    CutRecorded(d, p, now);
    forall t: nat ensures |Busy(Cut(d, p, now), t)| <= d.peak {
      SubsetIsSmaller(Busy(Cut(d, p, now), t), Busy(d, t));
    }
  }

  /** A vote or a snapshot changes an active proposal that keeps its slot beyond `now`. */
  predicate Amends(was: Proposal, p: Proposal, now: nat) {
    && p.id == was.id && WellFormed(p) && IsActive(p.status)
    && HasRun(p) && HasRun(was) && SlotStart(p) == SlotStart(was) && now < SlotEnd(p)
  }

  ghost function Amended(d: Desk, p: Proposal, now: nat): Desk {
    d.(board := Stored(d.board, p), clock := now)
  }

  /** A write that leaves the same proposals in the slots, with the same starts. */
  lemma AmendedRecorded(d: Desk, p: Proposal, now: nat)
    requires Recorded(d) && d.clock <= now && Stored(d.board, p).active == d.board.active && KeepsStart(d.board, p)
    ensures Recorded(Amended(d, p, now))
    ensures forall t: nat :: Busy(Amended(d, p, now), t) == Busy(d, t)
  {
    hide HasRun, SlotStart, IsActive;
  }

  lemma AmendedKept(d: Desk, p: Proposal, now: nat)
    requires Kept(d) && Full(d.board) && d.clock <= now
    requires Stored(d.board, p).active == d.board.active && p.id !in d.board.queue && WellFormed(p)
         && KeepsStart(d.board, p)
    requires IsActive(p.status) ==> HasRun(p) && now <= SlotEnd(p)
    ensures Kept(Amended(d, p, now)) && Full(Amended(d, p, now).board)
  {
    hide WellFormed, SlotEnd, HasRun, SlotStart, Waiting, Consistent, Recorded, Busy, KeepsStart, Ran, StartsInOrder,
         EndsAfterStarts;
    StoredIsConsistent(d.board, p);
    StoredKeepsWaiting(d.board, p);
    StoredOrdered(d, p, now);
    AmendedRecorded(d, p, now);
  }

  lemma AmendedKeeps(d: Desk, p: Proposal, now: nat)
    requires Kept(d) && Full(d.board) && d.clock <= now
    requires p.id in d.board.active && p.id in d.board.proposals && Amends(d.board.proposals[p.id], p, now)
    ensures Kept(Amended(d, p, now)) && Full(Amended(d, p, now).board)
  {
    hide WellFormed, SlotEnd, HasRun, SlotStart, Waiting, Bounded, Recorded, Ordered, Consistent;
    ActiveIsNotQueued(d.board, p.id);
    assert d.board.active + {p.id} == d.board.active;
    assert Ran(p);
    AmendedKept(d, p, now);
  }

  lemma ActiveIsNotQueued(b: Board, id: ProposalId)
    requires Consistent(b) && Waiting(b.proposals, b.queue) && id in b.active
    ensures id !in b.queue
  {
    hide WellFormed;
  }

  /** Calls on proposals outside the slots: creation, rejection, slashing, execution, bond claims. */
  ghost predicate Touches(b: Board, p: Proposal) {
    && WellFormed(p) && !IsActive(p.status) && p.status != Queued
    && p.id !in b.active && p.id !in b.queue && KeepsStart(b, p)
  }

  lemma TouchedKeeps(d: Desk, p: Proposal, now: nat)
    requires Kept(d) && Full(d.board) && d.clock <= now && Touches(d.board, p)
    ensures Kept(Amended(d, p, now)) && Full(Amended(d, p, now).board)
  {
    hide WellFormed, Waiting, Bounded, Recorded, Ordered, Consistent, KeepsStart;
    assert d.board.active - {p.id} == d.board.active;
    AmendedKept(d, p, now);
  }

  // ---------------------------------------------------------------------------
  // Approval
  // ---------------------------------------------------------------------------

  /** The record of an approval: a start at once, or a place at the end of the queue. */
  ghost function Admitted(d: Desk, p: Proposal, now: nat): Desk {
    var d' := d.(board := Approved(d.board, p, now), approved := d.approved + [p.id], clock := now);
    if |d.board.active| < d.board.cap then d'.(started := d.started + [p.id]) else d'
  }

  /** A proposal started now comes after all that started before. */
  lemma StartNow(b: Board, started: seq<ProposalId>, q: Proposal, now: nat)
    requires StartsInOrder(b.proposals, started, now) && q.id in b.proposals && b.proposals[q.id] == q
    requires Ran(q) && SlotStart(q) == now
    requires forall id :: id in b.active ==> now <= EndOf(b.proposals, id)
    requires EndsAfterStarts(b, started)
    ensures StartsInOrder(b.proposals, started + [q.id], now) && EndsAfterStarts(b, started + [q.id])
  {
    hide SlotEnd, HasRun, SlotStart, EndOf;
  }

  lemma NotRanYet(b: Board, p: Proposal)
    requires p.id in b.proposals && b.proposals[p.id].status == Created
    ensures KeepsStart(b, p)
  {
  }

  lemma BeginsOrdered(d: Desk, p: Proposal, now: nat)
    requires Ordered(d) && d.clock <= now && d.board.queue == [] && |d.board.active| < d.board.cap
    requires Fresh(p) && p.id in d.board.proposals && d.board.proposals[p.id].status == Created
    requires forall id :: id in d.board.active ==> now <= EndOf(d.board.proposals, id)
    ensures Ordered(Admitted(d, p, now))
  {
    hide WellFormed, SlotEnd, HasRun, SlotStart, StartOf, EndOf, KeepsStart, StartsInOrder, EndsAfterStarts;
    ActivateFresh(p, now);
    var q := Activate(p, now);
    NotRanYet(d.board, q);
    StoredOrdered(d, q, now);
    var b' := Stored(d.board, q);
    forall id | id in b'.active ensures now <= EndOf(b'.proposals, id) {
      if id == q.id { EndOfIs(b'.proposals, q); } else { EndOfFrame(d.board, q, id); }
    }
    StartNow(b', d.started, q, now);
    assert d.approved + [p.id] == d.started + [p.id] + [];
  }

  lemma BeginsRecorded(d: Desk, p: Proposal, now: nat)
    requires Recorded(d) && d.clock <= now && |d.board.active| < d.board.cap
    requires Fresh(p) && p.id in d.board.proposals && d.board.proposals[p.id].status == Created
    ensures Recorded(Admitted(d, p, now))
    ensures forall t: nat :: t < now ==> Busy(Admitted(d, p, now), t) == Busy(d, t)
  {
    hide WellFormed, SlotEnd, HasRun, SlotStart, IsActive, Activate;
    ActivateFresh(p, now);
    ActivateIs(p, now);
  }

  lemma ActivateIs(p: Proposal, now: nat)
    ensures Activate(p, now).id == p.id && IsActive(Activate(p, now).status)
    ensures Activate(p, now).status != Created && Activate(p, now).status != Queued
  {
  }

  lemma QueuesOrdered(d: Desk, p: Proposal, now: nat)
    requires Ordered(d) && d.clock <= now && |d.board.active| >= d.board.cap
    requires Fresh(p) && p.id in d.board.proposals && d.board.proposals[p.id].status == Created
    ensures Ordered(Admitted(d, p, now))
  {
    hide WellFormed, SlotEnd, HasRun, SlotStart, StartOf, EndOf, KeepsStart, StartsInOrder;
    var q := p.(status := Queued);
    NotRanYet(d.board, q);
    StoredOrdered(d, q, now);
    assert d.approved + [p.id] == d.started + (d.board.queue + [p.id]);
  }

  lemma QueuesRecorded(d: Desk, p: Proposal, now: nat)
    requires Recorded(d) && d.clock <= now && |d.board.active| >= d.board.cap
    requires Fresh(p) && p.id in d.board.proposals && d.board.proposals[p.id].status == Created
         && p.id !in d.board.active
    ensures Recorded(Admitted(d, p, now))
    ensures forall t: nat :: Busy(Admitted(d, p, now), t) == Busy(d, t)
  {
    var q := p.(status := Queued);
    NotRanYet(d.board, q);
    assert d.board.active - {p.id} == d.board.active;
    hide Recorded, Busy, Ran, Fresh;
    AmendedRecorded(d, q, now);
    SameRecord(Amended(d, q, now), Admitted(d, p, now));
  }

  /** The record of windows does not depend on the queue or on who was approved. */
  lemma SameRecord(d: Desk, d': Desk)
    requires d'.board.proposals == d.board.proposals && d'.board.active == d.board.active
    requires d'.ended == d.ended && d'.clock == d.clock
    ensures Recorded(d) ==> Recorded(d')
    ensures forall t: nat :: Busy(d', t) == Busy(d, t)
  {
    hide HasRun, SlotStart, Ran;
  }

  /** Approval, on a board that has just been advanced. */
  lemma AdmittedKeeps(d: Desk, p: Proposal, now: nat)
    requires Kept(d) && Full(d.board) && d.clock <= now
    requires Fresh(p) && p.id in d.board.proposals && d.board.proposals[p.id].status == Created
         && p.id !in d.board.active
    requires forall id :: id in d.board.active ==> now <= EndOf(d.board.proposals, id)
    ensures Kept(Admitted(d, p, now)) && Full(Admitted(d, p, now).board)
  {
    hide WellFormed, SlotEnd, HasRun, SlotStart, Waiting, Consistent, Recorded, Busy, Ordered, Fresh, EndOf;
    ApprovedIsReady(d.board, p, now);
    ApprovedCounts(d.board, p, now);
    if |d.board.active| < d.board.cap {
      BeginsOrdered(d, p, now);
      BeginsRecorded(d, p, now);
      forall t: nat ensures |Busy(Admitted(d, p, now), t)| <= d.peak {
        if t >= now { BusyNow(Admitted(d, p, now), t); }
      }
    } else {
      QueuesOrdered(d, p, now);
      QueuesRecorded(d, p, now);
    }
  }

  // ---------------------------------------------------------------------------
  // Runs
  // ---------------------------------------------------------------------------

  datatype Step =
    | AdvanceQueue
    | Approve(id: ProposalId, config: Config, majority: Option<Majority>)
    | Veto(id: ProposalId)
    | NoVeto(id: ProposalId)
    | SetCap(cap: nat)
    | Amend(p: Proposal)
    | Touch(p: Proposal)

  datatype Event = Event(step: Step, now: nat)

  /** One call; a call that panics changes nothing. */
  ghost function Apply(d: Desk, e: Event): Desk
    requires Kept(d) && Full(d.board) && d.clock <= e.now
  {
    AdvancedKeeps(d, e.now);
    var current := Advanced(d, e.now);
    match e.step
    case AdvanceQueue => current
    case Approve(id, config, majority) =>
      var p := Approvable(current.board, id, config, majority, e.now);
      if p.None? then d else Admitted(current, p.value, e.now)
    case Veto(id) =>
      if !Vetoable(current.board, id, e.now) then d
      else
        VetoKeeps(current, id, e.now);
        Advanced(Cut(current, Update(current.board.proposals[id], e.now).(status := Status.Vetoed), e.now), e.now)
    case NoVeto(id) =>
      if !Waivable(d.board, id, e.now) then d
      else
        NoVetoKeeps(d, id, e.now);
        var p := Update(d.board.proposals[id], e.now);
        Advanced(Cut(d, p.(status := if p.hasActions then Executable else Succeeded), e.now), e.now)
    case SetCap(cap) =>
      if cap == 0 then d
      else
        RecappedKeeps(d, cap);
        Advanced(Recapped(d, cap), e.now)
    case Amend(p) =>
      if p.id in d.board.active && p.id in d.board.proposals && Amends(d.board.proposals[p.id], p, e.now)
      then Amended(d, p, e.now) else d
    case Touch(p) => if Touches(d.board, p) then Amended(d, p, e.now) else d
  }

  lemma VetoKeeps(d: Desk, id: ProposalId, now: nat)
    requires Kept(d) && Full(d.board) && d.clock <= now && Vetoable(d.board, id, now)
    ensures var c := Cut(d, Update(d.board.proposals[id], now).(status := Status.Vetoed), now);
            Kept(c) && Kept(Advanced(c, now)) && Full(Advanced(c, now).board)
  {
    hide WellFormed, SlotEnd, Waiting, Bounded, Ordered, Advanced;
    VetoedCuts(d.board, id, now);
    UpdateChangesStatusOnly(d.board.proposals[id], now);
    CutKeeps(d, Update(d.board.proposals[id], now).(status := Status.Vetoed), now);
    AdvancedKeeps(Cut(d, Update(d.board.proposals[id], now).(status := Status.Vetoed), now), now);
  }

  lemma NoVetoKeeps(d: Desk, id: ProposalId, now: nat)
    requires Kept(d) && Full(d.board) && d.clock <= now && Waivable(d.board, id, now)
    ensures var p := Update(d.board.proposals[id], now);
            var c := Cut(d, p.(status := if p.hasActions then Executable else Succeeded), now);
            Kept(c) && Kept(Advanced(c, now)) && Full(Advanced(c, now).board)
  {
    hide WellFormed, SlotEnd, Waiting, Bounded, Ordered, Advanced;
    WaivedCuts(d.board, id, now);
    UpdateChangesStatusOnly(d.board.proposals[id], now);
    var p := Update(d.board.proposals[id], now);
    CutKeeps(d, p.(status := if p.hasActions then Executable else Succeeded), now);
    AdvancedKeeps(Cut(d, p.(status := if p.hasActions then Executable else Succeeded), now), now);
  }

  /** A new cap, with the record of the highest one. */
  function Recapped(d: Desk, cap: nat): Desk {
    d.(board := d.board.(cap := cap), peak := if d.peak < cap then cap else d.peak)
  }

  lemma RecappedKeeps(d: Desk, cap: nat)
    requires Kept(d)
    ensures Kept(Recapped(d, cap))
  {
    hide WellFormed, SlotEnd, HasRun, SlotStart, Waiting, StartOf, EndOf;
    forall t: nat ensures |Busy(Recapped(d, cap), t)| <= Recapped(d, cap).peak {
      assert Busy(Recapped(d, cap), t) == Busy(d, t);
    }
  }

  lemma ApproveKeeps(d: Desk, id: ProposalId, config: Config, majority: Option<Majority>, now: nat)
    requires Kept(d) && Full(d.board) && d.clock <= now
    ensures Kept(Advanced(d, now)) && Full(Advanced(d, now).board)
    ensures var current := Advanced(d, now);
            var p := Approvable(current.board, id, config, majority, now);
            p.Some? ==> Kept(Admitted(current, p.value, now)) && Full(Admitted(current, p.value, now).board)
  {
    hide WellFormed, SlotEnd, HasRun, SlotStart, Waiting, Advance, Bounded, Recorded, Ordered, EndOf, Consistent,
         Admitted, EndedBy, JustLeft, Promoted, Approvable;
    AdvancedKeeps(d, now);
    var current := Advanced(d, now);
    var p := Approvable(current.board, id, config, majority, now);
    if p.Some? {
      ApprovableIsFresh(current.board, id, config, majority, now);
      forall x | x in current.board.active ensures now <= EndOf(current.board.proposals, x) {
        HeldBeyondNow(d.board, now, x);
      }
      AdmittedKeeps(current, p.value, now);
    }
  }

  lemma KeptParts(d: Desk)
    requires Kept(d)
    ensures Consistent(d.board) && Waiting(d.board.proposals, d.board.queue)
  {
  }

  /** Every call keeps the invariant and a valid board. */
  lemma ApplyKeeps(d: Desk, e: Event)
    requires Kept(d) && Full(d.board) && d.clock <= e.now
    ensures Kept(Apply(d, e)) && Full(Apply(d, e).board) && Apply(d, e).clock <= e.now
  {
    hide Advance, Promoted, JustLeft, EndedBy, Update, Approved, Amends, Touches, Bounded, Recorded, Ordered, Waiting,
         WellFormed, Stored, Cut, Vetoable, Waivable, Approvable, Busy, Kept, Full, Consistent;
    AdvancedKeeps(d, e.now);
    KeptParts(d);
    KeptParts(Advanced(d, e.now));
    match e.step
    case AdvanceQueue =>
    case Approve(id, config, majority) => ApproveKeeps(d, id, config, majority, e.now);
    case Veto(id) =>
      var current := Advanced(d, e.now);
      if Vetoable(current.board, id, e.now) { VetoKeeps(current, id, e.now); }
    case NoVeto(id) =>
      if Waivable(d.board, id, e.now) { NoVetoKeeps(d, id, e.now); }
    case SetCap(cap) =>
      if cap > 0 {
        RecappedKeeps(d, cap);
        AdvancedKeeps(Recapped(d, cap), e.now);
      }
    case Amend(p) =>
      if p.id in d.board.active && p.id in d.board.proposals && Amends(d.board.proposals[p.id], p, e.now) {
        AmendedKeeps(d, p, e.now);
      }
    case Touch(p) => if Touches(d.board, p) { TouchedKeeps(d, p, e.now); }
  }

  /** Calls arrive at nondecreasing times. */
  predicate Timely(clock: nat, es: seq<Event>)
    decreases |es|
  {
    es != [] ==> clock <= es[0].now && Timely(es[0].now, es[1..])
  }

  ghost function Run(d: Desk, es: seq<Event>): Desk
    requires Kept(d) && Full(d.board) && (es != [] ==> d.clock <= es[0].now)
    requires Timely(d.clock, es)
    decreases |es|
  {
    if es == [] then d
    else
      ApplyKeeps(d, es[0]);
      TimelyTail(d, es);
      Run(Apply(d, es[0]), es[1..])
  }

  lemma TimelyTail(d: Desk, es: seq<Event>)
    requires es != [] && Timely(d.clock, es) && Kept(d) && Full(d.board) && Apply(d, es[0]).clock <= es[0].now
    ensures Timely(Apply(d, es[0]).clock, es[1..])
  {
  }

  /** A contract without proposals. */
  function Opened(cap: nat, now: nat): Desk { Desk(Board(map[], {}, [], cap), map[], [], [], now, cap) }

  lemma OpenedKeeps(cap: nat, now: nat)
    ensures Kept(Opened(cap, now)) && Full(Opened(cap, now).board)
  {
    forall t: nat ensures |Busy(Opened(cap, now), t)| <= cap {
      assert Busy(Opened(cap, now), t) == {};
    }
  }

  lemma {:induction false} RunKeeps(d: Desk, es: seq<Event>)
    requires Kept(d) && Full(d.board) && Timely(d.clock, es)
    ensures Kept(Run(d, es)) && Full(Run(d, es).board)
    decreases |es|
  {
    hide Kept, Valid, Apply;
    if es != [] {
      ApplyKeeps(d, es[0]);
      TimelyTail(d, es);
      RunKeeps(Apply(d, es[0]), es[1..]);
    }
  }

  /** Slot discipline: on every run, at every instant at most as many active windows overlap as the highest cap so far,
      proposals have started in the order of their approval at nondecreasing times, and the rest of them wait in that
      order behind active proposals that fill the cap. */
  lemma SlotDiscipline(cap: nat, from: nat, es: seq<Event>, t: nat)
    requires Timely(from, es)
    ensures Kept(Opened(cap, from)) && Full(Opened(cap, from).board)
    ensures var d := Run(Opened(cap, from), es);
            && |Busy(d, t)| <= d.peak
            && d.approved == d.started + d.board.queue
            && (forall i, j :: 0 <= i < j < |d.started| ==>
                  StartOf(d.board.proposals, d.started[i]) <= StartOf(d.board.proposals, d.started[j]))
            && (d.board.queue != [] ==> |d.board.active| >= d.board.cap)
  {
    hide Busy, StartOf, Run;
    OpenedKeeps(cap, from);
    RunKeeps(Opened(cap, from), es);
  }

  // ---------------------------------------------------------------------------
  // With the cap never lowered
  // ---------------------------------------------------------------------------

  /** No call lowers the cap. */
  predicate NeverLowers(cap: nat, es: seq<Event>)
    decreases |es|
  {
    es != [] ==>
      if es[0].step.SetCap? && es[0].step.cap > 0 then cap <= es[0].step.cap && NeverLowers(es[0].step.cap, es[1..])
      else NeverLowers(cap, es[1..])
  }

  lemma ApplyCaps(d: Desk, e: Event)
    requires Kept(d) && Full(d.board) && d.clock <= e.now
    ensures Apply(d, e).board.cap == if e.step.SetCap? && e.step.cap > 0 then e.step.cap else d.board.cap
    ensures Apply(d, e).peak == if e.step.SetCap? && e.step.cap > d.peak then e.step.cap else d.peak
  {
    hide Update, WellFormed, Bounded, Recorded, Ordered, Waiting, Promoted, Exits, Commit, ActiveIds, Refreshed,
         JustLeft, EndedBy, IsActive, Amends, Touches, Vetoable, Waivable, Approvable;
  }

  lemma {:induction false} PeakIsCap(d: Desk, es: seq<Event>)
    requires Kept(d) && Full(d.board) && Timely(d.clock, es) && NeverLowers(d.board.cap, es) && d.peak == d.board.cap
    ensures Run(d, es).peak == Run(d, es).board.cap
    decreases |es|
  {
    hide Kept, Full, Apply;
    if es != [] {
      ApplyKeeps(d, es[0]);
      TimelyTail(d, es);
      ApplyCaps(d, es[0]);
      PeakIsCap(Apply(d, es[0]), es[1..]);
    }
  }

  /** If no call lowers the cap, at most `max_active_proposals` active windows overlap at any instant, and the queue
      only waits behind exactly that many. */
  lemma SlotsWithinCap(cap: nat, from: nat, es: seq<Event>, t: nat)
    requires Timely(from, es) && NeverLowers(cap, es)
    ensures Kept(Opened(cap, from)) && Full(Opened(cap, from).board)
    ensures var d := Run(Opened(cap, from), es);
            |Busy(d, t)| <= d.board.cap && (d.board.queue != [] ==> |d.board.active| == d.board.cap)
  {
    hide Busy, Run;
    SlotDiscipline(cap, from, es, t);
    RunKeeps(Opened(cap, from), es);
    PeakIsCap(Opened(cap, from), es);
  }
}
