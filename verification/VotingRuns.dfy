/** Runs of the voting contract, with a record of when each slot was held. */
module VotingRuns {
  import opened VotingProposal
  import opened VotingQueue
  import opened VotingAdvance
  import opened VotingSlots

  /** The board with its past: when slots were given back, who was approved and who was started, in order. */
  datatype Desk = Desk(
    board: Board,
    ended: map<ProposalId, nat>,
    approved: seq<ProposalId>,
    started: seq<ProposalId>,
    clock: nat,
    peak: nat)                           // the highest cap so far

  /** The proposal has been given a slot at some time. */
  predicate Ran(p: Proposal) { HasRun(p) && p.status != Created && p.status != Queued }

  /** The proposals whose active window covers instant `t`. */
  ghost function Busy(d: Desk, t: nat): set<ProposalId> {
    set id | id in d.board.proposals && HasRun(d.board.proposals[id]) && SlotStart(d.board.proposals[id]) <= t
             && (id in d.board.active || (id in d.ended && t < d.ended[id]))
  }

  /** At no instant do more windows overlap than there ever were slots. */
  ghost predicate Bounded(d: Desk) {
    forall t: nat :: |Busy(d, t)| <= d.peak
  }

  /** Windows lie in the past; what has ended is not active any more. */
  ghost predicate Recorded(d: Desk) {
    && (forall id :: id in d.ended ==>
          id in d.board.proposals && id !in d.board.active && Ran(d.board.proposals[id]) && d.ended[id] <= d.clock)
    && (forall id :: id in d.board.active ==>
          id in d.board.proposals && Ran(d.board.proposals[id]) && SlotStart(d.board.proposals[id]) <= d.clock)
  }

  /** Proposals start in the order of their approval, at nondecreasing times; no slot held ends before the last start.
      */
  ghost predicate Ordered(d: Desk) {
    && d.approved == d.started + d.board.queue
    && StartsInOrder(d.board.proposals, d.started, d.clock)
    && EndsAfterStarts(d.board, d.started)
  }

  ghost predicate StartsInOrder(ps: Proposals, started: seq<ProposalId>, clock: nat) {
    && (forall i :: 0 <= i < |started| ==>
          started[i] in ps && Ran(ps[started[i]]) && StartOf(ps, started[i]) <= clock)
    && (forall i, j :: 0 <= i < j < |started| ==> StartOf(ps, started[i]) <= StartOf(ps, started[j]))
  }

  ghost predicate EndsAfterStarts(b: Board, started: seq<ProposalId>) {
    forall id, i :: id in b.active && 0 <= i < |started| ==> StartOf(b.proposals, started[i]) <= EndOf(b.proposals, id)
  }

  function StartOf(ps: Proposals, id: ProposalId): nat {
    if id in ps && HasRun(ps[id]) then SlotStart(ps[id]) else 0
  }

  function EndOf(ps: Proposals, id: ProposalId): nat {
    if id in ps && HasRun(ps[id]) then SlotEnd(ps[id]) else 0
  }

  /** What the calls rely on; between entry points the board is also `Full`. */
  ghost predicate Kept(d: Desk) {
    && Consistent(d.board) && Waiting(d.board.proposals, d.board.queue)
    && |d.board.active| <= d.peak && d.board.cap <= d.peak
    && Bounded(d) && Recorded(d) && Ordered(d)
  }

  // ---------------------------------------------------------------------------
  // Advancing
  // ---------------------------------------------------------------------------

  /** The proposals that had or were given a slot in this advance and have given it back. */
  ghost function JustLeft(b: Board, now: nat): set<ProposalId>
    requires Consistent(b) && Waiting(b.proposals, b.queue)
  {
    PromotedFromQueue(b, now);
    (b.active + set i | 0 <= i < |Promoted(b, now)| :: b.queue[i]) - Advance(b, now).active
  }

  /** Advancing the queue, with the record kept up. */
  ghost function Advanced(d: Desk, now: nat): Desk
    requires Consistent(d.board) && Waiting(d.board.proposals, d.board.queue)
  {
    PromotedFromQueue(d.board, now);
    Desk(Advance(d.board, now), EndedBy(d, Advance(d.board, now).proposals, JustLeft(d.board, now)), d.approved,
         d.started + d.board.queue[..|Promoted(d.board, now)|], now, d.peak)
  }

  ghost function EndedBy(d: Desk, ps: Proposals, left: set<ProposalId>): map<ProposalId, nat> {
    map id | id in d.ended.Keys + left :: if id in d.ended then d.ended[id] else EndOf(ps, id)
  }

  /** One proposal across an advance: what is stored and whether it holds a slot. */
  lemma Across(b: Board, now: nat, id: ProposalId)
    requires Consistent(b) && Waiting(b.proposals, b.queue)
    ensures var b', r := Advance(b, now), Promoted(b, now);
      && Consistent(b')
      && (id in b'.proposals <==> id in b.proposals)
      && (id in b.active ==>
            && id in b'.proposals && HasRun(b.proposals[id]) && HasRun(b'.proposals[id])
            && SlotStart(b'.proposals[id]) == SlotStart(b.proposals[id])
            && SlotEnd(b'.proposals[id]) == SlotEnd(b.proposals[id])
            && SlotStart(b.proposals[id]) <= SlotEnd(b.proposals[id])
            && b'.proposals[id].status != Created && b'.proposals[id].status != Queued
            && (id in b'.active <==> now < SlotEnd(b.proposals[id])))
      && (forall i :: 0 <= i < |r| && r[i].id == id ==>
            && id in b'.proposals && b'.proposals[id] == r[i] && id !in b.active && HasBegun(r[i], id, now)
            && (id in b'.active <==> now < SlotEnd(r[i])))
      && (id in b.proposals && id !in b.active && (forall i :: 0 <= i < |r| ==> r[i].id != id) ==>
            b'.proposals[id] == b.proposals[id] && id !in b'.active)
  {
    hide WellFormed, SlotEnd, HasRun, SlotStart, Promoted, Update, Exits, Waiting, Advance;
    AdvanceIsConsistent(b, now);
    PromotedFromQueue(b, now);
    AdvancedAt(b, now, id);
    if id in b.active {
      ActiveIsRunning(b);
      UpdateChangesStatusOnly(b.proposals[id], now);
      ExitsAtSlotEnd(b.proposals[id], now);
      NotFresh(b.proposals[id], now);
    }
  }

  lemma NotFresh(p: Proposal, now: nat)
    requires WellFormed(p) && IsActive(p.status)
    ensures Update(p, now).status != Created && Update(p, now).status != Queued
  {
  }

  /** Who has just left: proposals that held or were given a slot that ended by `now`. */
  lemma JustLeftAre(b: Board, now: nat, id: ProposalId)
    requires Consistent(b) && Waiting(b.proposals, b.queue)
    ensures var b', r := Advance(b, now), Promoted(b, now);
      id in JustLeft(b, now) <==> id !in b'.active && (id in b.active || exists i :: 0 <= i < |r| && r[i].id == id)
  {
    hide WellFormed, SlotEnd, HasRun, SlotStart, Promoted, Update, Exits, Waiting, Advance, Consistent;
    PromotedFromQueue(b, now);
    var r := Promoted(b, now);
    if i :| 0 <= i < |r| && r[i].id == id { assert b.queue[i] == id; }
    if i :| 0 <= i < |r| && b.queue[i] == id { assert r[i].id == id; }
  }

  lemma AdvancedRecorded(d: Desk, now: nat)
    requires Kept(d) && d.clock <= now
    ensures Recorded(Advanced(d, now))
  {
    hide WellFormed, SlotEnd, HasRun, SlotStart, Promoted, Update, Exits, Waiting, Advance, Consistent, JustLeft,
         Bounded, Ordered;
    var d', r := Advanced(d, now), Promoted(d.board, now);
    PromotedFromQueue(d.board, now);
    forall id
      ensures id in d'.ended ==>
        id in d'.board.proposals && id !in d'.board.active && Ran(d'.board.proposals[id]) && d'.ended[id] <= now
      ensures id in d'.board.active ==>
        id in d'.board.proposals && Ran(d'.board.proposals[id]) && SlotStart(d'.board.proposals[id]) <= now
    {
      RecordedAt(d, now, id);
    }
  }

  lemma RecordedAt(d: Desk, now: nat, id: ProposalId)
    requires Kept(d) && d.clock <= now
    ensures var d' := Advanced(d, now);
      && (id in d'.ended ==>
            id in d'.board.proposals && id !in d'.board.active && Ran(d'.board.proposals[id]) && d'.ended[id] <= now)
      && (id in d'.board.active ==>
            id in d'.board.proposals && Ran(d'.board.proposals[id]) && SlotStart(d'.board.proposals[id]) <= now)
  {
    hide WellFormed, SlotEnd, HasRun, SlotStart, Promoted, Update, Exits, Waiting, Advance, JustLeft, Bounded, Ordered;
    var r := Promoted(d.board, now);
    Across(d.board, now, id);
    JustLeftAre(d.board, now, id);
    if i :| 0 <= i < |r| && r[i].id == id {
      StartsByNow(d.board, now, i);
      WasQueued(d.board, now, i);
    } else if id in d.ended {
      assert Advance(d.board, now).proposals[id] == d.board.proposals[id];
    }
  }

  lemma WasQueued(b: Board, now: nat, i: nat)
    requires Consistent(b) && Waiting(b.proposals, b.queue) && i < |Promoted(b, now)|
    ensures Promoted(b, now)[i].id in b.proposals && b.proposals[Promoted(b, now)[i].id].status == Queued
  {
    hide WellFormed, Promoted, Exits, Consistent;
    PromotedFromQueue(b, now);
  }

  /** No promoted proposal is started in the future. */
  lemma StartsByNow(b: Board, now: nat, i: nat)
    requires Consistent(b) && Waiting(b.proposals, b.queue) && i < |Promoted(b, now)|
    ensures HasRun(Promoted(b, now)[i]) && SlotStart(Promoted(b, now)[i]) <= now
  {
    hide WellFormed, SlotEnd, HasRun, SlotStart, Promotions, Update, Exits, Waiting, Consistent;
    ExitsRun(b, now);
    EndsWithin(b.proposals, Exits(b, now), -1, now);
    PromotionsInOrder(b.proposals, b.queue, Freed(b, now), Room(b, now), now, 0);
  }

  // ---------------------------------------------------------------------------
  // The bound
  // ---------------------------------------------------------------------------

  /** Slots of active proposals that are free at `t` again. */
  ghost function FreeBy(b: Board, now: nat, t: nat): set<ProposalId>
    requires Consistent(b)
  {
    set id | id in Exits(b, now) && EndOf(b.proposals, id) <= t
  }

  lemma {:induction false} CountByIds(ps: Proposals, ids: set<ProposalId>, t: nat)
    requires Running(ps, ids)
    ensures CountBy(Ends(ps, ids), t) == |set id | id in ids && EndOf(ps, id) <= t|
    decreases ids
  {
    hide WellFormed, SlotEnd, HasRun, SlotStart, CountBy, Ends;
    var free := set id | id in ids && EndOf(ps, id) <= t;
    if ids == {} {
      NoEnds(ps, t);
    } else {
      var id :| id in ids;
      EndsSplit(ps, ids, id);
      CountByAdd(Ends(ps, ids - {id}), t, SlotEnd(ps[id]));
      CountByIds(ps, ids - {id}, t);
      var rest := set x | x in ids - {id} && EndOf(ps, x) <= t;
      assert multiset{SlotEnd(ps[id])} + Ends(ps, ids - {id}) == Ends(ps, ids - {id}) + multiset{SlotEnd(ps[id])};
      assert free == if EndOf(ps, id) <= t then rest + {id} else rest;
    }
  }

  lemma NoEnds(ps: Proposals, t: nat)
    ensures CountBy(Ends(ps, {}), t) == 0
  {
  }

  /** Before `now`, the windows after an advance are those before it, less the ended ones, plus the promoted ones. */
  lemma BusyAcross(d: Desk, now: nat, t: nat, id: ProposalId)
    requires Kept(d) && d.clock <= now && t < now
    requires forall i :: 0 <= i < |Promoted(d.board, now)| ==> HasRun(Promoted(d.board, now)[i])
    ensures id in Busy(Advanced(d, now), t) ==>
      (id in Busy(d, t) && id !in FreeBy(d.board, now, t)) || id in CoverIds(Promoted(d.board, now), t)
    ensures id in FreeBy(d.board, now, t) ==> id in Busy(d, t)
  {
    hide WellFormed, SlotEnd, HasRun, SlotStart, Promoted, Update, Exits, Waiting, Advance, JustLeft, Bounded, Ordered;
    var r := Promoted(d.board, now);
    Across(d.board, now, id);
    JustLeftAre(d.board, now, id);
    CoverIdsAre(r, t, id);
    ExitsRun(d.board, now);
    if i :| 0 <= i < |r| && r[i].id == id {
      WasQueued(d.board, now, i);
    }
  }

  lemma BusyBefore(d: Desk, now: nat, t: nat)
    requires Kept(d) && d.clock <= now && t < now
    ensures |Busy(Advanced(d, now), t)| <= |Busy(d, t)|
  {
    hide WellFormed, SlotEnd, HasRun, SlotStart, Promotions, Update, Exits, Waiting, Advance, JustLeft, Bounded,
         Ordered, Busy, Advanced, CoverIds, Ends, CountBy, EndOf, Recorded, Consistent;
    PromotedFromQueue(d.board, now);
    ExitsRun(d.board, now);
    var r, free, cover := Promoted(d.board, now), FreeBy(d.board, now, t), CoverIds(Promoted(d.board, now), t);
    forall id
      ensures id in Busy(Advanced(d, now), t) ==> id in (Busy(d, t) - free) + cover
      ensures id in free ==> id in Busy(d, t)
    {
      BusyAcross(d, now, t, id);
    }
    SubsetIsSmaller(Busy(Advanced(d, now), t), Busy(d, t) - free + cover);
    assert |Busy(d, t) - free + cover| <= |Busy(d, t) - free| + |cover|;
    assert Busy(d, t) == Busy(d, t) - free + free;
    CountByIds(d.board.proposals, Exits(d.board, now), t);
    PromotionsCover(d.board.proposals, d.board.queue, Freed(d.board, now), Room(d.board, now), now, t);
  }

  /** From `now` on, only proposals that are still active hold a slot. */
  lemma BusyNow(d: Desk, t: nat)
    requires Recorded(d) && d.clock <= t
    ensures |Busy(d, t)| <= |d.board.active|
  {
    hide HasRun, SlotStart;
    SubsetIsSmaller(Busy(d, t), d.board.active);
  }

  lemma AdvancedBounded(d: Desk, now: nat)
    requires Kept(d) && d.clock <= now
    ensures Bounded(Advanced(d, now)) && Full(Advanced(d, now).board)
    ensures |Advanced(d, now).board.active| <= d.peak && Advanced(d, now).board.cap == d.board.cap
  {
    hide WellFormed, Promoted, Exits, Waiting, Advance, JustLeft, Ordered, Busy, Consistent, Recorded;
    AdvancedRecorded(d, now);
    AdvanceIsFull(d.board, now);
    AdvancedQueue(d.board, now);
    forall t: nat ensures |Busy(Advanced(d, now), t)| <= d.peak {
      if t < now { BusyBefore(d, now, t); } else { BusyNow(Advanced(d, now), t); }
    }
  }

  // ---------------------------------------------------------------------------
  // The order
  // ---------------------------------------------------------------------------

  /** After an advance every slot held ends in the future. */
  lemma HeldBeyondNow(b: Board, now: nat, id: ProposalId)
    requires Consistent(b) && Waiting(b.proposals, b.queue) && id in Advance(b, now).active
    ensures now < EndOf(Advance(b, now).proposals, id)
  {
    hide WellFormed, SlotEnd, HasRun, SlotStart, Promoted, Update, Exits, Waiting, Advance;
    Across(b, now, id);
    var r := Promoted(b, now);
    if i :| 0 <= i < |r| && r[i].id == id { }
  }

  /** A proposal that has started keeps its start, whatever happens to its status. */
  lemma StartKept(b: Board, now: nat, id: ProposalId)
    requires Consistent(b) && Waiting(b.proposals, b.queue) && id in b.proposals && Ran(b.proposals[id])
    ensures var ps := Advance(b, now).proposals;
            id in ps && Ran(ps[id]) && StartOf(ps, id) == StartOf(b.proposals, id)
  {
    hide WellFormed, SlotEnd, HasRun, SlotStart, Promoted, Update, Exits, Waiting, Advance;
    Across(b, now, id);
    var r := Promoted(b, now);
    if i :| 0 <= i < |r| && r[i].id == id {
      WasQueued(b, now, i);
    }
  }

  /** A promoted proposal starts no earlier than any that started before, and in queue order. */
  lemma PromotedInOrder(b: Board, now: nat, from: nat)
    requires Consistent(b) && Waiting(b.proposals, b.queue) && from <= now
    requires forall id :: id in b.active ==> from <= EndOf(b.proposals, id)
    ensures InOrder(Promoted(b, now), from, now)
  {
    hide WellFormed, SlotEnd, HasRun, SlotStart, Promotions, Update, Exits, Waiting, Consistent, InOrder;
    ActiveIsRunning(b);
    ExitsRun(b, now);
    EndsWithin(b.proposals, Exits(b, now), from - 1, now);
    PromotionsInOrder(b.proposals, b.queue, Freed(b, now), Room(b, now), now, from);
  }

  lemma PromotedStart(b: Board, now: nat, i: nat)
    requires Consistent(b) && Waiting(b.proposals, b.queue) && i < |Promoted(b, now)|
    ensures i < |b.queue|
    ensures var ps, r := Advance(b, now).proposals, Promoted(b, now);
            b.queue[i] in ps && Ran(ps[b.queue[i]]) && HasRun(r[i]) && StartOf(ps, b.queue[i]) == SlotStart(r[i])
  {
    hide WellFormed, SlotEnd, HasRun, SlotStart, Promoted, Update, Exits, Waiting, Advance, Consistent;
    PromotedFromQueue(b, now);
    Across(b, now, b.queue[i]);
  }

  lemma AdvancedStarts(d: Desk, now: nat)
    requires Kept(d) && d.clock <= now
    ensures StartsInOrder(Advanced(d, now).board.proposals, Advanced(d, now).started, now)
  {
    hide WellFormed, SlotEnd, HasRun, SlotStart, Promoted, Update, Exits, Waiting, Advance, JustLeft, Bounded, Busy,
         Recorded, Consistent, Ran, StartOf, EndOf, EndedBy;
    var b, ps, r, n := d.board, Advance(d.board, now).proposals, Promoted(d.board, now), |d.started|;
    var started := Advanced(d, now).started;
    PromotedInOrder(b, now, 0);
    PromotedFromQueue(b, now);
    forall i | 0 <= i < |started| ensures started[i] in ps && Ran(ps[started[i]]) && StartOf(ps, started[i]) <= now {
      if i < n { StartKept(b, now, started[i]); } else { PromotedStart(b, now, i - n); }
    }
    forall i, j | 0 <= i < j < |started| ensures StartOf(ps, started[i]) <= StartOf(ps, started[j]) {
      if i < n { StartKept(b, now, started[i]); } else { PromotedStart(b, now, i - n); }
      if j < n { StartKept(b, now, started[j]); } else { PromotedStart(b, now, j - n); }
      if i < n <= j { PromotedInOrder(b, now, StartOf(b.proposals, started[i])); }
    }
  }

  lemma AdvancedOrdered(d: Desk, now: nat)
    requires Kept(d) && d.clock <= now
    ensures Ordered(Advanced(d, now))
  {
    hide WellFormed, Promoted, Exits, Waiting, Advance, JustLeft, Bounded, Busy, Recorded, Consistent, Ran, StartOf,
         EndOf, EndedBy;
    var d' := Advanced(d, now);
    AdvancedStarts(d, now);
    AdvancedQueue(d.board, now);
    forall id, i | id in d'.board.active && 0 <= i < |d'.started|
      ensures StartOf(d'.board.proposals, d'.started[i]) <= EndOf(d'.board.proposals, id)
    {
      HeldBeyondNow(d.board, now, id);
    }
  }

  /** Every advance keeps the invariant and leaves a full board. */
  lemma AdvancedKeeps(d: Desk, now: nat)
    requires Kept(d) && d.clock <= now
    ensures Kept(Advanced(d, now)) && Full(Advanced(d, now).board)
  {
    hide WellFormed, Promoted, Exits, Waiting, Advance, JustLeft, Bounded, Busy, Recorded, Consistent, Ordered, EndedBy;
    AdvancedRecorded(d, now);
    AdvancedBounded(d, now);
    AdvancedOrdered(d, now);
  }
}
