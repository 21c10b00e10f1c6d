/** The read-only views, which report what an advance would commit. */
module VotingViews {
  import opened Options
  import opened VotingProposal
  import opened VotingQueue
  import opened VotingAdvance
  import opened VotingScheduler

  /** Among the changed proposals, those not active any more are exactly the exits. */
  lemma ExitingAre(b: Board, updates: seq<Proposal>, now: nat, id: ProposalId)
    requires Consistent(b) && Collected(b, b.active, updates, now)
    ensures id in Exits(b, now) <==>
      exists i :: 0 <= i < |updates| && updates[i].id == id && !IsActive(updates[i].status)
  {
    hide WellFormed, Update;
    if id in Exits(b, now) {
      assert Update(b.proposals[id], now) != b.proposals[id];
      var i :| 0 <= i < |updates| && updates[i].id == id;
      assert updates[i] == Update(b.proposals[id], now);
    }
  }

  /** Ids of the inactive proposals in a list. */
  method InactiveIds(r: seq<Proposal>) returns (ids: set<ProposalId>)
    ensures forall id :: id in ids <==> exists i :: 0 <= i < |r| && r[i].id == id && !IsActive(r[i].status)
  {
    hide IsActive;
    ids := {};
    for n := 0 to |r|
      invariant forall id :: id in ids <==> exists i :: 0 <= i < n && r[i].id == id && !IsActive(r[i].status)
    {
      if !IsActive(r[n].status) { ids := ids + {r[n].id}; }
    }
  }

  /** A set listed in some order. */
  method Listed(ids: set<ProposalId>) returns (list: seq<ProposalId>)
    ensures forall id :: id in list <==> id in ids
  {
    var left := ids;
    list := [];
    while left != {}
      invariant left <= ids && forall id :: id in list <==> id in ids - left
    {
      var id :| id in left;
      list, left := list + [id], left - {id};
    }
  }

  method QueueState(b: Board, now: nat) returns (activeIds: seq<ProposalId>, pending: seq<ProposalId>)
    requires Consistent(b) && Waiting(b.proposals, b.queue)
    ensures forall id :: id in activeIds <==> id in Advance(b, now).active
    ensures pending == Advance(b, now).queue
  {
    hide WellFormed, Update, Waiting, Consistent, Promoted, Commit, Collected, Exits, ActiveIds, IsActive;
    var updates, promotions := ComputeQueueAdvance(b, now);
    var exiting := InactiveIds(updates);
    forall id ensures id in exiting <==> id in Exits(b, now) { ExitingAre(b, updates, now, id); }
    activeIds := Listed(b.active - exiting);
    for n := 0 to |promotions|
      invariant forall id :: id in activeIds <==>
        id in b.active - exiting || exists i :: 0 <= i < n && promotions[i].id == id && IsActive(promotions[i].status)
    {
      if IsActive(promotions[n].status) { activeIds := activeIds + [promotions[n].id]; }
    }
    AdvancedQueue(b, now);
    forall id ensures id in activeIds <==> id in Advance(b, now).active { ActiveIdsAre(promotions, id); }
    pending := b.queue[|promotions|..];
  }

  /** Reading a stored proposal brings it up to date. */
  ghost function ProposalView(b: Board, id: ProposalId, now: nat): Option<Proposal>
  {
    if id !in b.proposals || !WellFormed(b.proposals[id]) then None else Some(Update(b.proposals[id], now))
  }

  /** Reading a proposal that was brought up to `now` and stored gives it back. */
  lemma ViewOfPromoted(b: Board, now: nat, i: nat)
    requires Consistent(b) && Waiting(b.proposals, b.queue) && i < |Promoted(b, now)|
    ensures var p := Promoted(b, now)[i];
            ProposalView(Advance(b, now), p.id, now) == Some(p) && Advance(b, now).proposals[p.id] == p
  {
    hide SlotEnd, HasRun, SlotStart, Promoted, Waiting, Advance, Update, Consistent;
    PromotedFromQueue(b, now);
    var p := Promoted(b, now)[i];
    AdvancedAt(b, now, p.id);
    PromotedIsCurrent(b, now, i);
  }

  lemma PromotedIsCurrent(b: Board, now: nat, i: nat)
    requires Consistent(b) && Waiting(b.proposals, b.queue) && i < |Promoted(b, now)| && WellFormed(Promoted(b, now)[i])
    ensures Update(Promoted(b, now)[i], now) == Promoted(b, now)[i]
  {
    hide WellFormed, SlotEnd, HasRun, SlotStart, Waiting, Update, Consistent, Promotions;
    PromotionsAreCurrent(b.proposals, b.queue, Freed(b, now), Room(b, now), now, i);
  }

  lemma {:induction false} PromotionsAreCurrent(ps: Proposals, queue: seq<ProposalId>, freed: multiset<nat>,
                                                room: nat, now: nat, i: nat)
    requires Waiting(ps, queue) && i < |Promotions(ps, queue, freed, room, now)|
    ensures var p := Promotions(ps, queue, freed, room, now)[i]; WellFormed(p) && Update(p, now) == p
    decreases |queue|
  {
    hide WellFormed, SlotEnd, HasRun, SlotStart, Waiting, Update, Begun, NextStart, Handed;
    if queue != [] && room > 0 {
      PromotionsNext(ps, queue, freed, room, now);
      var p := Begun(ps[queue[0]], NextStart(freed, now), now);
      if i == 0 {
        BegunTwice(ps[queue[0]], NextStart(freed, now), now, now);
      } else {
        var room' := if IsActive(p.status) then room - 1 else room;
        PromotionsAreCurrent(ps, queue[1..], Handed(freed, p), room', now, i - 1);
      }
    }
  }

  lemma ViewOfOther(b: Board, now: nat, id: ProposalId)
    requires Consistent(b) && Waiting(b.proposals, b.queue) && id in b.proposals
    requires forall i :: 0 <= i < |Promoted(b, now)| ==> Promoted(b, now)[i].id != id
    ensures WellFormed(b.proposals[id]) && ProposalView(Advance(b, now), id, now) == Some(Update(b.proposals[id], now))
    ensures id in b.active ==> Advance(b, now).proposals[id] == Update(b.proposals[id], now)
    ensures id in Advance(b, now).active ==> id in b.active
  {
    hide SlotEnd, HasRun, SlotStart, Promoted, Waiting, Advance, Update, WellFormed;
    AdvancedAt(b, now, id);
    AdvanceIsConsistent(b, now);
    UpdateTwice(b.proposals[id], now, now);
  }

  /** The lookup in the promoted proposals, then in the stored ones. */
  method ViewProposal(b: Board, id: ProposalId, now: nat) returns (p: Option<Proposal>)
    requires Consistent(b) && Waiting(b.proposals, b.queue)
    ensures p == ProposalView(Advance(b, now), id, now)
    ensures p.Some? && (id in b.active || id in Advance(b, now).active) ==>
      id in Advance(b, now).proposals && p.value == Advance(b, now).proposals[id]
  {
    hide WellFormed, Update, Waiting, Promoted, Advance, Collected, ProposalView, Consistent;
    var updates, promotions := ComputeQueueAdvance(b, now);
    AdvancedAt(b, now, id);
    for i := 0 to |promotions|
      invariant forall j :: 0 <= j < i ==> promotions[j].id != id
    {
      if promotions[i].id == id {
        ViewOfPromoted(b, now, i);
        return Some(promotions[i]);
      }
    }
    if id in b.proposals {
      ViewOfOther(b, now, id);
      p := Some(Update(b.proposals[id], now));
    } else {
      NoView(Advance(b, now), id, now);
      p := None;
    }
  }

  lemma NoView(b: Board, id: ProposalId, now: nat)
    requires id !in b.proposals
    ensures ProposalView(b, id, now) == None
  {
  }
}
